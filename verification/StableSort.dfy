/** Python's list.sort(key=...), which is stable: an element goes behind the earlier ones of the
    same key. */
module StableSorts {
  import opened Lists

  ghost predicate Sorted<T>(s: seq<T>, key: T -> int) {
    forall i, j :: 0 <= i < j < |s| ==> key(s[i]) <= key(s[j])
  }

  function Insert<T>(s: seq<T>, x: T, key: T -> int): seq<T> {
    if s == [] || key(s[|s| - 1]) <= key(x) then s + [x]
    else Insert(s[..|s| - 1], x, key) + [s[|s| - 1]]
  }

  function Sort<T>(s: seq<T>, key: T -> int): seq<T> {
    if s == [] then [] else Insert(Sort(s[..|s| - 1], key), s[|s| - 1], key)
  }

  lemma {:induction false} InsertKeepsElements<T>(s: seq<T>, x: T, key: T -> int)
    ensures |Insert(s, x, key)| == |s| + 1
    ensures multiset(Insert(s, x, key)) == multiset(s) + multiset{x}
  {
    if s != [] && key(s[|s| - 1]) > key(x) {
      InsertKeepsElements(s[..|s| - 1], x, key);
      assert s == s[..|s| - 1] + [s[|s| - 1]];
    }
  }

  lemma {:induction false} InsertSorts<T>(s: seq<T>, x: T, key: T -> int)
    requires Sorted(s, key)
    ensures Sorted(Insert(s, x, key), key)
  {
    if s != [] && key(s[|s| - 1]) > key(x) {
      var init, last := s[..|s| - 1], s[|s| - 1];
      InsertSorts(init, x, key);
      InsertKeepsElements(init, x, key);
      var u := Insert(init, x, key);
      forall i | 0 <= i < |u| ensures key(u[i]) <= key(last) {
        assert u[i] in multiset(u);
        if u[i] in init {
          var j :| 0 <= j < |init| && init[j] == u[i];
          assert key(s[j]) <= key(s[|s| - 1]);
        } else {
          assert u[i] == x;
        }
      }
    }
  }

  lemma DistinctInit<T, U>(s: seq<T>, name: T -> U)
    requires s != [] && Distinct(Map(s, name))
    ensures Distinct(Map(s[..|s| - 1], name))
    ensures forall i :: 0 <= i < |s| - 1 ==> name(s[i]) != name(s[|s| - 1])
  {
    forall i, j | 0 <= i < j < |s| ensures name(s[i]) != name(s[j]) {
      assert Map(s, name)[i] != Map(s, name)[j];
    }
  }

  lemma {:induction false} InsertKeepsDistinct<T, U>(s: seq<T>, x: T, key: T -> int, name: T -> U)
    requires Distinct(Map(s, name)) && forall i :: 0 <= i < |s| ==> name(s[i]) != name(x)
    ensures Distinct(Map(Insert(s, x, key), name))
  {
    if s != [] && key(s[|s| - 1]) > key(x) {
      var init, last := s[..|s| - 1], s[|s| - 1];
      DistinctInit(s, name);
      InsertKeepsDistinct(init, x, key, name);
      InsertKeepsElements(init, x, key);
      var u := Insert(init, x, key);
      forall i | 0 <= i < |u| ensures name(u[i]) != name(last) {
        assert u[i] in multiset(u);
        if u[i] in init {
          var j :| 0 <= j < |init| && init[j] == u[i];
        } else {
          assert u[i] == x;
        }
      }
      DistinctLast(u, last, name);
    } else {
      DistinctLast(s, x, name);
    }
  }

  lemma DistinctLast<T, U>(u: seq<T>, x: T, name: T -> U)
    requires Distinct(Map(u, name)) && forall i :: 0 <= i < |u| ==> name(u[i]) != name(x)
    ensures Distinct(Map(u + [x], name))
  {
    var m := Map(u + [x], name);
    forall i, j | 0 <= i < j < |m| ensures m[i] != m[j] {
      assert m[i] == name(u[i]) == Map(u, name)[i];
      assert j < |u| ==> m[j] == name(u[j]) == Map(u, name)[j];
    }
  }

  /** The result is sorted and a rearrangement: the same elements, as often as before. */
  lemma {:induction false} SortSorts<T>(s: seq<T>, key: T -> int)
    ensures Sorted(Sort(s, key), key)
    ensures |Sort(s, key)| == |s| && multiset(Sort(s, key)) == multiset(s)
  {
    if s != [] {
      var init, last := s[..|s| - 1], s[|s| - 1];
      assert s == init + [last];
      SortSorts(init, key);
      InsertSorts(Sort(init, key), last, key);
      InsertKeepsElements(Sort(init, key), last, key);
    }
  }

  lemma {:induction false} SortKeepsDistinct<T, U>(s: seq<T>, key: T -> int, name: T -> U)
    requires Distinct(Map(s, name))
    ensures Distinct(Map(Sort(s, key), name))
  {
    if s != [] {
      var init, last := s[..|s| - 1], s[|s| - 1];
      DistinctInit(s, name);
      SortKeepsDistinct(init, key, name);
      SortSorts(init, key);
      var sorted := Sort(init, key);
      forall i | 0 <= i < |sorted| ensures name(sorted[i]) != name(last) {
        assert sorted[i] in multiset(sorted);
        var j :| 0 <= j < |init| && init[j] == sorted[i];
      }
      InsertKeepsDistinct(Sort(init, key), last, key, name);
    }
  }

  /** Sorting a sorted list with one more element at its end is inserting that element. */
  lemma {:induction false} SortOfSorted<T>(s: seq<T>, key: T -> int)
    requires Sorted(s, key)
    ensures Sort(s, key) == s
  {
    if s != [] {
      var init, last := s[..|s| - 1], s[|s| - 1];
      SortOfSorted(init, key);
      assert s == init + [last];
    }
  }

  // ----- where an element goes

  /** How many elements of a list have a key of at most `k`. */
  function AtMost<T>(s: seq<T>, key: T -> int, k: int): nat {
    if s == [] then 0 else AtMost(s[..|s| - 1], key, k) + if key(s[|s| - 1]) <= k then 1 else 0
  }

  lemma {:induction false} AtMostBounds<T>(s: seq<T>, key: T -> int, k: int)
    ensures AtMost(s, key, k) <= |s|
    ensures Sorted(s, key) ==> forall i :: 0 <= i < |s| ==> (key(s[i]) <= k <==> i < AtMost(s, key, k))
  {
    if s != [] {
      AtMostBounds(s[..|s| - 1], key, k);
    }
  }

  /** Inserting puts the element behind all those with a key of at most its own. */
  lemma {:induction false} InsertSplits<T>(s: seq<T>, x: T, key: T -> int)
    requires Sorted(s, key)
    ensures AtMost(s, key, key(x)) <= |s|
    ensures Insert(s, x, key) == s[..AtMost(s, key, key(x))] + [x] + s[AtMost(s, key, key(x))..]
  {
    AtMostBounds(s, key, key(x));
    var c := AtMost(s, key, key(x));
    if s != [] && key(s[|s| - 1]) > key(x) {
      var init, last := s[..|s| - 1], s[|s| - 1];
      InsertSplits(init, x, key);
      assert c == AtMost(init, key, key(x));
      assert init[..c] == s[..c] && init[c..] + [last] == s[c..];
    } else {
      assert c == |s|;
    }
  }

  lemma {:induction false} InsertCounts<T>(s: seq<T>, x: T, key: T -> int, k: int)
    ensures AtMost(Insert(s, x, key), key, k) == AtMost(s, key, k) + if key(x) <= k then 1 else 0
  {
    if s == [] || key(s[|s| - 1]) <= key(x) {
      assert (s + [x])[..|s|] == s;
    } else {
      var init, last := s[..|s| - 1], s[|s| - 1];
      InsertCounts(init, x, key, k);
      var u := Insert(init, x, key);
      assert (u + [last])[..|u|] == u;
    }
  }

  lemma {:induction false} SortCounts<T>(s: seq<T>, key: T -> int, k: int)
    ensures AtMost(Sort(s, key), key, k) == AtMost(s, key, k)
  {
    if s != [] {
      SortCounts(s[..|s| - 1], key, k);
      InsertCounts(Sort(s[..|s| - 1], key), s[|s| - 1], key, k);
    }
  }

  /** The positions of the elements that a stable sort puts before the one at position `p`: those with
      a smaller key, and those with the same key that come earlier. */
  ghost function Ahead<T>(s: seq<T>, key: T -> int, p: nat): set<int>
    requires p < |s|
  {
    set i | 0 <= i < |s| && (key(s[i]) < key(s[p]) || (key(s[i]) == key(s[p]) && i < p))
  }

  ghost function NoMore<T>(s: seq<T>, key: T -> int, k: int): set<int> {
    set i | 0 <= i < |s| && key(s[i]) <= k
  }

  lemma {:induction false} NoMoreCounts<T>(s: seq<T>, key: T -> int, k: int)
    ensures |NoMore(s, key, k)| == AtMost(s, key, k)
  {
    if s == [] {
      assert NoMore(s, key, k) == {};
    } else {
      var last := |s| - 1;
      NoMoreCounts(s[..last], key, k);
      assert NoMore(s, key, k) == NoMore(s[..last], key, k) + if key(s[last]) <= k then {last} else {};
    }
  }

  lemma AheadOfInit<T>(s: seq<T>, key: T -> int, p: nat)
    requires p < |s| - 1
    ensures |Ahead(s, key, p)| == |Ahead(s[..|s| - 1], key, p)| + if key(s[|s| - 1]) < key(s[p]) then 1 else 0
  {
    var last := |s| - 1;
    assert Ahead(s, key, p) == Ahead(s[..last], key, p) + if key(s[last]) < key(s[p]) then {last} else {};
  }

  /** An insertion moves an element up by one exactly if its key is greater. */
  lemma InsertMoves<T>(t: seq<T>, x: T, key: T -> int, q: nat)
    requires Sorted(t, key) && q < |t|
    ensures var q' := q + if key(x) < key(t[q]) then 1 else 0;
      |Insert(t, x, key)| == |t| + 1 && Insert(t, x, key)[q'] == t[q]
  {
    InsertSplits(t, x, key);
    AtMostBounds(t, key, key(x));
  }

  lemma InsertPlaces<T>(t: seq<T>, x: T, key: T -> int, c: nat)
    requires Sorted(t, key) && c == AtMost(t, key, key(x))
    ensures |Insert(t, x, key)| == |t| + 1 && c <= |t| && Insert(t, x, key)[c] == x
  {
    InsertSplits(t, x, key);
  }

  lemma AheadOfLast<T>(s: seq<T>, key: T -> int)
    requires s != []
    ensures |Ahead(s, key, |s| - 1)| == AtMost(s[..|s| - 1], key, key(s[|s| - 1]))
  {
    var init, k := s[..|s| - 1], key(s[|s| - 1]);
    NoMoreCounts(init, key, k);
    assert Ahead(s, key, |s| - 1) == NoMore(init, key, k);
  }

  lemma PlaceKept<T>(s: seq<T>, key: T -> int, p: nat)
    requires p < |s| - 1
    requires var t, q := Sort(s[..|s| - 1], key), |Ahead(s[..|s| - 1], key, p)|; q < |t| && t[q] == s[p]
    ensures |Ahead(s, key, p)| < |Sort(s, key)| && Sort(s, key)[|Ahead(s, key, p)|] == s[p]
  {
    var init, last := s[..|s| - 1], s[|s| - 1];
    SortSorts(init, key);
    AheadOfInit(s, key, p);
    InsertMoves(Sort(init, key), last, key, |Ahead(init, key, p)|);
  }

  lemma PlaceOfLast<T>(s: seq<T>, key: T -> int)
    requires s != []
    ensures |Ahead(s, key, |s| - 1)| < |Sort(s, key)| && Sort(s, key)[|Ahead(s, key, |s| - 1)|] == s[|s| - 1]
  {
    var init, last := s[..|s| - 1], s[|s| - 1];
    SortSorts(init, key);
    AheadOfLast(s, key);
    SortCounts(init, key, key(last));
    InsertPlaces(Sort(init, key), last, key, AtMost(init, key, key(last)));
  }

  /** Sorting puts the element at position `p` exactly behind the elements ahead of it. */
  lemma {:induction false} SortPlaces<T>(s: seq<T>, key: T -> int, p: nat)
    requires p < |s|
    ensures |Ahead(s, key, p)| < |Sort(s, key)| && Sort(s, key)[|Ahead(s, key, p)|] == s[p]
  {
    if p < |s| - 1 {
      SortPlaces(s[..|s| - 1], key, p);
      PlaceKept(s, key, p);
    } else {
      PlaceOfLast(s, key);
    }
  }
}
