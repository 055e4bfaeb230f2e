/** Which cached files a pruning process deletes (tools/emscripten.py, get_cached_file): it sorts the
    listed files by modification time and drops all but the last `limit` of them. */
module PruneOrder {
  import opened Lists
  import opened StableSorts

  type Key = string

  datatype Stamped = Stamped(key: Key, mtime: nat)

  function KeyOf(x: Stamped): Key {
    x.key
  }

  function Keys(s: seq<Stamped>): seq<Key> {
    seq(|s|, i requires 0 <= i < |s| => s[i].key)
  }

  lemma KeysAreMapped(s: seq<Stamped>)
    ensures Keys(s) == Map(s, KeyOf)
  {
    forall i | 0 <= i < |s| ensures Keys(s)[i] == Map(s, KeyOf)[i] {
      assert KeyOf(s[i]) == s[i].key;
    }
  }

  function Time(x: Stamped): int {
    x.mtime
  }

  function SortByTime(s: seq<Stamped>): seq<Stamped> {
    Sort(s, Time)
  }

  /** The slice `files[:-limit]`: for 0 it is empty, because -0 is 0. */
  function AllButLast<T>(s: seq<T>, limit: nat): seq<T> {
    if limit == 0 || |s| <= limit then [] else s[..|s| - limit]
  }

  function Victims(files: seq<Stamped>, limit: nat): seq<Key> {
    Keys(AllButLast(SortByTime(files), limit))
  }

  lemma InKeys(s: seq<Stamped>, k: Key)
    ensures k in Keys(s) <==> exists x :: x in s && x.key == k
  {
    if k in Keys(s) {
      var i :| 0 <= i < |s| && Keys(s)[i] == k;
      assert s[i] in s;
    }
    if x :| x in s && x.key == k {
      var i :| 0 <= i < |s| && s[i] == x;
      assert Keys(s)[i] == k;
    }
  }

  lemma DistinctAppend(s: seq<Key>, k: Key)
    ensures Distinct(s + [k]) <==> Distinct(s) && k !in s
  {
    var t := s + [k];
    assert t[|s|] == k && forall i :: 0 <= i < |s| ==> t[i] == s[i];
  }

  /** The sorted list is a rearrangement: as long, with the same elements, each key once. */
  lemma SortByTimeSorts(s: seq<Stamped>)
    requires Distinct(Keys(s))
    ensures var t := SortByTime(s);
      && (forall i, j :: 0 <= i < j < |t| ==> t[i].mtime <= t[j].mtime)
      && |t| == |s| && Distinct(Keys(t)) && (forall y :: y in t <==> y in s)
  {
    var t := SortByTime(s);
    SortSorts(s, Time);
    KeysAreMapped(s);
    SortKeepsDistinct(s, Time, KeyOf);
    KeysAreMapped(t);
    forall i, j | 0 <= i < j < |t| ensures t[i].mtime <= t[j].mtime {
      assert Time(t[i]) <= Time(t[j]);
    }
    forall y ensures y in t <==> y in s {
      assert y in multiset(t) <==> y in multiset(s);
    }
  }

  /** A pruner deletes only listed files, each once; every file it keeps is at least as new as every
      file it deletes; and it keeps the newest `limit` of them exactly when `limit` is positive or
      there is nothing to delete: a limit of 0 deletes nothing. */
  lemma VictimsAreOldest(files: seq<Stamped>, limit: nat)
    requires Distinct(Keys(files))
    ensures var v := Victims(files, limit);
      && Distinct(v) && (forall k :: k in v ==> k in Keys(files))
      && (forall f, g :: f in files && g in files && f.key in v && g.key !in v ==> f.mtime <= g.mtime)
      && (|files| - |v| <= limit <==> limit > 0 || files == [])
      && (limit > 0 && |files| > limit ==> |files| - |v| == limit)
  {
    var sorted := SortByTime(files);
    var v := Victims(files, limit);
    SortByTimeSorts(files);
    assert forall i :: 0 <= i < |v| ==> v[i] == Keys(sorted)[i] == sorted[i].key;
    forall k | k in v ensures k in Keys(files) {
      var i :| 0 <= i < |v| && v[i] == k;
      InKeys(files, k);
      assert sorted[i] in sorted;
    }
    forall f, g | f in files && g in files && f.key in v && g.key !in v ensures f.mtime <= g.mtime {
      var a :| 0 <= a < |sorted| && sorted[a] == f;
      var b :| 0 <= b < |sorted| && sorted[b] == g;
      var c :| 0 <= c < |v| && v[c] == f.key;
      assert Keys(sorted)[a] == Keys(sorted)[c];
      assert b >= |v|;
    }
  }

  /** Which files a pruner keeps: all when the limit is 0 or there are no more than that; otherwise a file
      stays if and only if all but `limit` of the files are older, or equally old and listed earlier. */
  lemma SurvivesExactly(files: seq<Stamped>, limit: nat, p: nat)
    requires Distinct(Keys(files)) && p < |files|
    ensures files[p].key !in Victims(files, limit) <==>
      limit == 0 || |files| <= limit || |Ahead(files, Time, p)| >= |files| - limit
  {
    var sorted, v, place := SortByTime(files), Victims(files, limit), |Ahead(files, Time, p)|;
    SortByTimeSorts(files);
    SortPlaces(files, Time, p);
    forall i | 0 <= i < |v| ensures v[i] == Keys(sorted)[i] {}
    if place < |v| {
      assert v[place] == files[p].key;
    }
    forall i | 0 <= i < |v| && v[i] == files[p].key ensures i == place {
      assert Keys(sorted)[i] == Keys(sorted)[place];
    }
  }
}
