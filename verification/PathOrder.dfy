/** Which of several listed paths a source file belongs to (tools/empath-split.py, lines 235-251):
    empath-split goes through the listed strings in reverse alphabetical order and gives a file to
    the first one that is the file or one of its parents. */
module PathOrder {
  import opened Options
  import opened Texts

  /** A pathlib.PurePath on POSIX. The root of an absolute path is "/", or "//" when it is written with
      exactly two slashes in front: POSIX keeps such paths apart. */
  datatype Path = Path(root: string, parts: seq<string>)

  function Root(s: string): string {
    if s == [] || s[0] != '/' then ""
    else if |s| >= 2 && s[1] == '/' && (|s| == 2 || s[2] != '/') then "//"
    else "/"
  }

  function Keep(parts: seq<string>): seq<string> {
    if parts == [] then []
    else (if parts[0] == "" || parts[0] == "." then [] else [parts[0]]) + Keep(parts[1..])
  }

  /** PurePath(s) drops empty and "." components. */
  function Pure(s: string): Path {
    Path(Root(s), Keep(Split(s, '/')))
  }

  /** str(path), except that the empty relative path is written as "". */
  function Render(p: Path): string {
    p.root + Join(p.parts, '/')
  }

  /** p == q or p in q.parents */
  predicate Covers(p: string, q: string) {
    Pure(p).root == Pure(q).root && Pure(p).parts <= Pure(q).parts
  }

  /** Alphabetical order by code points. */
  predicate Less(a: string, b: string) {
    b != [] && (a == [] || a[0] < b[0] || (a[0] == b[0] && Less(a[1..], b[1..])))
  }

  lemma {:induction false} LessTransitive(a: string, b: string, c: string)
    requires Less(a, b) && Less(b, c)
    ensures Less(a, c)
  {
    if a != [] && a[0] == b[0] == c[0] {
      LessTransitive(a[1..], b[1..], c[1..]);
    }
  }

  lemma {:induction false} LessTotal(a: string, b: string)
    ensures a == b || Less(a, b) || Less(b, a)
    ensures !(Less(a, b) && Less(b, a)) && !Less(a, a)
  {
    if a != [] && b != [] && a[0] == b[0] {
      LessTotal(a[1..], b[1..]);
      assert a == [a[0]] + a[1..] && b == [b[0]] + b[1..];
    }
    if a != [] {
      LessTotal(a[1..], a[1..]);
    }
  }

  lemma {:induction false} PrefixIsLess(a: string, b: string)
    requires a <= b && |a| < |b|
    ensures Less(a, b)
  {
    if a != [] {
      PrefixIsLess(a[1..], b[1..]);
    }
  }

  // ----- sorted(paths, reverse=True)

  function InsertReverse(x: string, s: seq<string>): seq<string> {
    if s == [] || Less(s[0], x) then [x] + s else [s[0]] + InsertReverse(x, s[1..])
  }

  function SortReverse(s: seq<string>): seq<string> {
    if s == [] then [] else InsertReverse(s[0], SortReverse(s[1..]))
  }

  ghost predicate Descending(s: seq<string>) {
    forall i, j :: 0 <= i < j < |s| ==> !Less(s[i], s[j])
  }

  lemma {:induction false} InsertReverseSorts(x: string, s: seq<string>)
    requires Descending(s)
    ensures Descending(InsertReverse(x, s))
    ensures multiset(InsertReverse(x, s)) == multiset{x} + multiset(s)
  {
    var t := InsertReverse(x, s);
    if s == [] {
    } else if Less(s[0], x) {
      forall k | 0 <= k < |s| ensures !Less(x, s[k]) {
        if Less(x, s[k]) {
          LessTransitive(s[0], x, s[k]);
          LessTotal(s[0], s[0]);
        }
      }
    } else {
      InsertReverseSorts(x, s[1..]);
      assert s == [s[0]] + s[1..];
      forall k | 1 <= k < |t| ensures !Less(s[0], t[k]) {
        assert t[k] in multiset(InsertReverse(x, s[1..]));
        LessTotal(s[0], s[0]);
      }
    }
  }

  lemma {:induction false} SortReverseSorts(s: seq<string>)
    ensures Descending(SortReverse(s)) && multiset(SortReverse(s)) == multiset(s)
  {
    if s != [] {
      SortReverseSorts(s[1..]);
      InsertReverseSorts(s[0], SortReverse(s[1..]));
      assert s == [s[0]] + s[1..];
    }
  }

  lemma SortReverseElements(s: seq<string>)
    ensures Descending(SortReverse(s)) && forall x :: x in SortReverse(s) <==> x in s
  {
    SortReverseSorts(s);
    forall x ensures x in SortReverse(s) <==> x in s {
      assert x in multiset(SortReverse(s)) <==> x in multiset(s);
    }
  }

  // ----- first match and deepest match

  /** The first path of `order` that covers the source: the one that empath-split chooses. */
  function First(order: seq<string>, src: string): Option<string> {
    if order == [] then None
    else if Covers(order[0], src) then Some(order[0])
    else First(order[1..], src)
  }

  lemma {:induction false} FirstIsFirst(order: seq<string>, src: string)
    ensures var f := First(order, src);
      && (f.None? ==> forall i :: 0 <= i < |order| ==> !Covers(order[i], src))
      && (f.Some? ==> exists i :: IsFirst(order, src, i) && order[i] == f.value)
  {
    if order != [] {
      if Covers(order[0], src) {
        assert IsFirst(order, src, 0);
      } else {
        FirstIsFirst(order[1..], src);
        var f := First(order[1..], src);
        if f.Some? {
          var i :| IsFirst(order[1..], src, i) && order[1..][i] == f.value;
          FirstOfRest(order, src, i);
        }
      }
    }
  }

  lemma FirstOfRest(order: seq<string>, src: string, i: int)
    requires order != [] && !Covers(order[0], src) && IsFirst(order[1..], src, i)
    ensures IsFirst(order, src, i + 1) && order[i + 1] == order[1..][i]
  {
    forall j | 0 <= j < i + 1 ensures !Covers(order[j], src) {
      assert j > 0 ==> order[1..][j - 1] == order[j];
    }
  }

  ghost predicate IsFirst(order: seq<string>, src: string, i: int) {
    0 <= i < |order| && Covers(order[i], src) && forall j :: 0 <= j < i ==> !Covers(order[j], src)
  }

  /** A listed path around the source with no other listed path in between: every listed path that
      covers the source also covers it. */
  ghost predicate IsDeepest(paths: seq<string>, src: string, p: string) {
    p in paths && Covers(p, src) && forall q :: q in paths && Covers(q, src) ==> Covers(q, p)
  }

  ghost predicate Inside(p: string, q: string) {
    Covers(p, q) && !Covers(q, p)
  }

  /** Wherever one listed path lies strictly inside another, some listed spelling of the inner one
      sorts after the outer one. */
  ghost predicate InnerSortsLater(paths: seq<string>) {
    forall p, q :: p in paths && q in paths && Inside(p, q) ==> exists r :: SortsLater(paths, p, q, r)
  }

  ghost predicate SortsLater(paths: seq<string>, p: string, q: string, r: string) {
    r in paths && Pure(r) == Pure(q) && Less(p, r)
  }

  /** The choice for a source is right: nothing if no listed path covers it, else a deepest one. */
  ghost predicate ChosenRight(paths: seq<string>, src: string) {
    match First(SortReverse(paths), src)
    case None => forall p :: p in paths ==> !Covers(p, src)
    case Some(f) => IsDeepest(paths, src, f)
  }

  lemma FirstComesBefore(paths: seq<string>, src: string, p: string)
    requires p in paths && Covers(p, src)
    ensures var f := First(SortReverse(paths), src);
      f.Some? && f.value in paths && Covers(f.value, src) && (f.value == p || Less(p, f.value))
  {
    var order := SortReverse(paths);
    SortReverseElements(paths);
    FirstIsFirst(order, src);
    var i :| 0 <= i < |order| && order[i] == p;
    var f := First(order, src).value;
    var k :| IsFirst(order, src, k) && order[k] == f;
    assert k <= i;
    LessTotal(f, p);
  }

  lemma NoneCloser(paths: seq<string>, src: string, p: string)
    requires InnerSortsLater(paths) && p in paths && Covers(p, src)
    ensures var f := First(SortReverse(paths), src); f.Some? && Covers(p, f.value)
  {
    FirstComesBefore(paths, src, p);
    var f := First(SortReverse(paths), src).value;
    if Inside(f, p) {
      var r :| SortsLater(paths, f, p, r);
      SameCovers(r, p, src);
      FirstComesBefore(paths, src, r);
      LessTotal(f, r);
    }
  }

  lemma SameCovers(r: string, p: string, src: string)
    requires Pure(r) == Pure(p)
    ensures Covers(r, src) <==> Covers(p, src)
  {
  }

  lemma RightWhenInnerSortsLater(paths: seq<string>, src: string)
    requires InnerSortsLater(paths)
    ensures ChosenRight(paths, src)
  {
    forall p | p in paths && Covers(p, src)
      ensures First(SortReverse(paths), src).Some? && Covers(p, First(SortReverse(paths), src).value)
    {
      NoneCloser(paths, src, p);
    }
    if First(SortReverse(paths), src).Some? {
      FirstIsListed(paths, src);
    }
  }

  lemma FirstIsListed(paths: seq<string>, src: string)
    requires First(SortReverse(paths), src).Some?
    ensures var f := First(SortReverse(paths), src).value; f in paths && Covers(f, src)
  {
    SortReverseElements(paths);
    FirstIsFirst(SortReverse(paths), src);
  }

  lemma WrongOtherwise(paths: seq<string>, p: string, q: string)
    requires p in paths && q in paths && Inside(p, q) && ChosenRight(paths, q)
    ensures exists r :: SortsLater(paths, p, q, r)
  {
    FirstComesBefore(paths, q, p);
    var f := First(SortReverse(paths), q).value;
    assert Covers(q, f) && Covers(f, q);
    assert Pure(f) == Pure(q);
    assert SortsLater(paths, p, q, f);
  }

  /** empath-split gives every source to a deepest listed path exactly when inner paths sort later. */
  lemma GreedyIsDeepest(paths: seq<string>)
    ensures (forall src :: ChosenRight(paths, src)) <==> InnerSortsLater(paths)
  {
    if InnerSortsLater(paths) {
      forall src ensures ChosenRight(paths, src) {
        RightWhenInnerSortsLater(paths, src);
      }
    }
    if forall src :: ChosenRight(paths, src) {
      forall p, q | p in paths && q in paths && Inside(p, q) ensures exists r :: SortsLater(paths, p, q, r) {
        assert ChosenRight(paths, q);
        WrongOtherwise(paths, p, q);
      }
    }
  }

  /** Written without empty or "." components. */
  predicate Canonical(s: string) {
    s == Render(Pure(s))
  }

  lemma {:induction false} KeepIsClean(parts: seq<string>)
    ensures forall i :: 0 <= i < |Keep(parts)| ==> Keep(parts)[i] != []
  {
    if parts != [] {
      KeepIsClean(parts[1..]);
    }
  }

  /** For paths written canonically, an inner path always sorts later, so the choice is right. */
  lemma CanonicalPathsSort(paths: seq<string>)
    requires forall p :: p in paths ==> Canonical(p)
    ensures InnerSortsLater(paths) && forall src :: ChosenRight(paths, src)
  {
    forall p, q | p in paths && q in paths && Inside(p, q) ensures exists r :: SortsLater(paths, p, q, r) {
      var a, b := Pure(p), Pure(q);
      KeepIsClean(Split(q, '/'));
      JoinPrefix(a.parts, b.parts, '/');
      assert Render(a) <= Render(b) && |Render(a)| < |Render(b)|;
      PrefixIsLess(p, q);
      assert SortsLater(paths, p, q, q);
    }
    GreedyIsDeepest(paths);
  }

  /** A directory or file name. */
  predicate Name(s: string) {
    s != "" && s != "." && '/' !in s
  }

  lemma PureOfOne(x: string)
    requires Name(x)
    ensures Pure(x) == Path("", [x])
  {
    SplitPlain(x, '/');
    assert x[0] in x;
    assert Keep([x]) == [x] + Keep([]);
  }

  lemma PureOfTwo(x: string, y: string)
    requires Name(x) && Name(y)
    ensures Pure(x + ['/'] + y) == Path("", [x, y])
  {
    SplitFirst(x, y, '/');
    SplitPlain(y, '/');
    assert x[0] in x;
    assert Keep([x] + [y]) == [x] + Keep([y]);
    assert Keep([y]) == [y] + Keep([]);
  }

  lemma PureOfDot(dot: string, x: string, y: string)
    requires Name(x) && Name(y) && dot == "."
    ensures Pure(dot + ['/'] + (x + ['/'] + y)) == Path("", [x, y])
  {
    SplitFirst(dot, x + ['/'] + y, '/');
    SplitFirst(x, y, '/');
    SplitPlain(y, '/');
    var parts := Split(dot + ['/'] + (x + ['/'] + y), '/');
    assert parts[1..] == [x] + [y];
    assert Keep(parts) == Keep(parts[1..]);
    assert Keep([x] + [y]) == [x] + Keep([y]);
    assert Keep([y]) == [y] + Keep([]);
  }

  /** Listed as "x" and "./x/y", where x begins with a letter or digit, the inner directory sorts below
      the outer one and its files go to "x". */
  lemma DotPathLosesItsFiles(x: string, y: string)
    requires Name(x) && Name(y) && x[0] > '.'
    ensures var outer, inner, file := x, "." + ['/'] + (x + ['/'] + y), x + ['/'] + y;
      && First(SortReverse([outer, inner]), file) == Some(outer)
      && Inside(outer, inner) && Covers(inner, file) && !IsDeepest([outer, inner], file, outer)
  {
    var outer, inner, file := x, "." + ['/'] + (x + ['/'] + y), x + ['/'] + y;
    PureOfOne(x);
    PureOfTwo(x, y);
    PureOfDot(".", x, y);
    assert Less(inner, outer) by {
      assert inner[0] == '.';
    }
    assert [outer, inner][1..] == [inner];
    assert SortReverse([inner]) == InsertReverse(inner, SortReverse([])) == [inner];
    assert SortReverse([outer, inner]) == InsertReverse(outer, [inner]) == [outer] + [inner];
    assert ([outer] + [inner])[0] == outer;
    assert inner in [outer, inner] && !([x, y] <= [x]);
  }

  // ----- which files a plain path covers

  predicate PlainNames(names: seq<string>) {
    names != [] && forall i :: 0 <= i < |names| ==> Name(names[i])
  }

  lemma {:induction false} KeepsPlain(names: seq<string>)
    requires forall i :: 0 <= i < |names| ==> names[i] != "" && names[i] != "."
    ensures Keep(names) == names
  {
    if names != [] {
      KeepsPlain(names[1..]);
    }
  }

  lemma JoinStartsPlain(names: seq<string>)
    requires PlainNames(names)
    ensures Root(Join(names, '/')) == ""
  {
    assert names[0] != "" && names[0][0] != '/';
  }

  lemma PureOfPlain(names: seq<string>)
    requires PlainNames(names)
    ensures Pure(Join(names, '/')) == Path("", names)
  {
    SplitUndoesJoin(names, '/');
    KeepsPlain(names);
    JoinStartsPlain(names);
  }

  /** A path covers exactly the files under it, and itself: `a/b` covers `a/b/c` but not `a/bc`. */
  lemma CoversExactlyBelow(path: seq<string>, file: seq<string>)
    requires PlainNames(path) && PlainNames(file)
    ensures Covers(Join(path, '/'), Join(file, '/')) <==> path <= file
  {
    PureOfPlain(path);
    PureOfPlain(file);
  }
}
