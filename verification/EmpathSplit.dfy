/** empath-split (tools/empath-split.py): groups functions by source file, gives every source to one
    of the listed paths, and writes for each module the functions of its paths. */
module EmpathSplit {
  import opened Options
  import opened Lists
  import opened OrderedDicts
  import opened PathOrder

  // ----- functions of one source (lines 230-233)

  /** The functions with this source, in the order in which they appear. */
  function FuncsOf(funcs: seq<string>, srcOf: map<string, string>, src: string): seq<string>
    requires forall f :: f in funcs ==> f in srcOf
  {
    if funcs == [] then []
    else
      var last := funcs[|funcs| - 1];
      assert last in funcs;
      FuncsOf(funcs[..|funcs| - 1], srcOf, src) + if srcOf[last] == src then [last] else []
  }

  lemma {:induction false} FuncsOfElements(funcs: seq<string>, srcOf: map<string, string>, src: string)
    requires forall f :: f in funcs ==> f in srcOf
    ensures forall f :: f in FuncsOf(funcs, srcOf, src) <==> f in funcs && srcOf[f] == src
    ensures Distinct(funcs) ==> Distinct(FuncsOf(funcs, srcOf, src))
  {
    if funcs != [] {
      var init, last := funcs[..|funcs| - 1], funcs[|funcs| - 1];
      assert last in funcs && funcs == init + [last];
      FuncsOfElements(init, srcOf, src);
      if Distinct(funcs) {
        assert last !in init;
        assert last !in FuncsOf(init, srcOf, src);
      }
    }
  }

  lemma FuncsOfAppend(funcs: seq<string>, f: string, srcOf: map<string, string>, src: string)
    requires forall g :: g in funcs + [f] ==> g in srcOf
    ensures (forall g :: g in funcs ==> g in srcOf) && f in srcOf
    ensures FuncsOf(funcs + [f], srcOf, src) == FuncsOf(funcs, srcOf, src) + if srcOf[f] == src then [f] else []
  {
    assert f in funcs + [f];
    assert forall g :: g in funcs ==> g in funcs + [f];
    assert (funcs + [f])[..|funcs|] == funcs;
  }

  /** Every source of a function has exactly the list of its functions. */
  ghost predicate Groups(funcs: seq<string>, srcOf: map<string, string>, srcToFuncs: map<string, seq<string>>) {
    && (forall f :: f in funcs ==> f in srcOf && srcOf[f] in srcToFuncs)
    && (forall s :: s in srcToFuncs ==> srcToFuncs[s] == FuncsOf(funcs, srcOf, s))
  }

  lemma HasMember(s: seq<string>)
    ensures s == [] || exists x :: x in s
  {
    if s != [] {
      assert s[0] in s;
    }
  }

  lemma GroupOneMore(funcs: seq<string>, f: string, srcOf: map<string, string>, d: map<string, seq<string>>)
    requires f in srcOf && Groups(funcs, srcOf, d)
    ensures Groups(funcs + [f], srcOf, d[srcOf[f] := (if srcOf[f] in d then d[srcOf[f]] else []) + [f]])
  {
    var src := srcOf[f];
    if src !in d {
      FuncsOfElements(funcs, srcOf, src);
      HasMember(FuncsOf(funcs, srcOf, src));
    }
    var e := d[src := (if src in d then d[src] else []) + [f]];
    forall s | s in e ensures e[s] == FuncsOf(funcs + [f], srcOf, s) {
      FuncsOfAppend(funcs, f, srcOf, s);
    }
  }

  method GroupBySource(funcToSrc: Dict<string>) returns (srcToFuncs: Dict<seq<string>>)
    requires funcToSrc.Valid()
    ensures srcToFuncs.Valid() && Groups(funcToSrc.keys, funcToSrc.values, srcToFuncs.values)
  {
    srcToFuncs := Empty();
    var i := 0;
    while i < |funcToSrc.keys|
      invariant 0 <= i <= |funcToSrc.keys|
      invariant srcToFuncs.Valid() && Groups(funcToSrc.keys[..i], funcToSrc.values, srcToFuncs.values)
    {
      var f := funcToSrc.keys[i];
      var src := funcToSrc.values[f];
      GroupOneMore(funcToSrc.keys[..i], f, funcToSrc.values, srcToFuncs.values);
      assert funcToSrc.keys[..i + 1] == funcToSrc.keys[..i] + [f];
      var group := if src in srcToFuncs.values then srcToFuncs.values[src] else [];
      SetKeepsValid(srcToFuncs, src, group + [f]);
      srcToFuncs := Set(srcToFuncs, src, group + [f]);
      i := i + 1;
    }
    assert funcToSrc.keys[..|funcToSrc.keys|] == funcToSrc.keys;
  }

  lemma GroupsAreDisjoint(funcs: seq<string>, srcOf: map<string, string>, d: Dict<seq<string>>)
    requires Groups(funcs, srcOf, d.values) && Distinct(funcs)
    ensures EachOnce(d)
  {
    forall s | s in d.values
      ensures Distinct(d.values[s]) && forall f :: f in d.values[s] ==> f in srcOf && srcOf[f] == s
    {
      FuncsOfElements(funcs, srcOf, s);
    }
  }

  // ----- assigning sources to paths (lines 235-252)

  /** The functions that `path` should get: those of the sources that choose it. */
  function Share(srcs: seq<string>, funcs: map<string, seq<string>>, order: seq<string>, path: string): seq<string>
    requires forall s :: s in srcs ==> s in funcs
  {
    if srcs == [] then []
    else
      var last := srcs[|srcs| - 1];
      assert last in srcs;
      Share(srcs[..|srcs| - 1], funcs, order, path) + if First(order, last) == Some(path) then funcs[last] else []
  }

  lemma {:induction false} FirstOfPrefix(order: seq<string>, i: nat, src: string)
    requires i < |order| && Distinct(order)
    ensures First(order[..i + 1], src) == if First(order[..i], src).Some? then First(order[..i], src)
                                          else if Covers(order[i], src) then Some(order[i]) else None
    ensures First(order, src) == Some(order[i]) <==> First(order[..i], src).None? && Covers(order[i], src)
    decreases |order|
  {
    if i == 0 {
      assert order[..1] == [order[0]];
      assert order[..0] == [];
      if !Covers(order[0], src) {
        FirstIsFirst(order[1..], src);
      }
    } else {
      var rest := order[1..];
      assert order[..i + 1][1..] == rest[..i];
      assert order[..i][1..] == rest[..i - 1];
      FirstOfPrefix(rest, i - 1, src);
    }
  }

  method AddUnvisited(funcs: seq<string>, list: seq<string>, visited: set<string>) returns (list': seq<string>, visited': set<string>)
    requires Distinct(funcs)
    requires (forall f :: f in funcs ==> f in visited) || (forall f :: f in funcs ==> f !in visited)
    ensures (forall f :: f in funcs ==> f in visited) && funcs != [] ==> list' == list && visited' == visited
    ensures (forall f :: f in funcs ==> f !in visited) ==> list' == list + funcs
    ensures visited' == visited + (set f | f in funcs)
  {
    list', visited' := list, visited;
    var i := 0;
    while i < |funcs|
      invariant 0 <= i <= |funcs|
      invariant visited' == visited + (set f | f in funcs[..i])
      invariant (forall f :: f in funcs ==> f !in visited) ==> list' == list + funcs[..i]
      invariant (forall f :: f in funcs ==> f in visited) && funcs != [] ==> list' == list
    {
      assert funcs[..i + 1] == funcs[..i] + [funcs[i]];
      assert funcs[i] in funcs && funcs[i] !in funcs[..i];
      if funcs[i] !in visited' {
        visited' := visited' + {funcs[i]};
        list' := list' + [funcs[i]];
      }
      i := i + 1;
    }
    assert funcs[..|funcs|] == funcs;
  }

  /** `visited` holds the functions of the sources that some path of `order` covers, up to source `j`
      counting the `i`-th path as well. */
  ghost predicate VisitedIs(visited: set<string>, table: Dict<seq<string>>, order: seq<string>, i: nat, j: nat)
    requires table.Valid() && i < |order| && j <= |table.keys|
  {
    && (forall k :: 0 <= k < j ==> AllOrNone(visited, table.values[table.keys[k]], First(order[..i + 1], table.keys[k]).Some?))
    && (forall k :: j <= k < |table.keys| ==> AllOrNone(visited, table.values[table.keys[k]], First(order[..i], table.keys[k]).Some?))
  }

  ghost predicate AllOrNone(visited: set<string>, funcs: seq<string>, all: bool) {
    forall f :: f in funcs ==> (f in visited <==> all)
  }

  /** One source of which nothing or everything has been taken. */
  method TakeSource(path: string, src: string, funcs: seq<string>, list: seq<string>, visited: set<string>, ghost all: bool)
    returns (list': seq<string>, visited': set<string>)
    requires Distinct(funcs) && AllOrNone(visited, funcs, all)
    ensures list' == list + if Covers(path, src) && !all then funcs else []
    ensures visited' == if Covers(path, src) then visited + (set f | f in funcs) else visited
  {
    list', visited' := list, visited;
    if Covers(path, src) {
      list', visited' := AddUnvisited(funcs, list, visited);
      assert funcs == [] ==> list' == list + funcs;
    }
  }

  lemma ShareOneMore(table: Dict<seq<string>>, order: seq<string>, i: nat, j: nat)
    requires table.Valid() && Distinct(order) && i < |order| && j < |table.keys|
    ensures Share(table.keys[..j + 1], table.values, order, order[i]) == Share(table.keys[..j], table.values, order, order[i]) +
      if Covers(order[i], table.keys[j]) && First(order[..i], table.keys[j]).None? then table.values[table.keys[j]] else []
  {
    FirstOfPrefix(order, i, table.keys[j]);
    TakeOneMore(table.keys, j);
  }

  /** One path goes through all sources and takes what nobody has taken before. */
  method TakeSources(path: string, table: Dict<seq<string>>, visited: set<string>, ghost order: seq<string>, ghost i: nat)
    returns (list: seq<string>, visited': set<string>)
    requires table.Valid() && EachOnce(table) && Distinct(order) && i < |order| && order[i] == path
    requires VisitedIs(visited, table, order, i, 0)
    ensures list == Share(table.keys, table.values, order, path)
    ensures VisitedIs(visited', table, order, i, |table.keys|)
  {
    list, visited' := [], visited;
    var j := 0;
    while j < |table.keys|
      invariant 0 <= j <= |table.keys|
      invariant VisitedIs(visited', table, order, i, j)
      invariant list == Share(table.keys[..j], table.values, order, path)
    {
      var src := table.keys[j];
      ghost var before, all := visited', First(order[..i], src).Some?;
      assert AllOrNone(visited', table.values[src], all);
      ShareOneMore(table, order, i, j);
      list, visited' := TakeSource(path, src, table.values[src], list, visited', all);
      OneSourceMore(before, visited', table, order, i, j);
      j := j + 1;
    }
    TakeAll(table.keys);
  }

  lemma OneSourceMore(before: set<string>, after: set<string>, table: Dict<seq<string>>, order: seq<string>, i: nat, j: nat)
    requires table.Valid() && EachOnce(table) && Distinct(order) && i < |order| && j < |table.keys|
    requires VisitedIs(before, table, order, i, j)
    requires after == if Covers(order[i], table.keys[j]) then before + (set f | f in table.values[table.keys[j]]) else before
    ensures VisitedIs(after, table, order, i, j + 1)
  {
    FirstOfPrefix(order, i, table.keys[j]);
    forall k | 0 <= k < |table.keys|
      ensures AllOrNone(after, table.values[table.keys[k]],
                        First(if k <= j then order[..i + 1] else order[..i], table.keys[k]).Some?)
    {
      var all := First(if k < j then order[..i + 1] else order[..i], table.keys[k]).Some?;
      assert AllOrNone(before, table.values[table.keys[k]], all);
      if k != j {
        assert table.keys[k] != table.keys[j];
      }
    }
  }

  /** These paths have got exactly the functions of the sources that choose them, source by source. */
  ghost predicate HaveShares(paths: seq<string>, values: map<string, seq<string>>, table: Dict<seq<string>>, order: seq<string>)
    requires table.Valid()
  {
    forall p :: p in paths ==> p in values && values[p] == Share(table.keys, table.values, order, p)
  }

  lemma OneShareMore(paths: seq<string>, p: string, list: seq<string>, d: Dict<seq<string>>, table: Dict<seq<string>>, order: seq<string>)
    requires table.Valid() && d.Valid() && d.keys == paths && p !in paths && HaveShares(paths, d.values, table, order)
    requires list == Share(table.keys, table.values, order, p)
    ensures var e := Set(d, p, list); e.Valid() && e.keys == paths + [p] && HaveShares(paths + [p], e.values, table, order)
  {
    SetKeepsValid(d, p, list);
  }

  lemma NothingVisited(table: Dict<seq<string>>, order: seq<string>)
    requires table.Valid() && order != []
    ensures VisitedIs({}, table, order, 0, 0)
  {
    assert order[..0] == [];
  }

  method AssignFunctions(paths: seq<string>, srcToFuncs: Dict<seq<string>>) returns (pathToFuncs: Dict<seq<string>>)
    requires srcToFuncs.Valid() && EachOnce(srcToFuncs) && Distinct(paths)
    ensures pathToFuncs.Valid() && pathToFuncs.keys == SortReverse(paths)
    ensures HaveShares(paths, pathToFuncs.values, srcToFuncs, SortReverse(paths))
  {
    var order := SortReverse(paths);
    SortReverseElements(paths);
    SortReverseDistinct(paths);
    pathToFuncs := Empty();
    var visited: set<string> := {};
    if order != [] {
      NothingVisited(srcToFuncs, order);
    }
    var i := 0;
    while i < |order|
      invariant 0 <= i <= |order|
      invariant pathToFuncs.Valid() && pathToFuncs.keys == order[..i]
      invariant HaveShares(order[..i], pathToFuncs.values, srcToFuncs, order)
      invariant i < |order| ==> VisitedIs(visited, srcToFuncs, order, i, 0)
    {
      var list;
      list, visited := TakeSources(order[i], srcToFuncs, visited, order, i);
      TakeOneMore(order, i);
      OneShareMore(order[..i], order[i], list, pathToFuncs, srcToFuncs, order);
      pathToFuncs := Set(pathToFuncs, order[i], list);
      i := i + 1;
    }
    TakeAll(order);
  }

  lemma {:induction false} InsertReverseDistinct(x: string, s: seq<string>)
    requires Distinct(s) && x !in s
    ensures Distinct(InsertReverse(x, s)) && forall y :: y in InsertReverse(x, s) <==> y == x || y in s
  {
    if s != [] && !Less(s[0], x) {
      InsertReverseDistinct(x, s[1..]);
      assert s == [s[0]] + s[1..];
      assert s[0] !in s[1..];
    }
  }

  lemma {:induction false} SortReverseDistinct(s: seq<string>)
    requires Distinct(s)
    ensures Distinct(SortReverse(s))
  {
    if s != [] {
      SortReverseDistinct(s[1..]);
      SortReverseElements(s[1..]);
      assert s[0] !in s[1..];
      InsertReverseDistinct(s[0], SortReverse(s[1..]));
    }
  }

  lemma {:induction false} ShareElements(srcs: seq<string>, funcs: map<string, seq<string>>, order: seq<string>, path: string)
    requires forall s :: s in srcs ==> s in funcs
    ensures forall f :: f in Share(srcs, funcs, order, path) <==>
      exists s :: s in srcs && First(order, s) == Some(path) && f in funcs[s]
  {
    if srcs != [] {
      var init, last := srcs[..|srcs| - 1], srcs[|srcs| - 1];
      assert last in srcs && srcs == init + [last];
      ShareElements(init, funcs, order, path);
    }
  }

  lemma {:induction false} ShareDistinct(srcs: seq<string>, funcs: map<string, seq<string>>, order: seq<string>, path: string)
    requires (forall s :: s in srcs ==> s in funcs) && Distinct(srcs) && EachOnce(Dict(srcs, funcs))
    ensures Distinct(Share(srcs, funcs, order, path))
  {
    if srcs != [] {
      var init, last := srcs[..|srcs| - 1], srcs[|srcs| - 1];
      assert last in srcs && srcs == init + [last];
      ShareDistinct(init, funcs, order, path);
      ShareElements(init, funcs, order, path);
      var a, b := Share(init, funcs, order, path), funcs[last];
      forall i, j | 0 <= i < |a| && 0 <= j < |b| ensures a[i] != b[j] {
        assert a[i] in a && b[j] in b;
        var s :| s in init && a[i] in funcs[s];
        assert last !in init;
      }
    }
  }

  /** No function is given to two paths, and none twice to one. */
  lemma SharesAreDisjoint(paths: seq<string>, table: Dict<seq<string>>, shares: Dict<seq<string>>)
    requires table.Valid() && EachOnce(table) && shares.Valid() && shares.keys == SortReverse(paths)
    requires HaveShares(paths, shares.values, table, SortReverse(paths))
    ensures EachOnce(shares)
  {
    var order := SortReverse(paths);
    SortReverseElements(paths);
    forall p | p in shares.values
      ensures Distinct(shares.values[p])
      ensures forall f :: f in shares.values[p] ==> exists s :: s in table.keys && First(order, s) == Some(p) && f in table.values[s]
    {
      assert p in shares.keys;
      ShareDistinct(table.keys, table.values, order, p);
      ShareElements(table.keys, table.values, order, p);
    }
    forall p, q, f | p in shares.values && q in shares.values && f in shares.values[p] && f in shares.values[q]
      ensures p == q
    {
      var s :| s in table.keys && First(order, s) == Some(p) && f in table.values[s];
      var t :| t in table.keys && First(order, t) == Some(q) && f in table.values[t];
      assert s == t;
    }
  }

  /** A function is given to exactly the path that its source chooses. */
  lemma FunctionFollowsItsSource(funcs: seq<string>, srcOf: map<string, string>, table: Dict<seq<string>>,
                                 paths: seq<string>, f: string, p: string)
    requires table.Valid() && Groups(funcs, srcOf, table.values) && f in funcs
    ensures f in Share(table.keys, table.values, SortReverse(paths), p) <==> First(SortReverse(paths), srcOf[f]) == Some(p)
  {
    var order := SortReverse(paths);
    ShareElements(table.keys, table.values, order, p);
    FuncsOfElements(funcs, srcOf, srcOf[f]);
    assert srcOf[f] in table.keys && f in table.values[srcOf[f]];
    if f in Share(table.keys, table.values, order, p) {
      var s :| s in table.keys && First(order, s) == Some(p) && f in table.values[s];
      FuncsOfElements(funcs, srcOf, s);
    }
  }

  /** When inner paths sort later: a function is given to some path exactly when a listed path covers
      its source, and the path it is given to is a deepest one. */
  lemma FunctionGoesToDeepestPath(funcs: seq<string>, srcOf: map<string, string>, table: Dict<seq<string>>,
                                  paths: seq<string>, f: string)
    requires table.Valid() && Groups(funcs, srcOf, table.values) && f in funcs
    requires InnerSortsLater(paths)
    ensures (exists p :: p in paths && Covers(p, srcOf[f])) <==>
      exists p :: p in paths && f in Share(table.keys, table.values, SortReverse(paths), p)
    ensures forall p :: p in paths && f in Share(table.keys, table.values, SortReverse(paths), p) ==> IsDeepest(paths, srcOf[f], p)
  {
    RightWhenInnerSortsLater(paths, srcOf[f]);
    forall p ensures f in Share(table.keys, table.values, SortReverse(paths), p) <==> First(SortReverse(paths), srcOf[f]) == Some(p) {
      FunctionFollowsItsSource(funcs, srcOf, table, paths, f, p);
    }
    var first := First(SortReverse(paths), srcOf[f]);
    if first.Some? {
      assert f in Share(table.keys, table.values, SortReverse(paths), first.value);
    }
  }

  // ----- the manifest (lines 325-347)

  /** Every module with the functions of its paths, path by path. */
  function Manifest(modules: Dict<seq<string>>, pathToFuncs: map<string, seq<string>>): map<string, seq<string>>
    requires forall m, p :: m in modules.values && p in modules.values[m] ==> p in pathToFuncs
  {
    map m | m in modules.values :: Concat(modules.values[m], pathToFuncs)
  }

  datatype Section = Section(name: string, funcs: seq<string>)

  method WriteManifest(modules: Dict<seq<string>>, pathToFuncs: map<string, seq<string>>) returns (sections: seq<Section>)
    requires modules.Valid()
    requires forall m, p :: m in modules.values && p in modules.values[m] ==> p in pathToFuncs
    ensures |sections| == |modules.keys|
    ensures forall i :: 0 <= i < |sections| ==>
      sections[i] == Section(modules.keys[i], Manifest(modules, pathToFuncs)[modules.keys[i]])
  {
    sections := [];
    ghost var manifest := Manifest(modules, pathToFuncs);
    var i := 0;
    while i < |modules.keys|
      invariant 0 <= i <= |modules.keys| && |sections| == i
      invariant forall k :: 0 <= k < i ==> sections[k] == Section(modules.keys[k], manifest[modules.keys[k]])
    {
      var paths := modules.values[modules.keys[i]];
      var funcs: seq<string> := [];
      var j := 0;
      while j < |paths|
        invariant 0 <= j <= |paths|
        invariant funcs == Concat(paths[..j], pathToFuncs)
      {
        ConcatOneMore(paths, j, pathToFuncs);
        funcs := funcs + pathToFuncs[paths[j]];
        j := j + 1;
      }
      TakeAll(paths);
      sections := sections + [Section(modules.keys[i], funcs)];
      i := i + 1;
    }
  }

  /** No function name appears twice in the manifest, neither in one module nor in two. */
  lemma ManifestNamesEachFunctionOnce(modules: Dict<seq<string>>, pathToFuncs: Dict<seq<string>>)
    requires EachOnce(modules) && EachOnce(pathToFuncs)
    requires forall m, p :: m in modules.values && p in modules.values[m] ==> p in pathToFuncs.values
    ensures EachOnce(Dict(modules.keys, Manifest(modules, pathToFuncs.values)))
  {
    var manifest := Manifest(modules, pathToFuncs.values);
    forall m | m in modules.values
      ensures Distinct(manifest[m])
      ensures forall f :: f in manifest[m] ==> exists p :: p in modules.values[m] && f in pathToFuncs.values[p]
    {
      ConcatDistinct(modules.values[m], pathToFuncs.values);
      ConcatElements(modules.values[m], pathToFuncs.values);
    }
    forall m, n, f | m in manifest && n in manifest && f in manifest[m] && f in manifest[n] ensures m == n {
      var p :| p in modules.values[m] && f in pathToFuncs.values[p];
      var q :| q in modules.values[n] && f in pathToFuncs.values[q];
      assert p == q;
    }
  }
}
