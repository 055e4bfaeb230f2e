/** empath-split as a whole (tools/empath-split.py): from the paths file and the functions of a module to
    the manifest. */
module EmpathProgram {
  import opened Options
  import opened Lists
  import opened OrderedDicts
  import opened SourceMapText
  import opened WasmSourceMaps
  import opened EmpathScan
  import opened PathOrder
  import opened PathsFile
  import opened EmpathSplit

  datatype Func = Func(offset: int, size: nat)

  // ----- the source of every function (lines 197-228)

  /** utils.normalize_path */
  function Normalized(src: string): string {
    Collapse(Slashes(src))
  }

  /** A normalized source has no backslashes, and backslashes count as slashes; one without backslashes and
      double slashes is normal already. */
  lemma SourcesAreNormalized(src: string)
    ensures '\\' !in Normalized(src) && Normalized(Slashes(src)) == Normalized(src)
    ensures '\\' !in src && (forall i :: 0 <= i < |src| - 1 ==> !(src[i] == '/' && src[i + 1] == '/')) ==> Normalized(src) == src
  {
    SlashesTwice(src);
    CollapseKeeps(Slashes(src), '\\');
    if '\\' !in src {
      assert Slashes(src) == src;
      if forall i :: 0 <= i < |src| - 1 ==> !(src[i] == '/' && src[i + 1] == '/') {
        CollapseKeepsSingle(src);
      }
    }
  }

  lemma {:induction false} CollapseKeepsSingle(s: string)
    requires forall i :: 0 <= i < |s| - 1 ==> !(s[i] == '/' && s[i + 1] == '/')
    ensures Collapse(s) == s
  {
    if |s| >= 2 {
      assert forall i :: 0 <= i < |s[1..]| - 1 ==> s[1..][i] == s[i + 1];
      CollapseKeepsSingle(s[1..]);
    }
  }

  /** The source that counts for function `i`: that of its body, or, when it has fewer than two bytes, the
      one that counted for the function before. */
  ghost function SourceUsed(sm: WasmSourceMap, funcs: seq<Func>, i: nat): Option<string>
    requires i < |funcs|
    reads sm
  {
    if funcs[i].size >= 2 then BodySource(sm.entries, sm.sources, sm.funcs, funcs[i].offset, funcs[i].offset + funcs[i].size - 1)
    else if i == 0 then None
    else SourceUsed(sm, funcs, i - 1)
  }

  /** Function names with their sources, after the first `n` functions. */
  ghost function Sourced(sm: WasmSourceMap, names: seq<string>, funcs: seq<Func>, n: nat): Dict<string>
    requires n <= |names| == |funcs|
    reads sm
  {
    if n == 0 then Empty()
    else
      var d := Sourced(sm, names, funcs, n - 1);
      match SourceUsed(sm, funcs, n - 1)
      case Some(src) => Set(d, names[n - 1], Normalized(src))
      case None => d
  }

  /** Function `i` is the last of its name that has a source. */
  ghost predicate Decides(sm: WasmSourceMap, names: seq<string>, funcs: seq<Func>, n: nat, i: nat)
    requires i < n <= |names| == |funcs|
    reads sm
  {
    && SourceUsed(sm, funcs, i).Some?
    && forall j :: i < j < n && names[j] == names[i] ==> SourceUsed(sm, funcs, j).None?
  }

  lemma {:induction false} SourcedValid(sm: WasmSourceMap, names: seq<string>, funcs: seq<Func>, n: nat)
    requires n <= |names| == |funcs|
    ensures Sourced(sm, names, funcs, n).Valid()
  {
    if n > 0 {
      SourcedValid(sm, names, funcs, n - 1);
      var d, src := Sourced(sm, names, funcs, n - 1), SourceUsed(sm, funcs, n - 1);
      if src.Some? {
        SetKeepsValid(d, names[n - 1], Normalized(src.value));
      }
    }
  }

  /** A name is mapped to the source of the last function of that name that has one; so, with names that
      differ, every function to its own. */
  lemma {:induction false} SourcedByLast(sm: WasmSourceMap, names: seq<string>, funcs: seq<Func>, n: nat, i: nat)
    requires i < n <= |names| == |funcs| && Decides(sm, names, funcs, n, i)
    ensures names[i] in Sourced(sm, names, funcs, n).values
    ensures Sourced(sm, names, funcs, n).values[names[i]] == Normalized(SourceUsed(sm, funcs, i).value)
  {
    if i < n - 1 {
      SourcedByLast(sm, names, funcs, n - 1, i);
    }
  }

  /** And only names of functions with a source are mapped. */
  lemma {:induction false} SourcedOnly(sm: WasmSourceMap, names: seq<string>, funcs: seq<Func>, n: nat, f: string)
    returns (i: nat)
    requires n <= |names| == |funcs| && f in Sourced(sm, names, funcs, n).values
    ensures i < n && names[i] == f && Decides(sm, names, funcs, n, i)
  {
    if SourceUsed(sm, funcs, n - 1).Some? && names[n - 1] == f {
      i := n - 1;
    } else {
      i := SourcedOnly(sm, names, funcs, n - 1, f);
    }
  }

  /** The loop over the functions. None is the exception for a variable that was never set: the first
      function has fewer than two bytes. */
  method FindSources(sm: WasmSourceMap, names: seq<string>, funcs: seq<Func>) returns (r: Option<Dict<string>>)
    requires |names| == |funcs| && sm.Valid() && Closed(sm.entries, sm.sources, sm.funcs)
    requires forall i :: 0 <= i < |funcs| ==> funcs[i].offset > 0
    ensures r.None? <==> funcs != [] && funcs[0].size < 2
    ensures r.Some? ==> r.value == Sourced(sm, names, funcs, |funcs|)
  {
    var d := Empty();
    var loc: Option<Answer> := None;
    var i := 0;
    while i < |funcs|
      invariant 0 <= i <= |funcs|
      invariant d == Sourced(sm, names, funcs, i)
      invariant i == 0 ==> loc.None?
      invariant i > 0 ==> funcs[0].size >= 2 && loc.Some? && SourceOf(loc.value) == SourceUsed(sm, funcs, i - 1)
    {
      loc := FunctionSource(sm, funcs[i].offset, funcs[i].size, loc);
      if loc.None? {
        return None;
      }
      var src := SourceOf(loc.value);
      if src.Some? {
        d := Set(d, names[i], Normalized(src.value));
      }
      i := i + 1;
    }
    r := Some(d);
  }

  // ----- the program (lines 303-347)

  datatype Outcome = Rejected(reason: Reason) | Unbound | Written(sections: seq<Section>)

  /** All listed paths, module by module. */
  function AllPaths(modules: Dict<seq<string>>): seq<string>
    requires modules.Valid()
  {
    Concat(modules.keys, modules.values)
  }

  method ListPaths(modules: Dict<seq<string>>) returns (paths: seq<string>)
    requires modules.Valid()
    ensures paths == AllPaths(modules)
  {
    paths := [];
    var i := 0;
    while i < |modules.keys|
      invariant 0 <= i <= |modules.keys|
      invariant paths == Concat(modules.keys[..i], modules.values)
    {
      TakeOneMore(modules.keys, i);
      paths := paths + modules.values[modules.keys[i]];
      i := i + 1;
    }
    TakeAll(modules.keys);
  }

  /** The sections are those of the modules, and a function is in one exactly when one of the module's paths
      is the one that the function's source chooses among all listed paths. */
  ghost predicate Sections(sections: seq<Section>, modules: Dict<seq<string>>, srcOf: map<string, string>)
    requires modules.Valid()
  {
    && |sections| == |modules.keys|
    && (forall i :: 0 <= i < |sections| ==> sections[i].name == modules.keys[i])
    && (forall i, f :: 0 <= i < |sections| ==>
          (f in sections[i].funcs <==> InModule(modules.values[modules.keys[i]], modules, srcOf, f)))
  }

  ghost predicate InModule(paths: seq<string>, modules: Dict<seq<string>>, srcOf: map<string, string>, f: string)
    requires modules.Valid()
  {
    f in srcOf && exists p :: p in paths && First(SortReverse(AllPaths(modules)), srcOf[f]) == Some(p)
  }

  /** No function name twice, neither in one section nor in two. */
  ghost predicate EachNameOnce(sections: seq<Section>) {
    && (forall i :: 0 <= i < |sections| ==> Distinct(sections[i].funcs))
    && (forall i, j, f :: 0 <= i < |sections| && 0 <= j < |sections| && f in sections[i].funcs && f in sections[j].funcs ==> i == j)
  }

  /** What an accepted file lists: every path once. */
  lemma AllPathsAreDistinct(modules: Dict<seq<string>>)
    requires modules.Valid() && EachOnce(modules)
    ensures Distinct(AllPaths(modules))
    ensures forall p :: p in AllPaths(modules) <==> exists m :: m in modules.keys && p in modules.values[m]
  {
    ConcatDistinct(modules.keys, modules.values);
    ConcatElements(modules.keys, modules.values);
  }

  /** From the sources to the manifest. */
  method AssignAndWrite(modules: Dict<seq<string>>, srcs: Dict<string>) returns (sections: seq<Section>)
    requires modules.Valid() && EachOnce(modules) && srcs.Valid()
    ensures Sections(sections, modules, srcs.values) && EachNameOnce(sections)
  {
    var paths := ListPaths(modules);
    AllPathsAreDistinct(modules);
    var table := GroupBySource(srcs);
    GroupsAreDisjoint(srcs.keys, srcs.values, table);
    var shares := AssignFunctions(paths, table);
    SharesAreDisjoint(paths, table, shares);
    SharesCover(modules, shares);
    sections := WriteManifest(modules, shares.values);
    ManifestNamesEachFunctionOnce(modules, shares);
    ManifestIsSections(sections, modules, srcs, table, shares);
  }

  lemma SharesCover(modules: Dict<seq<string>>, shares: Dict<seq<string>>)
    requires modules.Valid() && EachOnce(modules) && shares.Valid() && shares.keys == SortReverse(AllPaths(modules))
    ensures forall m, p :: m in modules.values && p in modules.values[m] ==> p in shares.values
  {
    SortReverseElements(AllPaths(modules));
    AllPathsAreDistinct(modules);
    forall m, p | m in modules.values && p in modules.values[m] ensures p in shares.values {
      assert m in modules.keys;
    }
  }

  lemma ManifestIsSections(sections: seq<Section>, modules: Dict<seq<string>>, srcs: Dict<string>,
                           table: Dict<seq<string>>, shares: Dict<seq<string>>)
    requires modules.Valid() && EachOnce(modules) && srcs.Valid() && table.Valid() && shares.Valid()
    requires Groups(srcs.keys, srcs.values, table.values)
    requires HaveShares(AllPaths(modules), shares.values, table, SortReverse(AllPaths(modules)))
    requires forall m, p :: m in modules.values && p in modules.values[m] ==> p in shares.values
    requires |sections| == |modules.keys|
    requires forall i :: 0 <= i < |sections| ==>
      sections[i] == Section(modules.keys[i], Manifest(modules, shares.values)[modules.keys[i]])
    requires EachOnce(Dict(modules.keys, Manifest(modules, shares.values)))
    ensures Sections(sections, modules, srcs.values) && EachNameOnce(sections)
  {
    forall i, f | 0 <= i < |sections|
      ensures f in sections[i].funcs <==> InModule(modules.values[modules.keys[i]], modules, srcs.values, f)
    {
      InShareOfModule(modules, modules.keys[i], srcs, table, shares, f);
      InManifest(modules, modules.keys[i], shares.values, f);
    }
    NamesOnceInSections(sections, modules, Manifest(modules, shares.values));
  }

  lemma InManifest(modules: Dict<seq<string>>, m: string, shares: map<string, seq<string>>, f: string)
    requires m in modules.values && forall m, p :: m in modules.values && p in modules.values[m] ==> p in shares
    ensures f in Manifest(modules, shares)[m] <==> exists p :: p in modules.values[m] && f in shares[p]
  {
    ConcatElements(modules.values[m], shares);
  }

  lemma NamesOnceInSections(sections: seq<Section>, modules: Dict<seq<string>>, manifest: map<string, seq<string>>)
    requires modules.Valid() && (forall m :: m in modules.keys ==> m in manifest) && EachOnce(Dict(modules.keys, manifest))
    requires |sections| == |modules.keys|
    requires forall i :: 0 <= i < |sections| ==> sections[i] == Section(modules.keys[i], manifest[modules.keys[i]])
    ensures EachNameOnce(sections)
  {
    forall i | 0 <= i < |sections| ensures Distinct(sections[i].funcs) {
      assert modules.keys[i] in manifest;
    }
    forall i, j, f | 0 <= i < |sections| && 0 <= j < |sections| && f in sections[i].funcs && f in sections[j].funcs
      ensures i == j
    {
      assert modules.keys[i] in manifest && modules.keys[j] in manifest;
      assert modules.keys[i] == modules.keys[j];
    }
  }

  lemma InShareOfModule(modules: Dict<seq<string>>, m: string, srcs: Dict<string>,
                        table: Dict<seq<string>>, shares: Dict<seq<string>>, f: string)
    requires modules.Valid() && EachOnce(modules) && srcs.Valid() && table.Valid() && m in modules.keys
    requires Groups(srcs.keys, srcs.values, table.values)
    requires HaveShares(AllPaths(modules), shares.values, table, SortReverse(AllPaths(modules)))
    ensures forall p :: p in modules.values[m] ==> p in shares.values
    ensures (exists p :: p in modules.values[m] && f in shares.values[p]) <==>
      InModule(modules.values[m], modules, srcs.values, f)
  {
    var all := AllPaths(modules);
    AllPathsAreDistinct(modules);
    forall p | p in modules.values[m]
      ensures p in shares.values
      ensures f in shares.values[p] <==> f in srcs.values && First(SortReverse(all), srcs.values[f]) == Some(p)
    {
      assert p in all;
      if f in srcs.keys {
        FunctionFollowsItsSource(srcs.keys, srcs.values, table, all, f, p);
      } else {
        NotGrouped(srcs, table, SortReverse(all), p, f);
      }
    }
  }

  lemma NotGrouped(srcs: Dict<string>, table: Dict<seq<string>>, order: seq<string>, p: string, f: string)
    requires table.Valid() && Groups(srcs.keys, srcs.values, table.values) && f !in srcs.keys
    ensures f !in Share(table.keys, table.values, order, p)
  {
    ShareElements(table.keys, table.values, order, p);
    forall s | s in table.keys ensures f !in table.values[s] {
      FuncsOfElements(srcs.keys, srcs.values, s);
    }
  }

  /** The whole program: a bad paths file is rejected, a first function of fewer than two bytes makes it
      raise, and otherwise the manifest names every function at most once, under the module of the path
      that its source chooses. */
  method Split(lines: seq<string>, sm: WasmSourceMap, names: seq<string>, funcs: seq<Func>) returns (o: Outcome)
    requires |names| == |funcs| && sm.Valid() && Closed(sm.entries, sm.sources, sm.funcs)
    requires forall i :: 0 <= i < |funcs| ==> funcs[i].offset > 0
    ensures match o
      case Rejected(reason) => Parse(lines) == Error(reason)
      case Unbound => Parse(lines).Ok? && funcs != [] && funcs[0].size < 2
      case Written(sections) =>
        && Parse(lines).Ok? && (funcs == [] || funcs[0].size >= 2)
        && Parse(lines).modules.Valid()
        && Sections(sections, Parse(lines).modules, Sourced(sm, names, funcs, |funcs|).values)
        && EachNameOnce(sections)
  {
    var r := ParsePathsFile(lines);
    AcceptedPathsAreUnique(lines);
    if r.Error? {
      return Rejected(r.reason);
    }
    var srcs := FindSources(sm, names, funcs);
    if srcs.None? {
      return Unbound;
    }
    SourcedValid(sm, names, funcs, |funcs|);
    var sections := AssignAndWrite(r.modules, srcs.value);
    o := Written(sections);
  }

  /** In a manifest, when inner paths sort later: a function with a source is named exactly when some listed
      path is around that source, and then by the module that lists the deepest such path. */
  lemma ManifestFollowsDeepestPath(sections: seq<Section>, modules: Dict<seq<string>>, srcOf: map<string, string>, f: string)
    requires modules.Valid() && EachOnce(modules) && Sections(sections, modules, srcOf) && f in srcOf
    requires InnerSortsLater(AllPaths(modules))
    ensures (exists i :: 0 <= i < |sections| && f in sections[i].funcs) <==>
      exists p :: p in AllPaths(modules) && Covers(p, srcOf[f])
    ensures forall i :: 0 <= i < |sections| && f in sections[i].funcs ==>
      exists p :: p in modules.values[sections[i].name] && IsDeepest(AllPaths(modules), srcOf[f], p)
  {
    var all := AllPaths(modules);
    AllPathsAreDistinct(modules);
    RightWhenInnerSortsLater(all, srcOf[f]);
    var first := First(SortReverse(all), srcOf[f]);
    if first.Some? {
      var m :| m in modules.keys && first.value in modules.values[m];
      var i :| 0 <= i < |modules.keys| && modules.keys[i] == m;
      assert InModule(modules.values[modules.keys[i]], modules, srcOf, f);
      assert f in sections[i].funcs;
    }
  }
}
