/** empath-split's paths file (tools/empath-split.py, lines 255-300): a module name with a colon, its
    paths on the lines below, and an empty line before the next module. */
module PathsFile {
  import opened Options
  import opened Lists
  import opened OrderedDicts

  /** What str.strip removes: the white space of Unicode. */
  predicate Blank(c: char) {
    var n := c as int;
    || 0x09 <= n <= 0x0d || 0x1c <= n <= 0x20 || n == 0x85 || n == 0xa0 || n == 0x1680
    || 0x2000 <= n <= 0x200a || n == 0x2028 || n == 0x2029 || n == 0x202f || n == 0x205f || n == 0x3000
  }

  function StripLeft(s: string): string {
    if s != [] && Blank(s[0]) then StripLeft(s[1..]) else s
  }

  function StripRight(s: string): string {
    if s != [] && Blank(s[|s| - 1]) then StripRight(s[..|s| - 1]) else s
  }

  function Strip(s: string): string {
    StripRight(StripLeft(s))
  }

  function Slashes(s: string): string {
    seq(|s|, i requires 0 <= i < |s| => if s[i] == '\\' then '/' else s[i])
  }

  /** str.replace('//', '/'), from left to right. */
  function Collapse(s: string): string {
    if |s| < 2 then s
    else if s[0] == '/' && s[1] == '/' then "/" + Collapse(s[2..])
    else [s[0]] + Collapse(s[1..])
  }

  function TrimSlashes(s: string): string {
    if s != [] && s[|s| - 1] == '/' then TrimSlashes(s[..|s| - 1]) else s
  }

  function NormalizePath(path: string): string {
    TrimSlashes(Collapse(Slashes(Strip(path))))
  }

  datatype Reason = NoColon | NoName | AlreadyAssigned | EmptyFile

  /** `owners` says which module each path seen so far was assigned to. */
  datatype State =
    | Reading(modules: Dict<seq<string>>, owners: map<string, string>, current: Option<string>, paths: seq<string>)
    | Failed(reason: Reason)

  datatype Result = Ok(modules: Dict<seq<string>>) | Error(reason: Reason)

  function Close(s: State): State
    requires s.Reading? && s.current.Some?
  {
    Reading(Set(s.modules, s.current.value, s.paths), s.owners, None, [])
  }

  function Step(s: State, line: string): State {
    var l := Strip(line);
    if s.Failed? then s
    else if l == "" then if s.current.Some? then Close(s) else s
    else if s.current.None? then
      if l[|l| - 1] != ':' then Failed(NoColon)
      else if |l| == 1 then Failed(NoName)
      else s.(current := Some(l[..|l| - 1]))
    else
      var path := NormalizePath(l);
      if path in s.owners then Failed(AlreadyAssigned)
      else s.(paths := s.paths + [path], owners := s.owners[path := s.current.value])
  }

  function Steps(s: State, lines: seq<string>): State
    decreases |lines|
  {
    if lines == [] then s else Steps(Step(s, lines[0]), lines[1..])
  }

  function Finish(s: State): Result {
    if s.Failed? then Error(s.reason)
    else
      var t := if s.current.Some? then Close(s) else s;
      if t.modules.keys == [] then Error(EmptyFile) else Ok(t.modules)
  }

  const BEGIN := Reading(Dict([], map[]), map[], None, [])

  function Parse(lines: seq<string>): Result {
    Finish(Steps(BEGIN, lines))
  }

  lemma {:induction false} FailedStays(s: State, lines: seq<string>)
    requires s.Failed?
    ensures Steps(s, lines) == s
    decreases |lines|
  {
    if lines != [] {
      FailedStays(s, lines[1..]);
    }
  }

  method ParsePathsFile(lines: seq<string>) returns (r: Result)
    ensures r == Parse(lines)
  {
    var modules := Dict([], map[]);
    var owners: map<string, string> := map[];
    var current: Option<string> := None;
    var paths: seq<string> := [];
    var i := 0;
    assert lines[0..] == lines;
    while i < |lines|
      invariant 0 <= i <= |lines|
      invariant Steps(Reading(modules, owners, current, paths), lines[i..]) == Steps(BEGIN, lines)
    {
      assert lines[i..][0] == lines[i] && lines[i..][1..] == lines[i + 1..];
      FailedStays(Failed(NoColon), lines[i + 1..]);
      FailedStays(Failed(NoName), lines[i + 1..]);
      FailedStays(Failed(AlreadyAssigned), lines[i + 1..]);
      var line := Strip(lines[i]);
      i := i + 1;
      if line == "" {
        if current.Some? {
          modules := Set(modules, current.value, paths);
          current, paths := None, [];
        }
      } else if current.None? {
        if line[|line| - 1] != ':' {
          return Error(NoColon);
        }
        if |line| == 1 {
          return Error(NoName);
        }
        current := Some(line[..|line| - 1]);
      } else {
        var path := NormalizePath(line);
        if path in owners {
          return Error(AlreadyAssigned);
        }
        paths := paths + [path];
        owners := owners[path := current.value];
      }
    }
    if current.Some? {
      modules := Set(modules, current.value, paths);
    }
    r := if modules.keys == [] then Error(EmptyFile) else Ok(modules);
  }

  /** Every path seen so far is owned, and was put into one place only. */
  ghost predicate Owned(s: State) {
    s.Reading? ==>
      && s.modules.Valid() && EachOnce(s.modules) && Distinct(s.paths)
      && (forall m, p :: m in s.modules.values && p in s.modules.values[m] ==> p in s.owners && p !in s.paths)
      && (forall p :: p in s.paths ==> p in s.owners)
      && (s.current.None? ==> s.paths == [])
  }

  lemma CloseKeepsOwned(s: State)
    requires s.Reading? && s.current.Some? && Owned(s)
    ensures Owned(Close(s))
  {
    SetKeepsValid(s.modules, s.current.value, s.paths);
  }

  lemma {:induction false} StepsKeepOwned(s: State, lines: seq<string>)
    requires Owned(s)
    ensures Owned(Steps(s, lines))
    decreases |lines|
  {
    if lines != [] {
      StepsKeepOwned(Step(s, lines[0]), lines[1..]);
    }
  }

  /** Whatever the file says, an accepted one assigns no path twice, within a module or across modules,
      and has at least one module. */
  lemma AcceptedPathsAreUnique(lines: seq<string>)
    ensures var r := Parse(lines); r.Ok? ==> r.modules.Valid() && EachOnce(r.modules) && r.modules.keys != []
  {
    StepsKeepOwned(BEGIN, lines);
    var s := Steps(BEGIN, lines);
    if s.Reading? && s.current.Some? {
      CloseKeepsOwned(s);
    }
  }

  // ----- modules listed twice

  datatype Block = Block(name: string, paths: seq<string>)

  /** The modules that the lines list, in order, a repeated name as often as it is there. */
  function BlocksFrom(current: Option<string>, paths: seq<string>, lines: seq<string>): seq<Block>
    decreases |lines|
  {
    if lines == [] then if current.Some? then [Block(current.value, paths)] else []
    else
      var l := Strip(lines[0]);
      if l == "" && current.Some? then [Block(current.value, paths)] + BlocksFrom(None, [], lines[1..])
      else if l == "" then BlocksFrom(None, [], lines[1..])
      else if current.None? then BlocksFrom(Some(l[..|l| - 1]), [], lines[1..])
      else BlocksFrom(current, paths + [NormalizePath(l)], lines[1..])
  }

  function Blocks(lines: seq<string>): seq<Block> {
    BlocksFrom(None, [], lines)
  }

  function SetAll(d: Dict<seq<string>>, blocks: seq<Block>): Dict<seq<string>>
    decreases |blocks|
  {
    if blocks == [] then d else SetAll(Set(d, blocks[0].name, blocks[0].paths), blocks[1..])
  }

  ghost predicate Between(s: State) {
    s.Reading? && (s.current.None? ==> s.paths == [])
  }

  lemma SetAllFirst(d: Dict<seq<string>>, b: Block, rest: seq<Block>)
    ensures SetAll(d, [b] + rest) == SetAll(Set(d, b.name, b.paths), rest)
  {
    assert ([b] + rest)[0] == b && ([b] + rest)[1..] == rest;
  }

  /** Reading is setting one module after the other. */
  lemma {:induction false} ParseSetsBlocks(s: State, lines: seq<string>)
    requires Between(s) && Steps(s, lines).Reading?
    ensures var t := Steps(s, lines);
      (if t.current.Some? then Close(t) else t).modules == SetAll(s.modules, BlocksFrom(s.current, s.paths, lines))
    decreases |lines|
  {
    if lines == [] {
      if s.current.Some? {
        SetAllFirst(s.modules, Block(s.current.value, s.paths), []);
      }
    } else {
      var t := Step(s, lines[0]);
      if t.Failed? {
        FailedStays(t, lines[1..]);
      }
      ParseSetsBlocks(t, lines[1..]);
      if Strip(lines[0]) == "" && s.current.Some? {
        SetAllFirst(s.modules, Block(s.current.value, s.paths), BlocksFrom(None, [], lines[1..]));
      }
    }
  }

  /** The last block of a name is the one that stays. */
  lemma {:induction false} LastBlockStays(d: Dict<seq<string>>, blocks: seq<Block>, i: nat)
    requires i < |blocks| && forall j :: i < j < |blocks| ==> blocks[j].name != blocks[i].name
    ensures blocks[i].name in SetAll(d, blocks).values
    ensures SetAll(d, blocks).values[blocks[i].name] == blocks[i].paths
    decreases |blocks|
  {
    var e, rest := Set(d, blocks[0].name, blocks[0].paths), blocks[1..];
    if i > 0 {
      assert rest[i - 1] == blocks[i];
      LastBlockStays(e, rest, i - 1);
    } else {
      forall b | b in rest ensures b.name != blocks[0].name {
        var j :| 0 <= j < |rest| && rest[j] == b;
        assert blocks[j + 1] == b;
      }
      OthersStay(e, rest, blocks[0].name);
    }
  }

  lemma {:induction false} OthersStay(d: Dict<seq<string>>, blocks: seq<Block>, m: string)
    requires m in d.values && forall b :: b in blocks ==> b.name != m
    ensures m in SetAll(d, blocks).values && SetAll(d, blocks).values[m] == d.values[m]
    decreases |blocks|
  {
    if blocks != [] {
      assert blocks[0] in blocks;
      assert forall b :: b in blocks[1..] ==> b in blocks;
      OthersStay(Set(d, blocks[0].name, blocks[0].paths), blocks[1..], m);
    }
  }

  /** Whatever is in the table comes from the last block of that name. */
  lemma {:induction false} TableFromBlocks(d: Dict<seq<string>>, blocks: seq<Block>, m: string) returns (i: nat)
    requires m in SetAll(d, blocks).values && m !in d.values
    ensures i < |blocks| && blocks[i].name == m && SetAll(d, blocks).values[m] == blocks[i].paths
    ensures forall j :: i < j < |blocks| ==> blocks[j].name != m
    decreases |blocks|
  {
    if k :| 0 <= k < |blocks| && blocks[k].name == m {
      i := LastOfName(blocks, m, k);
      LastBlockStays(d, blocks, i);
    } else {
      NothingNew(d, blocks, m);
    }
  }

  lemma {:induction false} NothingNew(d: Dict<seq<string>>, blocks: seq<Block>, m: string)
    requires m !in d.values && forall k :: 0 <= k < |blocks| ==> blocks[k].name != m
    ensures m !in SetAll(d, blocks).values
    decreases |blocks|
  {
    if blocks != [] {
      NothingNew(Set(d, blocks[0].name, blocks[0].paths), blocks[1..], m);
    }
  }

  lemma {:induction false} LastOfName(blocks: seq<Block>, m: string, k: nat) returns (i: nat)
    requires k < |blocks| && blocks[k].name == m
    ensures k <= i < |blocks| && blocks[i].name == m && forall j :: i < j < |blocks| ==> blocks[j].name != m
    decreases |blocks| - k
  {
    if l :| k < l < |blocks| && blocks[l].name == m {
      i := LastOfName(blocks, m, l);
    } else {
      i := k;
    }
  }

  /** A path that a later line lists has no owner yet. */
  lemma {:induction false} ListedOnce(s: State, lines: seq<string>)
    requires Between(s) && Steps(s, lines).Reading? && forall p :: p in s.paths ==> p in s.owners
    ensures var blocks := BlocksFrom(s.current, s.paths, lines);
      && (s.current.Some? ==> blocks != [])
      && OwnedFirst(blocks, s) && PathsApart(blocks)
    decreases |lines|
  {
    if lines != [] {
      var t := Step(s, lines[0]);
      if t.Failed? {
        FailedStays(t, lines[1..]);
      }
      ListedOnce(t, lines[1..]);
      var l := Strip(lines[0]);
      if l == "" && s.current.Some? {
        FirstApart(s, BlocksFrom(None, [], lines[1..]));
      } else if l != "" && s.current.Some? {
        OwnedBefore(BlocksFrom(s.current, s.paths, lines), s, NormalizePath(l));
      }
    }
  }

  /** Paths that have an owner already are those of the module being read. */
  ghost predicate OwnedFirst(blocks: seq<Block>, s: State)
    requires s.Reading?
  {
    forall i, p :: 0 <= i < |blocks| && p in blocks[i].paths && p in s.owners ==> i == 0 && s.current.Some? && p in s.paths
  }

  lemma OwnedBefore(blocks: seq<Block>, s: State, path: string)
    requires s.Reading? && s.current.Some? && path !in s.owners
    requires OwnedFirst(blocks, s.(paths := s.paths + [path], owners := s.owners[path := s.current.value]))
    ensures OwnedFirst(blocks, s)
  {
    forall i, p | 0 <= i < |blocks| && p in blocks[i].paths && p in s.owners ensures i == 0 && p in s.paths {
      assert p in s.owners[path := s.current.value] && p in s.paths + [path];
    }
  }

  ghost predicate PathsApart(blocks: seq<Block>) {
    forall i, j, p :: 0 <= i < |blocks| && 0 <= j < |blocks| && p in blocks[i].paths && p in blocks[j].paths ==> i == j
  }

  lemma FirstApart(s: State, rest: seq<Block>)
    requires s.Reading? && s.current.Some? && forall p :: p in s.paths ==> p in s.owners
    requires PathsApart(rest) && OwnedFirst(rest, Close(s))
    ensures PathsApart([Block(s.current.value, s.paths)] + rest)
    ensures OwnedFirst([Block(s.current.value, s.paths)] + rest, s)
  {
    var all := [Block(s.current.value, s.paths)] + rest;
    forall i, j, p | 0 <= i < |all| && 0 <= j < |all| && p in all[i].paths && p in all[j].paths ensures i == j {
      assert i > 0 ==> all[i] == rest[i - 1];
      assert j > 0 ==> all[j] == rest[j - 1];
    }
  }

  /** A module name listed twice loses the paths of the first list: a path of an accepted file is kept if
      and only if no later module has the same name. */
  lemma PathKeptExactlyWhen(lines: seq<string>, i: nat, p: string)
    requires Parse(lines).Ok? && i < |Blocks(lines)| && p in Blocks(lines)[i].paths
    ensures (exists m :: m in Parse(lines).modules.values && p in Parse(lines).modules.values[m]) <==>
      forall j :: i < j < |Blocks(lines)| ==> Blocks(lines)[j].name != Blocks(lines)[i].name
  {
    var blocks, d := Blocks(lines), BEGIN.modules;
    ParseSetsBlocks(BEGIN, lines);
    ListedOnce(BEGIN, lines);
    assert Parse(lines).modules == SetAll(d, blocks);
    if forall j :: i < j < |blocks| ==> blocks[j].name != blocks[i].name {
      LastBlockStays(d, blocks, i);
    }
    if m :| m in SetAll(d, blocks).values && p in SetAll(d, blocks).values[m] {
      var k := TableFromBlocks(d, blocks, m);
      assert k == i;
    }
  }

  // ----- writing such a file

  function Lines(keys: seq<string>, values: map<string, seq<string>>): seq<string>
    requires forall k :: k in keys ==> k in values
  {
    if keys == [] then []
    else
      assert keys[|keys| - 1] in keys;
      Lines(keys[..|keys| - 1], values) + [keys[|keys| - 1] + ":"] + values[keys[|keys| - 1]] + [""]
  }

  predicate PlainPath(p: string) {
    p != "" && Strip(p) == p && NormalizePath(p) == p
  }

  /** A name that survives stripping, and a path that is written the normal way. */
  predicate Writable(modules: Dict<seq<string>>) {
    && (forall m :: m in modules.values ==> m != "" && Strip(m + ":") == m + ":")
    && (forall m :: m in modules.values ==> forall i :: 0 <= i < |modules.values[m]| ==> PlainPath(modules.values[m][i]))
  }

  lemma {:induction false} StepsConcat(s: State, a: seq<string>, b: seq<string>)
    ensures Steps(s, a + b) == Steps(Steps(s, a), b)
    decreases |a|
  {
    if a == [] {
      assert a + b == b;
    } else {
      assert (a + b)[1..] == a[1..] + b;
      StepsConcat(Step(s, a[0]), a[1..], b);
    }
  }

  function Own(owners: map<string, string>, paths: seq<string>, m: string): map<string, string>
    decreases |paths|
  {
    if paths == [] then owners else Own(owners[paths[0] := m], paths[1..], m)
  }

  lemma {:induction false} OwnKeys(owners: map<string, string>, paths: seq<string>, m: string)
    ensures forall p :: p in Own(owners, paths, m) <==> p in owners || p in paths
    decreases |paths|
  {
    if paths != [] {
      OwnKeys(owners[paths[0] := m], paths[1..], m);
      assert paths == [paths[0]] + paths[1..];
    }
  }

  lemma HeadAndRest(paths: seq<string>, before: seq<string>)
    requires paths != []
    ensures paths[0] in paths && before + [paths[0]] + paths[1..] == before + paths
    ensures forall p :: p in paths[1..] ==> p in paths
    ensures Distinct(paths) ==> Distinct(paths[1..]) && paths[0] !in paths[1..]
  {
  }

  lemma {:induction false} ReadPaths(s: State, paths: seq<string>)
    requires s.Reading? && s.current.Some? && Distinct(paths)
    requires forall p :: p in paths ==> p !in s.owners && PlainPath(p)
    ensures Steps(s, paths) == s.(paths := s.paths + paths, owners := Own(s.owners, paths, s.current.value))
    decreases |paths|
  {
    if paths == [] {
      assert s.paths + paths == s.paths;
    } else {
      HeadAndRest(paths, s.paths);
      var t := Step(s, paths[0]);
      ReadPaths(t, paths[1..]);
    }
  }

  /** One module is read: its name, its paths, and the empty line behind them. */
  lemma ReadModule(s: State, m: string, paths: seq<string>)
    requires s.Reading? && s.current.None? && s.paths == []
    requires m != "" && Strip(m + ":") == m + ":" && Distinct(paths)
    requires forall p :: p in paths ==> p !in s.owners && PlainPath(p)
    ensures Steps(s, [m + ":"] + paths + [""]) == Reading(Set(s.modules, m, paths), Own(s.owners, paths, m), None, [])
  {
    var t := s.(current := Some(m));
    StepsConcat(s, [m + ":"] + paths, [""]);
    StepsConcat(s, [m + ":"], paths);
    StepsOne(s, m + ":");
    assert (m + ":")[..|m|] == m;
    ReadPaths(t, paths);
    assert [] + paths == paths;
    StepsOne(Steps(t, paths), "");
  }

  lemma StepsOne(s: State, line: string)
    ensures Steps(s, [line]) == Step(s, line)
  {
    assert Steps(s, [line]) == Steps(Step(s, line), []);
  }

  ghost predicate ReadSoFar(s: State, modules: Dict<seq<string>>, n: nat)
    requires modules.Valid() && n <= |modules.keys|
  {
    && s.Reading? && s.current.None? && s.paths == []
    && s.modules.keys == modules.keys[..n] && s.modules.Valid()
    && (forall i :: 0 <= i < n ==> s.modules.values[modules.keys[i]] == modules.values[modules.keys[i]])
    && (forall p :: p in s.owners ==> exists i :: 0 <= i < n && p in modules.values[modules.keys[i]])
  }

  lemma NotOwnedYet(s: State, modules: Dict<seq<string>>, n: nat, p: string)
    requires modules.Valid() && EachOnce(modules) && n < |modules.keys| && ReadSoFar(s, modules, n)
    requires p in modules.values[modules.keys[n]]
    ensures p !in s.owners
  {
    forall i | 0 <= i < n ensures p !in modules.values[modules.keys[i]] {
      assert modules.keys[i] != modules.keys[n];
    }
  }

  lemma ReadOneMore(s: State, modules: Dict<seq<string>>, n: nat)
    requires modules.Valid() && EachOnce(modules) && n < |modules.keys| && ReadSoFar(s, modules, n)
    ensures var m := modules.keys[n];
      ReadSoFar(Reading(Set(s.modules, m, modules.values[m]), Own(s.owners, modules.values[m], m), None, []), modules, n + 1)
  {
    var m := modules.keys[n];
    var owners := Own(s.owners, modules.values[m], m);
    SetKeepsValid(s.modules, m, modules.values[m]);
    OwnKeys(s.owners, modules.values[m], m);
    assert m !in s.modules.keys;
    assert modules.keys[..n + 1] == modules.keys[..n] + [m];
    forall p | p in owners ensures exists i :: 0 <= i < n + 1 && p in modules.values[modules.keys[i]] {
      if p in s.owners {
        var i :| 0 <= i < n && p in modules.values[modules.keys[i]];
        assert 0 <= i < n + 1;
      } else {
        assert p in modules.values[modules.keys[n]];
      }
    }
  }

  lemma LinesOneMore(modules: Dict<seq<string>>, n: nat)
    requires modules.Valid() && n < |modules.keys|
    ensures var m := modules.keys[n];
      Lines(modules.keys[..n + 1], modules.values) == Lines(modules.keys[..n], modules.values) + ([m + ":"] + modules.values[m] + [""])
  {
    assert modules.keys[..n + 1][..n] == modules.keys[..n];
  }

  lemma ReadNext(s: State, modules: Dict<seq<string>>, n: nat)
    requires modules.Valid() && EachOnce(modules) && Writable(modules) && n < |modules.keys| && ReadSoFar(s, modules, n)
    ensures var m := modules.keys[n]; ReadSoFar(Steps(s, [m + ":"] + modules.values[m] + [""]), modules, n + 1)
  {
    var m := modules.keys[n];
    assert m in modules.keys;
    var paths := modules.values[m];
    forall p | p in paths ensures p !in s.owners && PlainPath(p) {
      NotOwnedYet(s, modules, n, p);
    }
    ReadModule(s, m, paths);
    ReadOneMore(s, modules, n);
  }

  lemma {:induction false} ReadLines(modules: Dict<seq<string>>, n: nat)
    requires modules.Valid() && EachOnce(modules) && Writable(modules) && n <= |modules.keys|
    ensures ReadSoFar(Steps(BEGIN, Lines(modules.keys[..n], modules.values)), modules, n)
  {
    if n > 0 {
      var m := modules.keys[n - 1];
      ReadLines(modules, n - 1);
      LinesOneMore(modules, n - 1);
      StepsConcat(BEGIN, Lines(modules.keys[..n - 1], modules.values), [m + ":"] + modules.values[m] + [""]);
      ReadNext(Steps(BEGIN, Lines(modules.keys[..n - 1], modules.values)), modules, n - 1);
    }
  }

  /** A paths file written for some modules is read back as these modules, in this order. */
  lemma ParseUndoesLines(modules: Dict<seq<string>>)
    requires modules.Valid() && EachOnce(modules) && Writable(modules) && modules.keys != []
    ensures Parse(Lines(modules.keys, modules.values)) == Ok(modules)
  {
    ReadLines(modules, |modules.keys|);
    assert modules.keys[..|modules.keys|] == modules.keys;
    var s := Steps(BEGIN, Lines(modules.keys, modules.values));
    assert s.modules.values == modules.values by {
      forall k ensures (k in s.modules.values <==> k in modules.values) && (k in modules.values ==> s.modules.values[k] == modules.values[k]) {
        assert k in s.modules.keys <==> k in modules.keys;
      }
    }
  }

  // ----- what is rejected, told from the lines

  predicate IsEmpty(lines: seq<string>, i: nat)
    requires i < |lines|
  {
    Strip(lines[i]) == ""
  }

  /** A line that is not empty is a module's name at the start and behind an empty line, and a path
      otherwise. */
  predicate NamesModule(lines: seq<string>, i: nat)
    requires i < |lines|
  {
    !IsEmpty(lines, i) && (i == 0 || IsEmpty(lines, i - 1))
  }

  predicate ListsPath(lines: seq<string>, i: nat)
    requires i < |lines|
  {
    !IsEmpty(lines, i) && i > 0 && !IsEmpty(lines, i - 1)
  }

  function PathAt(lines: seq<string>, i: nat): string
    requires i < |lines|
  {
    NormalizePath(Strip(lines[i]))
  }

  /** What is wrong with line `i`: a name without a colon, or with nothing before it; or a path that an
      earlier line lists. */
  ghost function Fault(lines: seq<string>, i: nat): Option<Reason>
    requires i < |lines|
  {
    var l := Strip(lines[i]);
    if NamesModule(lines, i) then
      if l[|l| - 1] != ':' then Some(NoColon) else if l == ":" then Some(NoName) else None
    else if ListsPath(lines, i) && exists j: nat :: j < i && ListsPath(lines, j) && PathAt(lines, j) == PathAt(lines, i) then
      Some(AlreadyAssigned)
    else None
  }

  ghost predicate FirstFault(lines: seq<string>, i: nat) {
    i < |lines| && Fault(lines, i).Some? && forall j: nat :: j < i ==> Fault(lines, j).None?
  }

  ghost predicate Named(lines: seq<string>, k: nat) {
    exists j: nat :: j < k && j < |lines| && NamesModule(lines, j)
  }

  ghost predicate Listed(lines: seq<string>, k: nat, p: string) {
    exists j: nat :: j < k && j < |lines| && ListsPath(lines, j) && PathAt(lines, j) == p
  }

  lemma OneLineMore(lines: seq<string>, k: nat)
    requires k < |lines|
    ensures Named(lines, k + 1) <==> Named(lines, k) || NamesModule(lines, k)
    ensures forall p :: Listed(lines, k + 1, p) <==> Listed(lines, k, p) || (ListsPath(lines, k) && PathAt(lines, k) == p)
  {
    forall p ensures Listed(lines, k + 1, p) <==> Listed(lines, k, p) || (ListsPath(lines, k) && PathAt(lines, k) == p) {
      if j: nat :| j < k + 1 && j < |lines| && ListsPath(lines, j) && PathAt(lines, j) == p {
        assert j < k ==> Listed(lines, k, p);
      }
    }
  }

  /** The state after the `k` first lines, none of them at fault. */
  ghost predicate ReadWell(s: State, lines: seq<string>, k: nat)
    requires k <= |lines|
  {
    && s.Reading? && s.modules.Valid() && (s.current.Some? <==> k > 0 && !IsEmpty(lines, k - 1))
    && (forall p :: p in s.owners <==> Listed(lines, k, p))
    && (s.modules.keys != [] || s.current.Some? <==> Named(lines, k))
  }

  lemma StepReadsWell(s: State, lines: seq<string>, k: nat)
    requires k < |lines| && ReadWell(s, lines, k)
    ensures var t := Step(s, lines[k]);
      if Fault(lines, k).Some? then t == Failed(Fault(lines, k).value) else ReadWell(t, lines, k + 1)
  {
    var l := Strip(lines[k]);
    OneLineMore(lines, k);
    if l == "" {
      if s.current.Some? {
        SetKeepsValid(s.modules, s.current.value, s.paths);
      }
    } else if s.current.None? {
      assert |l| == 1 ==> l == [l[0]];
    } else {
      assert Fault(lines, k) == if Listed(lines, k, PathAt(lines, k)) then Some(AlreadyAssigned) else None;
    }
  }

  lemma {:induction false} ReadsWell(lines: seq<string>, k: nat)
    requires k <= |lines| && forall i: nat :: i < k ==> Fault(lines, i).None?
    ensures ReadWell(Steps(BEGIN, lines[..k]), lines, k)
  {
    if k == 0 {
      assert lines[..0] == [];
    } else {
      ReadsWell(lines, k - 1);
      StepsOneMore(lines, k - 1);
      StepReadsWell(Steps(BEGIN, lines[..k - 1]), lines, k - 1);
    }
  }

  lemma StepsOneMore(lines: seq<string>, k: nat)
    requires k < |lines|
    ensures Steps(BEGIN, lines[..k + 1]) == Step(Steps(BEGIN, lines[..k]), lines[k])
  {
    assert lines[..k + 1] == lines[..k] + [lines[k]];
    StepsConcat(BEGIN, lines[..k], [lines[k]]);
    StepsOne(Steps(BEGIN, lines[..k]), lines[k]);
  }

  lemma FaultIsReported(lines: seq<string>, i: nat)
    requires FirstFault(lines, i)
    ensures Steps(BEGIN, lines) == Failed(Fault(lines, i).value)
  {
    ReadsWell(lines, i);
    StepsOneMore(lines, i);
    StepReadsWell(Steps(BEGIN, lines[..i]), lines, i);
    assert lines == lines[..i + 1] + lines[i + 1..];
    StepsConcat(BEGIN, lines[..i + 1], lines[i + 1..]);
    FailedStays(Steps(BEGIN, lines[..i + 1]), lines[i + 1..]);
  }

  lemma {:induction false} FindFault(lines: seq<string>, k: nat) returns (i: nat)
    requires k <= |lines| && exists j: nat :: j < k && Fault(lines, j).Some?
    ensures i < k && FirstFault(lines, i)
  {
    if exists j: nat :: j < k - 1 && Fault(lines, j).Some? {
      i := FindFault(lines, k - 1);
    } else {
      i := k - 1;
    }
  }

  /** A file is accepted exactly when it names a module and no line is at fault; and it is rejected for what
      is wrong with its first line at fault, or for naming no module. */
  lemma AcceptedExactlyWhen(lines: seq<string>)
    ensures Parse(lines).Ok? <==> (forall i: nat :: i < |lines| ==> Fault(lines, i).None?) && Named(lines, |lines|)
    ensures forall i: nat :: FirstFault(lines, i) ==> Parse(lines) == Error(Fault(lines, i).value)
    ensures (forall i: nat :: i < |lines| ==> Fault(lines, i).None?) && Parse(lines).Error? ==> Parse(lines) == Error(EmptyFile)
  {
    forall i: nat | FirstFault(lines, i) ensures Parse(lines) == Error(Fault(lines, i).value) {
      FaultIsReported(lines, i);
    }
    if exists j: nat :: j < |lines| && Fault(lines, j).Some? {
      var i := FindFault(lines, |lines|);
      assert Parse(lines).Error?;
    } else {
      ReadsWell(lines, |lines|);
      assert lines[..|lines|] == lines;
      FinishesWell(Steps(BEGIN, lines), lines);
    }
  }

  lemma FinishesWell(s: State, lines: seq<string>)
    requires ReadWell(s, lines, |lines|)
    ensures Finish(s).Ok? <==> Named(lines, |lines|)
    ensures Finish(s).Error? ==> Finish(s) == Error(EmptyFile)
  {
    if s.current.Some? {
      SetKeepsValid(s.modules, s.current.value, s.paths);
    }
  }

  // ----- paths written differently

  lemma {:induction false} TrimBehind(c: char, s: string)
    ensures TrimSlashes([c] + s) == if TrimSlashes(s) == "" then TrimSlashes([c]) else [c] + TrimSlashes(s)
    decreases |s|
  {
    if s != [] {
      var t := [c] + s;
      assert t[|t| - 1] == s[|s| - 1] && t[..|t| - 1] == [c] + s[..|s| - 1];
      TrimBehind(c, s[..|s| - 1]);
    } else {
      assert [c] + s == [c];
    }
  }

  lemma {:induction false} CollapseWithSlash(s: string)
    ensures TrimSlashes(Collapse(s + "/")) == TrimSlashes(Collapse(s))
    decreases |s|
  {
    var t := s + "/";
    if s == "" {
      assert t == "/" && TrimSlashes("/") == TrimSlashes("/"[..0]);
    } else if |s| == 1 {
      assert t == [s[0], '/'] && t[1..] == "/" && t[2..] == "";
      TrimBehind(s[0], "/");
      assert TrimSlashes("/") == TrimSlashes("/"[..0]) == "";
    } else {
      assert t[0] == s[0] && t[1] == s[1] && t[1..] == s[1..] + "/" && t[2..] == s[2..] + "/";
      var both := s[0] == '/' && s[1] == '/';
      var n := if both then 2 else 1;
      CollapseWithSlash(s[n..]);
      TrimBehind(s[0], Collapse(s[n..]));
      TrimBehind(s[0], Collapse(s[n..] + "/"));
    }
  }

  /** A path with a slash behind it is the same path. */
  lemma TrailingSlashDoesNotMatter(p: string)
    requires Strip(p) == p
    ensures NormalizePath(p + "/") == NormalizePath(p)
  {
    StripKeepsSlash(p);
    assert Slashes(p + "/") == Slashes(p) + "/";
    CollapseWithSlash(Slashes(p));
  }

  lemma StripKeepsSlash(p: string)
    requires Strip(p) == p
    ensures Strip(p + "/") == p + "/"
  {
    StripLeftShortens(p);
    StripRightShortens(StripLeft(p));
    if p != "" {
      StripLeftShortens(p[1..]);
      assert !Blank(p[0]);
      assert (p + "/")[0] == p[0];
    }
  }

  lemma {:induction false} StripLeftShortens(s: string)
    ensures |StripLeft(s)| <= |s|
  {
    if s != [] {
      StripLeftShortens(s[1..]);
    }
  }

  lemma {:induction false} StripRightShortens(s: string)
    ensures |StripRight(s)| <= |s|
  {
    if s != [] {
      StripRightShortens(s[..|s| - 1]);
    }
  }

  /** Backslashes and slashes are the same, and a normal path ends in neither and contains no backslash. */
  lemma BackslashesDoNotMatter(p: string)
    ensures NormalizePath(Slashes(p)) == NormalizePath(p)
    ensures '\\' !in NormalizePath(p) && (NormalizePath(p) != "" ==> NormalizePath(p)[|NormalizePath(p)| - 1] != '/')
  {
    StripLeftSlashes(p);
    StripRightSlashes(StripLeft(p));
    SlashesTwice(Strip(p));
    CollapseKeeps(Slashes(Strip(p)), '\\');
    TrimKeeps(Collapse(Slashes(Strip(p))), '\\');
  }

  lemma SlashesTwice(s: string)
    ensures Slashes(Slashes(s)) == Slashes(s)
    ensures '\\' !in Slashes(s)
  {
  }

  lemma {:induction false} StripLeftSlashes(s: string)
    ensures StripLeft(Slashes(s)) == Slashes(StripLeft(s))
  {
    if s != [] {
      StripLeftSlashes(s[1..]);
      assert Slashes(s)[1..] == Slashes(s[1..]);
    }
  }

  lemma {:induction false} StripRightSlashes(s: string)
    ensures StripRight(Slashes(s)) == Slashes(StripRight(s))
  {
    if s != [] {
      StripRightSlashes(s[..|s| - 1]);
      assert Slashes(s)[..|s| - 1] == Slashes(s[..|s| - 1]);
    }
  }

  lemma {:induction false} CollapseKeeps(s: string, c: char)
    requires c !in s && c != '/'
    ensures c !in Collapse(s)
    decreases |s|
  {
    if |s| >= 2 {
      CollapseKeeps(s[1..], c);
      CollapseKeeps(s[2..], c);
    }
  }

  lemma {:induction false} TrimKeeps(s: string, c: char)
    requires c !in s
    ensures c !in TrimSlashes(s) && (TrimSlashes(s) != "" ==> TrimSlashes(s)[|TrimSlashes(s)| - 1] != '/')
  {
    if s != [] {
      TrimKeeps(s[..|s| - 1], c);
    }
  }
}
