/** The source-map index: filled from the mappings text, then searched by binary search
    (tools/emsymbolizer.py and src/source_map_support.js, class WasmSourceMap). */
module WasmSourceMaps {
  import opened Options
  import opened StableSorts
  import opened SourceMapText
  import Texts
  import Vlq

  // ----- what the index should say

  /** The greatest offset at or below `bound`, by looking at all of them. */
  function Greatest(offsets: seq<int>, bound: int): Option<int> {
    if offsets == [] then None
    else
      var last, rest := offsets[|offsets| - 1], Greatest(offsets[..|offsets| - 1], bound);
      if last > bound then rest
      else if rest.Some? && rest.value > last then rest
      else Some(last)
  }

  lemma {:induction false} GreatestIsGreatest(offsets: seq<int>, bound: int)
    ensures var g := Greatest(offsets, bound);
      && (g.Some? ==> g.value in offsets && g.value <= bound)
      && (forall i :: 0 <= i < |offsets| && offsets[i] <= bound ==> g.Some? && offsets[i] <= g.value)
  {
    if offsets != [] {
      var init, last := offsets[..|offsets| - 1], offsets[|offsets| - 1];
      GreatestIsGreatest(init, bound);
      assert offsets == init + [last];
    }
  }

  /** What a reader that sees the entries in turn remembers: the last one wins. */
  function MapOf(entries: seq<Entry>): map<int, Location> {
    if entries == [] then map[]
    else MapOf(entries[..|entries| - 1])[entries[|entries| - 1].offset := entries[|entries| - 1].loc]
  }

  function OffsetsOf(entries: seq<Entry>): seq<int> {
    seq(|entries|, i requires 0 <= i < |entries| => entries[i].offset)
  }

  function Itself(n: int): int {
    n
  }

  lemma {:induction false} MapOfKeys(entries: seq<Entry>)
    ensures forall o :: o in MapOf(entries) <==> o in OffsetsOf(entries)
  {
    if entries != [] {
      var init := entries[..|entries| - 1];
      MapOfKeys(init);
      assert OffsetsOf(entries) == OffsetsOf(init) + [entries[|entries| - 1].offset];
    }
  }

  datatype LocationInfo = LocationInfo(source: Option<string>, line: int, column: int, func: Option<string>)

  /** `Raised`: an index of the map lies outside its table. */
  datatype Answer = NotFound | Raised | Found(info: LocationInfo)

  /** A Python index may count from the end. */
  function PyIndex(table: seq<string>, i: int): Option<string> {
    if 0 <= i < |table| then Some(table[i])
    else if -|table| <= i < 0 then Some(table[|table| + i])
    else None
  }

  function OrZero(n: Option<int>): int {
    if n.Some? then n.value else 0
  }

  /** What lookup makes of a location. */
  function Describe(loc: Location, sources: seq<string>, funcs: seq<string>): Answer {
    if loc.source.Some? && PyIndex(sources, loc.source.value).None? then Raised
    else if loc.name.Some? && PyIndex(funcs, loc.name.value).None? then Raised
    else
      Found(LocationInfo(if loc.source.Some? then PyIndex(sources, loc.source.value) else None,
                         OrZero(loc.line), OrZero(loc.column),
                         if loc.name.Some? then PyIndex(funcs, loc.name.value) else None))
  }

  /** A lower bound of 0 counts as none. */
  function Bounded(nearest: Option<int>, lowerBound: Option<int>): Option<int> {
    if nearest.Some? && lowerBound.Some? && lowerBound.value != 0 && nearest.value < lowerBound.value then None
    else nearest
  }

  /** `r` is the greatest offset that is at most `bound` and, when `low` is a bound other than 0, at least
      `low`; none when there is no such offset. */
  ghost predicate Nearest(offsets: seq<int>, bound: int, low: Option<int>, r: Option<int>) {
    && (r.Some? <==> exists o :: o in offsets && Within(o, bound, low))
    && (r.Some? ==> r.value in offsets && Within(r.value, bound, low) && forall o :: o in offsets && o <= bound ==> o <= r.value)
  }

  predicate Within(o: int, bound: int, low: Option<int>) {
    o <= bound && (low == None || low == Some(0) || low.value <= o)
  }

  lemma BoundedIsNearest(offsets: seq<int>, bound: int, low: Option<int>)
    ensures Nearest(offsets, bound, low, Bounded(Greatest(offsets, bound), low))
  {
    var g, r := Greatest(offsets, bound), Bounded(Greatest(offsets, bound), low);
    GreatestIsGreatest(offsets, bound);
    forall o | o in offsets && Within(o, bound, low) ensures r.Some? {
      var i :| 0 <= i < |offsets| && offsets[i] == o;
      assert o <= g.value;
    }
    if r.Some? {
      assert Within(r.value, bound, low);
    }
  }

  /** The number of offsets at or below `bound`, by bisection. */
  method UpperIndex(offsets: seq<int>, bound: int) returns (lo: nat)
    requires Sorted(offsets, Itself)
    ensures lo <= |offsets|
    ensures forall i :: 0 <= i < lo ==> offsets[i] <= bound
    ensures forall i :: lo <= i < |offsets| ==> offsets[i] > bound
  {
    lo := 0;
    var hi := |offsets|;
    while lo < hi
      invariant 0 <= lo <= hi <= |offsets|
      invariant forall i :: 0 <= i < lo ==> offsets[i] <= bound
      invariant forall i :: hi <= i < |offsets| ==> offsets[i] > bound
    {
      var mid := (lo + hi) / 2;
      forall i | 0 <= i < |offsets| ensures (i <= mid ==> offsets[i] <= offsets[mid]) && (mid <= i ==> offsets[mid] <= offsets[i]) {
        assert i < mid ==> Itself(offsets[i]) <= Itself(offsets[mid]);
        assert mid < i ==> Itself(offsets[mid]) <= Itself(offsets[i]);
      }
      if offsets[mid] > bound {
        hi := mid;
      } else {
        lo := mid + 1;
      }
    }
  }

  /** The element before the upper index is the greatest one, wherever it stood before sorting. */
  lemma UpperIndexIsGreatest(offsets: seq<int>, bound: int, lo: nat)
    requires Sorted(offsets, Itself) && lo <= |offsets|
    requires forall i :: 0 <= i < lo ==> offsets[i] <= bound
    requires forall i :: lo <= i < |offsets| ==> offsets[i] > bound
    ensures Greatest(offsets, bound) == if lo == 0 then None else Some(offsets[lo - 1])
  {
    GreatestIsGreatest(offsets, bound);
    if lo > 0 {
      var g := Greatest(offsets, bound).value;
      assert offsets[lo - 1] <= g;
      var k :| 0 <= k < |offsets| && offsets[k] == g;
      assert k < lo;
      assert k < lo - 1 ==> Itself(offsets[k]) <= Itself(offsets[lo - 1]);
    }
  }

  lemma {:induction false} GreatestIgnoresOrder(a: seq<int>, b: seq<int>, bound: int)
    requires multiset(a) == multiset(b)
    ensures Greatest(a, bound) == Greatest(b, bound)
  {
    GreatestIsGreatest(a, bound);
    GreatestIsGreatest(b, bound);
    forall x ensures x in a <==> x in b {
      assert x in multiset(a) <==> x in multiset(b);
    }
    var g, h := Greatest(a, bound), Greatest(b, bound);
    if g.Some? {
      assert g.value in b;
    }
    if h.Some? {
      assert h.value in a;
    }
  }

  /** What has been read, with what is still to be read behind it. */
  function Behind(done: seq<Entry>, rest: Option<seq<Entry>>): (r: Option<seq<Entry>>)
    ensures done == [] ==> r == rest
  {
    assert rest.Some? ==> [] + rest.value == rest.value;
    if rest.Some? then Some(done + rest.value) else None
  }

  lemma EntryRead(done: seq<Entry>, r: Registers, parts: seq<string>, js: bool)
    requires parts != [] && !(js && parts[0] == [])
    ensures var data := Decoded(parts[0], js);
      if data.None? || data.value == [] then Entries(r, parts, js) == None
      else
        var r' := Advance(r, data.value, js);
        Behind(done, Entries(r, parts, js)) == Behind(done + [EntryOf(r', data.value, js)], Entries(r', parts[1..], js))
  {
    var data := Decoded(parts[0], js);
    if data.Some? && data.value != [] {
      var r' := Advance(r, data.value, js);
      var e, rest := EntryOf(r', data.value, js), Entries(r', parts[1..], js);
      if rest.Some? {
        assert done + ([e] + rest.value) == done + [e] + rest.value;
      }
    }
  }

  class WasmSourceMap {
    var sources: seq<string>
    var funcs: seq<string>
    var mappings: map<int, Location>
    var offsets: seq<int>
    ghost var entries: seq<Entry>

    /** The index holds the entries that were read, sorted, the last one for each offset. */
    ghost predicate Valid()
      reads this
    {
      mappings == MapOf(entries) && offsets == Sort(OffsetsOf(entries), Itself)
    }

    constructor (sources: seq<string>, funcs: seq<string>)
      ensures Valid() && entries == [] && this.sources == sources && this.funcs == funcs
    {
      this.sources := sources;
      this.funcs := funcs;
      mappings := map[];
      offsets := [];
      entries := [];
    }

    /** Reads the mappings text. `js` chooses the reader; false is returned where it raises. */
    method Parse(text: string, js: bool) returns (ok: bool)
      requires entries == [] && mappings == map[] && offsets == []
      modifies this`mappings, this`offsets, this`entries
      ensures ok <==> Read(text, js).Some?
      ensures ok ==> Valid() && entries == Read(text, js).value
      ensures ok <==> exists numbers :: DecodesTo(Looked(text, js), js, numbers)
      ensures ok ==> forall numbers :: DecodesTo(Looked(text, js), js, numbers) ==> Sums(entries, numbers, js)
    {
      ReadsSums(text, js);
      var parts := Texts.Split(text, ',');
      var r := SourceMapText.START;
      var i := 0;
      assert parts[0..] == parts;
      while i < |parts|
        invariant 0 <= i <= |parts|
        invariant mappings == MapOf(entries) && offsets == OffsetsOf(entries)
        invariant Read(text, js) == Behind(entries, Entries(r, parts[i..], js))
      {
        assert parts[i..][0] == parts[i] && parts[i..][1..] == parts[i + 1..];
        if !(js && parts[i] == []) {
          EntryRead(entries, r, parts[i..], js);
          var data := Decoded(parts[i], js);
          if data.None? || data.value == [] {
            return false;
          }
          r := Advance(r, data.value, js);
          var e := EntryOf(r, data.value, js);
          mappings := mappings[e.offset := e.loc];
          offsets := offsets + [e.offset];
          entries := entries + [e];
        }
        i := i + 1;
      }
      offsets := Sort(offsets, Itself);
      ok := true;
    }

    /** The greatest mapped offset at or below `offset`, unless it lies below a bound other than 0. */
    method FindOffset(offset: int, lowerBound: Option<int>) returns (r: Option<int>)
      requires Valid()
      ensures r == Bounded(Greatest(OffsetsOf(entries), offset), lowerBound)
      ensures Nearest(OffsetsOf(entries), offset, lowerBound, r)
      ensures r.Some? ==> r.value in mappings
    {
      BoundedIsNearest(OffsetsOf(entries), offset, lowerBound);
      SortSorts(OffsetsOf(entries), Itself);
      var lo := UpperIndex(offsets, offset);
      UpperIndexIsGreatest(offsets, offset, lo);
      GreatestIgnoresOrder(offsets, OffsetsOf(entries), offset);
      GreatestIsGreatest(OffsetsOf(entries), offset);
      MapOfKeys(entries);
      if lo == 0 {
        return None;
      }
      if lowerBound.Some? && lowerBound.value != 0 {
        if offsets[lo - 1] >= lowerBound.value {
          r := Some(offsets[lo - 1]);
        } else {
          r := None;
        }
      } else {
        r := Some(offsets[lo - 1]);
      }
    }

    /** A nearest offset of 0 is treated like none. */
    method Lookup(offset: int, lowerBound: Option<int>) returns (a: Answer)
      requires Valid()
      ensures a == LookedUp(entries, sources, funcs, offset, lowerBound)
    {
      var nearest := FindOffset(offset, lowerBound);
      if nearest.None? || nearest.value == 0 {
        return NotFound;
      }
      a := Describe(mappings[nearest.value], sources, funcs);
    }

    /** The search of the JavaScript class: no bound, None for `undefined`. */
    method NormalizeOffset(offset: int) returns (r: Option<int>)
      requires Valid()
      ensures r == Greatest(OffsetsOf(entries), offset)
      ensures r.Some? ==> r.value in mappings
    {
      SortSorts(OffsetsOf(entries), Itself);
      var lo := UpperIndex(offsets, offset);
      UpperIndexIsGreatest(offsets, offset, lo);
      GreatestIgnoresOrder(offsets, OffsetsOf(entries), offset);
      GreatestIsGreatest(OffsetsOf(entries), offset);
      MapOfKeys(entries);
      r := if lo == 0 then None else Some(offsets[lo - 1]);
    }

    method JsLookup(offset: int) returns (a: JsAnswer)
      requires Valid()
      ensures a == JsLookedUp(entries, sources, funcs, offset)
    {
      var normalized := NormalizeOffset(offset);
      if normalized.None? {
        return Null;
      }
      a := JsDescribe(mappings[normalized.value], sources, funcs);
    }
  }

  /** An absent field is JavaScript's `undefined`. */
  datatype JsAnswer = Null | Object(file: Option<string>, line: Option<int>, column: Option<int>, name: Option<string>)

  function JsIndex(table: seq<string>, i: Option<int>): Option<string> {
    if i.Some? && 0 <= i.value < |table| then Some(table[i.value]) else None
  }

  function JsDescribe(loc: Location, sources: seq<string>, names: seq<string>): JsAnswer {
    Object(JsIndex(sources, loc.source), loc.line, loc.column, JsIndex(names, loc.name))
  }

  // ----- lookups in terms of the entries

  ghost function LookedUp(entries: seq<Entry>, sources: seq<string>, funcs: seq<string>,
                          offset: int, lowerBound: Option<int>): Answer
  {
    var nearest := Bounded(Greatest(OffsetsOf(entries), offset), lowerBound);
    if nearest.None? || nearest.value == 0 || nearest.value !in MapOf(entries) then NotFound
    else Describe(MapOf(entries)[nearest.value], sources, funcs)
  }

  ghost function JsLookedUp(entries: seq<Entry>, sources: seq<string>, names: seq<string>, offset: int): JsAnswer {
    var nearest := Greatest(OffsetsOf(entries), offset);
    if nearest.None? || nearest.value !in MapOf(entries) then Null
    else JsDescribe(MapOf(entries)[nearest.value], sources, names)
  }

  /** Every index of the map lies inside its table. */
  ghost predicate Closed(entries: seq<Entry>, sources: seq<string>, names: seq<string>) {
    forall i :: 0 <= i < |entries| ==>
      && (entries[i].loc.source.Some? ==> 0 <= entries[i].loc.source.value < |sources|)
      && (entries[i].loc.name.Some? ==> 0 <= entries[i].loc.name.value < |names|)
  }

  lemma {:induction false} MapOfEntry(entries: seq<Entry>, o: int)
    requires o in MapOf(entries)
    ensures exists i :: 0 <= i < |entries| && entries[i] == Entry(o, MapOf(entries)[o])
  {
    var init, last := entries[..|entries| - 1], entries[|entries| - 1];
    if last.offset == o {
      assert entries[|entries| - 1] == Entry(o, MapOf(entries)[o]);
    } else {
      MapOfEntry(init, o);
      var i :| 0 <= i < |init| && init[i] == Entry(o, MapOf(init)[o]);
      assert entries[i] == init[i];
    }
  }

  /** On a map whose indexes are in range the two programs answer alike, with one exception: code at
      a mapped offset of 0 has a location in JavaScript and none in Python. */
  lemma LookupsAgree(entries: seq<Entry>, sources: seq<string>, names: seq<string>, offset: int)
    requires Closed(entries, sources, names)
    ensures var py, js := LookedUp(entries, sources, names, offset, None), JsLookedUp(entries, sources, names, offset);
      && (py.NotFound? <==> js.Null? || Greatest(OffsetsOf(entries), offset) == Some(0))
      && (py.Found? ==>
            && js.Object? && js.file == py.info.source && js.name == py.info.func
            && OrZero(js.line) == py.info.line && OrZero(js.column) == py.info.column)
      && !py.Raised?
  {
    var nearest := Greatest(OffsetsOf(entries), offset);
    GreatestIsGreatest(OffsetsOf(entries), offset);
    MapOfKeys(entries);
    if nearest.Some? {
      MapOfEntry(entries, nearest.value);
    }
  }

  /** A map with one entry, at offset 0: JavaScript finds it from there on, Python never. */
  lemma OffsetZeroIsMissed(loc: Location, sources: seq<string>, names: seq<string>, offset: int)
    requires offset >= 0
    ensures LookedUp([Entry(0, loc)], sources, names, offset, None) == NotFound
    ensures JsLookedUp([Entry(0, loc)], sources, names, offset) == JsDescribe(loc, sources, names)
  {
    var entries := [Entry(0, loc)];
    assert entries[..0] == [] && OffsetsOf(entries) == [0];
    GreatestIsGreatest(OffsetsOf(entries), offset);
    assert OffsetsOf(entries)[0] <= offset;
    assert MapOf(entries) == MapOf(entries[..0])[0 := loc];
  }

  // ----- from the rows to the answers

  lemma {:induction false} MapOfLast(entries: seq<Entry>, k: nat)
    requires k < |entries| && forall i :: k < i < |entries| ==> entries[i].offset != entries[k].offset
    ensures entries[k].offset in MapOf(entries) && MapOf(entries)[entries[k].offset] == entries[k].loc
  {
    if k < |entries| - 1 {
      MapOfLast(entries[..|entries| - 1], k);
    }
  }

  /** Row `k` is the last one with the greatest offset that is not above this one. */
  ghost predicate Governs(rows: seq<Row>, k: nat, offset: int) {
    && k < |rows| && rows[k].offset <= offset
    && forall i :: 0 <= i < |rows| && rows[i].offset <= offset ==>
         rows[i].offset < rows[k].offset || (rows[i].offset == rows[k].offset && i <= k)
  }

  lemma GoverningEntry(rows: seq<Row>, k: nat, offset: int)
    requires Governs(rows, k, offset)
    ensures var entries := Meanings(rows);
      && Greatest(OffsetsOf(entries), offset) == Some(rows[k].offset)
      && rows[k].offset in MapOf(entries) && MapOf(entries)[rows[k].offset] == Meaning(rows[k]).loc
  {
    var entries := Meanings(rows);
    GreatestIsGreatest(OffsetsOf(entries), offset);
    assert OffsetsOf(entries)[k] == entries[k].offset == rows[k].offset;
    var g := Greatest(OffsetsOf(entries), offset).value;
    var i :| 0 <= i < |rows| && OffsetsOf(entries)[i] == g;
    assert entries[i].offset == rows[i].offset;
    forall j | k < j < |entries| ensures entries[j].offset != entries[k].offset {
      assert entries[j].offset == rows[j].offset;
    }
    MapOfLast(entries, k);
  }

  /** The row's indices are those of names in the tables. */
  predicate InTables(row: Row, sources: seq<string>, names: seq<string>) {
    (!row.Bare? ==> 0 <= row.source < |sources|) && (row.Named? ==> 0 <= row.name < |names|)
  }

  /** From a table of rows, written and read back, Python's lookup answers with exactly the source, line,
      column and name of the row that governs the offset; unless that row is at offset 0. */
  lemma LookupFindsRow(rows: seq<Row>, k: nat, offset: int, sources: seq<string>, names: seq<string>)
    requires Governs(rows, k, offset) && rows[k].offset != 0 && InTables(rows[k], sources, names)
    ensures Read(Write(rows), false).Some?
    ensures LookedUp(Read(Write(rows), false).value, sources, names, offset, None) == Found(
      match rows[k]
      case Bare(_) => LocationInfo(None, 0, 0, None)
      case Positioned(_, s, l, c) => LocationInfo(Some(sources[s]), l, c, None)
      case Named(_, s, l, c, n) => LocationInfo(Some(sources[s]), l, c, Some(names[n])))
  {
    PythonReadsWhatWasWritten(rows);
    GoverningEntry(rows, k, offset);
  }

  /** JavaScript's does for every offset, as long as the text is read back exactly. */
  lemma JsLookupFindsRow(rows: seq<Row>, k: nat, offset: int, sources: seq<string>, names: seq<string>)
    requires Governs(rows, k, offset) && InTables(rows[k], sources, names) && SmallSteps(SourceMapText.START, rows)
    ensures Read(Write(rows), true).Some?
    ensures JsLookedUp(Read(Write(rows), true).value, sources, names, offset) ==
      match rows[k]
      case Bare(_) => Object(None, None, None, None)
      case Positioned(_, s, l, c) => Object(Some(sources[s]), Some(l), Some(c), None)
      case Named(_, s, l, c, n) => Object(Some(sources[s]), Some(l), Some(c), Some(names[n]))
  {
    JavaScriptReadsExactlySmallSteps(rows);
    GoverningEntry(rows, k, offset);
  }
}
