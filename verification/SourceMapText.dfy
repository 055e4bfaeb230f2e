/** The `mappings` text of a source map: comma-joined segments of VLQ numbers, each number a
    difference from the row before (tools/wasm-sourcemap.py writes them, tools/emsymbolizer.py and
    src/source_map_support.js read them). */
module SourceMapText {
  import opened Options
  import opened Texts
  import opened Vlq

  /** What is known about the code from `offset` on: nothing, a source position, or also a name. */
  datatype Row =
    | Bare(offset: int)
    | Positioned(offset: int, source: int, line: int, column: int)
    | Named(offset: int, source: int, line: int, column: int, name: int)

  /** The fields of a location that a reader has set. */
  datatype Location = Location(source: Option<int>, line: Option<int>, column: Option<int>, name: Option<int>)

  datatype Entry = Entry(offset: int, loc: Location)

  /** The absolute values of the row before. */
  datatype Registers = Registers(offset: int, source: int, line: int, column: int, name: int)

  const START := Registers(0, 0, 1, 1, 0)

  // ----- writing

  function Deltas(r: Registers, row: Row): seq<int> {
    match row
    case Bare(o) => [o - r.offset]
    case Positioned(o, s, l, c) => [o - r.offset, s - r.source, l - r.line, c - r.column]
    case Named(o, s, l, c, n) => [o - r.offset, s - r.source, l - r.line, c - r.column, n - r.name]
  }

  function Follow(r: Registers, row: Row): Registers {
    match row
    case Bare(o) => r.(offset := o)
    case Positioned(o, s, l, c) => Registers(o, s, l, c, r.name)
    case Named(o, s, l, c, n) => Registers(o, s, l, c, n)
  }

  function Segments(r: Registers, rows: seq<Row>): seq<string>
    decreases |rows|
  {
    if rows == [] then [] else [EncodeAll(Deltas(r, rows[0]))] + Segments(Follow(r, rows[0]), rows[1..])
  }

  function Write(rows: seq<Row>): string {
    Join(Segments(START, rows), ',')
  }

  // ----- reading

  function Advance(r: Registers, data: seq<int>, js: bool): Registers
    requires data != []
  {
    Registers(r.offset + data[0],
              if |data| >= 2 then r.source + data[1] else r.source,
              if |data| >= 3 then r.line + data[2] else r.line,
              if |data| >= 4 then r.column + data[3] else r.column,
              if HasName(data, js) then r.name + data[4] else r.name)
  }

  /** Python looks for exactly five numbers, JavaScript for at least five. */
  predicate HasName(data: seq<int>, js: bool) {
    if js then |data| >= 5 else |data| == 5
  }

  function EntryOf(r: Registers, data: seq<int>, js: bool): Entry {
    Entry(r.offset, Location(if |data| >= 2 then Some(r.source) else None,
                             if |data| >= 3 then Some(r.line) else None,
                             if |data| >= 4 then Some(r.column) else None,
                             if HasName(data, js) then Some(r.name) else None))
  }

  function Decoded(part: string, js: bool): Option<seq<int>> {
    if js then JsDecode(part) else Decode(part)
  }

  /** The entries of the segments; None stands for an exception: a character outside the alphabet, or
      a segment without a number. JavaScript passes over empty segments, Python does not. */
  function Entries(r: Registers, parts: seq<string>, js: bool): Option<seq<Entry>>
    decreases |parts|
  {
    if parts == [] then Some([])
    else if js && parts[0] == [] then Entries(r, parts[1..], js)
    else
      match Decoded(parts[0], js)
      case None => None
      case Some(data) =>
        if data == [] then None
        else
          var r' := Advance(r, data, js);
          match Entries(r', parts[1..], js)
          case None => None
          case Some(rest) => Some([EntryOf(r', data, js)] + rest)
  }

  function Read(text: string, js: bool): Option<seq<Entry>> {
    Entries(START, Split(text, ','), js)
  }

  // ----- what a text means

  function NonEmpty(parts: seq<string>): seq<string> {
    if parts == [] then []
    else if parts[0] == [] then NonEmpty(parts[1..])
    else [parts[0]] + NonEmpty(parts[1..])
  }

  /** The segments that a reader looks at: JavaScript passes over empty ones. */
  function Looked(text: string, js: bool): seq<string> {
    if js then NonEmpty(Split(text, ',')) else Split(text, ',')
  }

  /** The segments are made of these numbers, at least one each. */
  ghost predicate DecodesTo(parts: seq<string>, js: bool, numbers: seq<seq<int>>) {
    && |numbers| == |parts|
    && forall k :: 0 <= k < |parts| ==> Decoded(parts[k], js) == Some(numbers[k]) && numbers[k] != []
  }

  /** Whether a segment has this field: offset, source, line, column, name. Python takes the name only
      from segments of exactly five numbers. */
  predicate Shows(data: seq<int>, field: nat, js: bool) {
    |data| > field && (field == 4 && !js ==> |data| == 5)
  }

  /** The sum of a field over the `n` first segments. */
  function Total(numbers: seq<seq<int>>, field: nat, js: bool, n: nat): int
    requires n <= |numbers|
  {
    if n == 0 then 0
    else Total(numbers, field, js, n - 1) + if Shows(numbers[n - 1], field, js) then numbers[n - 1][field] else 0
  }

  /** The absolute value of a field in segment `k`, when it is counted from `first`. */
  function Absolute(numbers: seq<seq<int>>, field: nat, js: bool, k: nat, first: int): Option<int>
    requires k < |numbers|
  {
    if Shows(numbers[k], field, js) then Some(first + Total(numbers, field, js, k + 1)) else None
  }

  /** Every field of every entry is the sum of the numbers up to its segment: offsets, sources and names
      are counted from 0, lines and columns from 1. */
  ghost predicate Sums(entries: seq<Entry>, numbers: seq<seq<int>>, js: bool) {
    && |entries| == |numbers|
    && forall k :: 0 <= k < |entries| ==>
         && entries[k].offset == Total(numbers, 0, js, k + 1)
         && entries[k].loc.source == Absolute(numbers, 1, js, k, 0)
         && entries[k].loc.line == Absolute(numbers, 2, js, k, 1)
         && entries[k].loc.column == Absolute(numbers, 3, js, k, 1)
         && entries[k].loc.name == Absolute(numbers, 4, js, k, 0)
  }

  /** What a text is read as: nothing when a segment does not decode, or is empty where Python reads it;
      otherwise an entry for each segment, with the sums. */
  lemma ReadsSums(text: string, js: bool)
    ensures Read(text, js).Some? <==> exists numbers :: DecodesTo(Looked(text, js), js, numbers)
    ensures forall numbers :: DecodesTo(Looked(text, js), js, numbers) ==>
      Read(text, js).Some? && Sums(Read(text, js).value, numbers, js)
  {
    var parts := Looked(text, js);
    if js {
      EmptyPartsDoNotCount(START, Split(text, ','));
    }
    assert js ==> forall k :: 0 <= k < |parts| ==> parts[k] != [] by {
      NonEmptyParts(Split(text, ','));
    }
    if Read(text, js).Some? {
      var numbers := NumbersOf(START, parts, js);
    }
    forall numbers | DecodesTo(parts, js, numbers)
      ensures Read(text, js).Some? && Sums(Read(text, js).value, numbers, js)
    {
      EntriesAddUp(START, parts, js, numbers);
    }
  }

  lemma {:induction false} EmptyPartsDoNotCount(r: Registers, parts: seq<string>)
    ensures Entries(r, parts, true) == Entries(r, NonEmpty(parts), true)
    decreases |parts|
  {
    if parts != [] {
      var data := Decoded(parts[0], true);
      if parts[0] == [] {
        EmptyPartsDoNotCount(r, parts[1..]);
      } else if data.Some? && data.value != [] {
        EmptyPartsDoNotCount(Advance(r, data.value, true), parts[1..]);
      }
    }
  }

  lemma {:induction false} NonEmptyParts(parts: seq<string>)
    ensures forall k :: 0 <= k < |NonEmpty(parts)| ==> NonEmpty(parts)[k] != []
  {
    if parts != [] {
      NonEmptyParts(parts[1..]);
    }
  }

  lemma {:induction false} NumbersOf(r: Registers, parts: seq<string>, js: bool) returns (numbers: seq<seq<int>>)
    requires Entries(r, parts, js).Some? && (js ==> forall k :: 0 <= k < |parts| ==> parts[k] != [])
    ensures DecodesTo(parts, js, numbers)
    decreases |parts|
  {
    numbers := [];
    if parts != [] {
      var data := Decoded(parts[0], js).value;
      var rest := NumbersOf(Advance(r, data, js), parts[1..], js);
      numbers := [data] + rest;
      forall k | 0 <= k < |parts| ensures Decoded(parts[k], js) == Some(numbers[k]) && numbers[k] != [] {
        assert k > 0 ==> parts[k] == parts[1..][k - 1] && numbers[k] == rest[k - 1];
      }
    }
  }

  /** The fields of the entries, counted from registers. */
  ghost predicate SumsFrom(r: Registers, entries: seq<Entry>, numbers: seq<seq<int>>, js: bool) {
    && |entries| == |numbers|
    && forall k :: 0 <= k < |entries| ==> SumsAt(r, entries[k], numbers, js, k)
  }

  ghost predicate SumsAt(r: Registers, e: Entry, numbers: seq<seq<int>>, js: bool, k: nat)
    requires k < |numbers|
  {
    && e.offset == r.offset + Total(numbers, 0, js, k + 1)
    && e.loc.source == Absolute(numbers, 1, js, k, r.source) && e.loc.line == Absolute(numbers, 2, js, k, r.line)
    && e.loc.column == Absolute(numbers, 3, js, k, r.column) && e.loc.name == Absolute(numbers, 4, js, k, r.name)
  }

  lemma {:induction false} EntriesAddUp(r: Registers, parts: seq<string>, js: bool, numbers: seq<seq<int>>)
    requires DecodesTo(parts, js, numbers) && (js ==> forall k :: 0 <= k < |parts| ==> parts[k] != [])
    ensures Entries(r, parts, js).Some? && SumsFrom(r, Entries(r, parts, js).value, numbers, js)
    decreases |parts|
  {
    if parts != [] {
      var r' := Advance(r, numbers[0], js);
      EntriesAddUp(r', parts[1..], js, numbers[1..]);
      var entries := Entries(r, parts, js).value;
      forall k | 0 <= k < |entries| ensures SumsAt(r, entries[k], numbers, js, k) {
        if k == 0 {
          FirstEntry(r, numbers, js);
        } else {
          assert SumsAt(r', entries[k], numbers[1..], js, k - 1);
          LaterEntry(r, entries[k], numbers, js, k);
        }
      }
    }
  }

  lemma FirstEntry(r: Registers, numbers: seq<seq<int>>, js: bool)
    requires numbers != [] && numbers[0] != []
    ensures SumsAt(r, EntryOf(Advance(r, numbers[0], js), numbers[0], js), numbers, js, 0)
  {
    assert forall field: nat :: Total(numbers, field, js, 0) == 0;
    assert forall field: nat :: Total(numbers, field, js, 0 + 1) == if Shows(numbers[0], field, js) then numbers[0][field] else 0;
  }

  lemma LaterEntry(r: Registers, e: Entry, numbers: seq<seq<int>>, js: bool, k: nat)
    requires 0 < k < |numbers| && numbers[0] != [] && SumsAt(Advance(r, numbers[0], js), e, numbers[1..], js, k - 1)
    ensures SumsAt(r, e, numbers, js, k)
  {
    TotalFromFirst(numbers, 0, js, k);
    TotalFromFirst(numbers, 1, js, k);
    TotalFromFirst(numbers, 2, js, k);
    TotalFromFirst(numbers, 3, js, k);
    TotalFromFirst(numbers, 4, js, k);
  }

  lemma {:induction false} TotalFromFirst(numbers: seq<seq<int>>, field: nat, js: bool, k: nat)
    requires k < |numbers|
    ensures Total(numbers, field, js, k + 1) == Total(numbers, field, js, 1) + Total(numbers[1..], field, js, k)
  {
    if k > 0 {
      TotalFromFirst(numbers, field, js, k - 1);
    }
  }

  // ----- reading undoes writing

  /** The entry that a row should be read as. */
  function Meaning(row: Row): Entry {
    match row
    case Bare(o) => Entry(o, Location(None, None, None, None))
    case Positioned(o, s, l, c) => Entry(o, Location(Some(s), Some(l), Some(c), None))
    case Named(o, s, l, c, n) => Entry(o, Location(Some(s), Some(l), Some(c), Some(n)))
  }

  function Meanings(rows: seq<Row>): seq<Entry> {
    seq(|rows|, i requires 0 <= i < |rows| => Meaning(rows[i]))
  }

  lemma {:induction false} SegmentsArePlain(r: Registers, rows: seq<Row>)
    ensures |Segments(r, rows)| == |rows|
    ensures forall i :: 0 <= i < |rows| ==> ',' !in Segments(r, rows)[i] && Segments(r, rows)[i] != []
    decreases |rows|
  {
    if rows != [] {
      EncodingIsPlain(Deltas(r, rows[0]));
      SegmentsArePlain(Follow(r, rows[0]), rows[1..]);
    }
  }

  lemma AdvanceFollows(r: Registers, row: Row, js: bool)
    ensures Advance(r, Deltas(r, row), js) == Follow(r, row)
    ensures EntryOf(Follow(r, row), Deltas(r, row), js) == Meaning(row)
  {
  }

  /** All differences between consecutive rows are numbers that survive JavaScript's decoder. */
  predicate SmallSteps(r: Registers, rows: seq<Row>)
    decreases |rows|
  {
    rows != [] ==>
      && (forall i :: 0 <= i < |Deltas(r, rows[0])| ==> Fits31(Deltas(r, rows[0])[i]))
      && SmallSteps(Follow(r, rows[0]), rows[1..])
  }

  lemma {:induction false} EntriesUndoSegments(r: Registers, rows: seq<Row>)
    ensures Entries(r, Segments(r, rows), false) == Some(Meanings(rows))
    decreases |rows|
  {
    if rows == [] {
      assert Meanings(rows) == [];
    } else {
      var data := Deltas(r, rows[0]);
      var parts := Segments(r, rows);
      DecodeUndoesEncode(data);
      AdvanceFollows(r, rows[0], false);
      EntriesUndoSegments(Follow(r, rows[0]), rows[1..]);
      assert parts[0] == EncodeAll(data) && parts[1..] == Segments(Follow(r, rows[0]), rows[1..]);
      assert Meanings(rows) == [Meaning(rows[0])] + Meanings(rows[1..]);
    }
  }

  /** Every difference shows in the entry of its own row: numbers read instead of the differences give
      the right entry only if they are the differences. */
  lemma EntryShowsDeltas(r: Registers, row: Row, data: seq<int>)
    requires |data| == |Deltas(r, row)|
    ensures EntryOf(Advance(r, data, true), data, true) == Meaning(row) <==> data == Deltas(r, row)
  {
  }

  lemma {:induction false} JsEntriesUndoSegments(r: Registers, rows: seq<Row>)
    ensures Entries(r, Segments(r, rows), true) == Some(Meanings(rows)) <==> SmallSteps(r, rows)
    decreases |rows|
  {
    if rows == [] {
      assert Meanings(rows) == [];
    } else {
      var deltas := Deltas(r, rows[0]);
      var data := JsImage(deltas);
      var parts := Segments(r, rows);
      EncodingIsPlain(deltas);
      JsDecodesImage(deltas);
      JsDecodeUndoesEncode(deltas);
      EntryShowsDeltas(r, rows[0], data);
      AdvanceFollows(r, rows[0], true);
      assert parts[0] == EncodeAll(deltas) && parts[1..] == Segments(Follow(r, rows[0]), rows[1..]);
      FirstThenRest(EntryOf(Advance(r, data, true), data, true), Meaning(rows[0]),
                    Entries(Advance(r, data, true), parts[1..], true), Meanings(rows[1..]));
      assert Meanings(rows) == [Meaning(rows[0])] + Meanings(rows[1..]);
      JsEntriesUndoSegments(Follow(r, rows[0]), rows[1..]);
    }
  }

  lemma FirstThenRest(e: Entry, f: Entry, rest: Option<seq<Entry>>, wanted: seq<Entry>)
    ensures (if rest.Some? then Some([e] + rest.value) else None) == Some([f] + wanted) <==> e == f && rest == Some(wanted)
  {
    if rest.Some? {
      assert ([e] + rest.value)[0] == e && ([e] + rest.value)[1..] == rest.value;
      assert ([f] + wanted)[0] == f && ([f] + wanted)[1..] == wanted;
    }
  }

  /** Python's reader recovers every row that was written, whatever its numbers, as long as there is
      one: it raises on the text of an empty table. */
  lemma PythonReadsWhatWasWritten(rows: seq<Row>)
    ensures Read(Write(rows), false) == if rows == [] then None else Some(Meanings(rows))
  {
    if rows != [] {
      SegmentsArePlain(START, rows);
      SplitUndoesJoin(Segments(START, rows), ',');
      EntriesUndoSegments(START, rows);
    }
  }

  /** JavaScript's reader recovers every row, also of an empty table, if and only if every difference
      between consecutive rows has a magnitude below 2^30. */
  lemma JavaScriptReadsExactlySmallSteps(rows: seq<Row>)
    ensures Read(Write(rows), true) == Some(Meanings(rows)) <==> SmallSteps(START, rows)
  {
    if rows == [] {
      assert Meanings(rows) == [];
      assert Split("", ',') == [[]];
      assert Entries(START, [[]], true) == Entries(START, [], true);
    } else {
      SegmentsArePlain(START, rows);
      SplitUndoesJoin(Segments(START, rows), ',');
      JsEntriesUndoSegments(START, rows);
    }
  }
}
