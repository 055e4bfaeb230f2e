/** The pieces of memory one call of the audio worklet hands out: descriptors, samples and the room for
    the output. No two of them share a byte. */
module AudioRegions {
  import opened AudioLayout

  datatype Region =
    | InputFrame(i: nat) | ParamFrame(i: nat) | OutputFrame(i: nat)
    | InputChannel(i: nat, c: nat) | ParamValues(i: nat) | OutputChannel(i: nat, c: nat)

  predicate Has<T>(b: Buffers<T>, r: Region) {
    match r
    case InputFrame(i) => i < |b.inputs|
    case ParamFrame(i) => i < |b.params|
    case OutputFrame(i) => i < |b.outputs|
    case InputChannel(i, c) => i < |b.inputs| && c < |b.inputs[i]|
    case ParamValues(i) => i < |b.params|
    case OutputChannel(i, c) => i < |b.outputs| && c < |b.outputs[i]|
  }

  /** The first byte of a region and its size, as the callback finds them. */
  function Start(call: Call, r: Region): nat {
    var load := LoadFrom(call.memory);
    match r
    case InputFrame(i) => call.inputsPtr + i * FRAME_SIZE
    case ParamFrame(i) => call.paramsPtr + i * PARAM_SIZE
    case OutputFrame(i) => call.outputsPtr + i * FRAME_SIZE
    case InputChannel(i, c) => ChannelPtr(FrameAt(load, call.inputsPtr, i), c)
    case ParamValues(i) => load(call.paramsPtr + i * PARAM_SIZE + 4)
    case OutputChannel(i, c) => ChannelPtr(FrameAt(load, call.outputsPtr, i), c)
  }

  function Size(call: Call, r: Region): nat {
    var load := LoadFrom(call.memory);
    match r
    case InputFrame(i) => FRAME_SIZE
    case ParamFrame(i) => PARAM_SIZE
    case OutputFrame(i) => FRAME_SIZE
    case InputChannel(i, c) => 4 * FrameAt(load, call.inputsPtr, i).samples
    case ParamValues(i) => 4 * load(call.paramsPtr + i * PARAM_SIZE)
    case OutputChannel(i, c) => 4 * FrameAt(load, call.outputsPtr, i).samples
  }

  // ----- six bands

  function Band(r: Region): nat {
    match r
    case InputFrame(_) => 0
    case ParamFrame(_) => 1
    case OutputFrame(_) => 2
    case InputChannel(_, _) => 3
    case ParamValues(_) => 4
    case OutputChannel(_, _) => 5
  }

  /** Where a band starts, given where the descriptors and the data start; band 6 is what lies above. */
  function BandStart<T>(b: Buffers<T>, base: nat, data: nat, band: nat): nat {
    if band == 0 then base
    else if band == 1 then base + |b.inputs| * FRAME_SIZE
    else if band == 2 then base + |b.inputs| * FRAME_SIZE + |b.params| * PARAM_SIZE
    else if band == 3 then data
    else if band == 4 then ParamData(b, data)
    else if band == 5 then OutputData(b, data)
    else Past(b.outputs, b.samples, OutputData(b, data))
  }

  /** Where a region lies. */
  function Site<T>(b: Buffers<T>, base: nat, data: nat, r: Region): nat
    requires Has(b, r)
  {
    match r
    case InputFrame(i) => BandStart(b, base, data, 0) + i * FRAME_SIZE
    case ParamFrame(i) => BandStart(b, base, data, 1) + i * PARAM_SIZE
    case OutputFrame(i) => BandStart(b, base, data, 2) + i * FRAME_SIZE
    case InputChannel(i, c) => ChannelSite(b.inputs, b.samples, data, i, c)
    case ParamValues(i) => ParamData(b, data) + 4 * |Flatten(b.params[..i])|
    case OutputChannel(i, c) => ChannelSite(b.outputs, b.samples, OutputData(b, data), i, c)
  }

  function ChannelSite<T>(lists: seq<seq<T>>, samples: nat, data: nat, i: nat, c: nat): nat
    requires i <= |lists|
  {
    Past(lists[..i], samples, data) + 4 * Span(c, samples)
  }

  function Bytes<T>(b: Buffers<T>, r: Region): nat
    requires Has(b, r)
  {
    match r
    case InputFrame(_) => FRAME_SIZE
    case ParamFrame(_) => PARAM_SIZE
    case OutputFrame(_) => FRAME_SIZE
    case InputChannel(_, _) => 4 * b.samples
    case ParamValues(i) => 4 * |b.params[i]|
    case OutputChannel(_, _) => 4 * b.samples
  }

  lemma {:induction false} PartsInOrder<T>(lists: seq<seq<T>>, i: nat, j: nat)
    requires i < j <= |lists|
    ensures |Flatten(lists[..i])| + |lists[i]| <= |Flatten(lists[..j])|
  {
    FlattenPart(lists[..j], i);
    assert lists[..j][..i] == lists[..i];
  }

  lemma {:induction false} ChannelOrder<T>(lists: seq<seq<T>>, samples: nat, data: nat, i: nat, c: nat, j: nat, d: nat)
    requires i <= j < |lists| && c < |lists[i]| && d < |lists[j]| && (i == j ==> c < d)
    ensures ChannelSite(lists, samples, data, i, c) + 4 * samples <= ChannelSite(lists, samples, data, j, d)
  {
    var first := |Flatten(lists[..i])| + c;
    var second := |Flatten(lists[..j])| + d;
    if i < j { PartsInOrder(lists, i, j); }
    assert first + 1 <= second;
    SpanAdds(|Flatten(lists[..i])|, c, samples);
    SpanAdds(|Flatten(lists[..j])|, d, samples);
    SpanAdds(first + 1, second - first - 1, samples);
  }

  lemma {:induction false} ChannelInside<T>(lists: seq<seq<T>>, samples: nat, data: nat, i: nat, c: nat)
    requires i < |lists| && c < |lists[i]|
    ensures data <= ChannelSite(lists, samples, data, i, c)
    ensures ChannelSite(lists, samples, data, i, c) + 4 * samples <= Past(lists, samples, data)
  {
    var k := |Flatten(lists[..i])| + c;
    FlattenPart(lists, i);
    SpanAdds(|Flatten(lists[..i])|, c, samples);
    SpanAdds(k + 1, |Flatten(lists)| - k - 1, samples);
  }

  lemma {:induction false} InsideBand<T>(b: Buffers<T>, base: nat, data: nat, r: Region)
    requires Has(b, r) && base + StructBytes(b) <= data
    ensures BandStart(b, base, data, Band(r)) <= Site(b, base, data, r)
    ensures Site(b, base, data, r) + Bytes(b, r) <= BandStart(b, base, data, Band(r) + 1)
  {
    match r
    case InputChannel(i, c) => ChannelInside(b.inputs, b.samples, data, i, c);
    case ParamValues(i) => FlattenPart(b.params, i);
    case OutputChannel(i, c) => ChannelInside(b.outputs, b.samples, OutputData(b, data), i, c);
    case _ =>
  }

  /** Which of two regions comes first. */
  predicate Before(r: Region, s: Region) {
    || Band(r) < Band(s)
    || (Band(r) == Band(s) && r.i < s.i)
    || (r.InputChannel? && s.InputChannel? && r.i == s.i && r.c < s.c)
    || (r.OutputChannel? && s.OutputChannel? && r.i == s.i && r.c < s.c)
  }

  lemma {:induction false} BeforeEnds<T>(b: Buffers<T>, base: nat, data: nat, r: Region, s: Region)
    requires Has(b, r) && Has(b, s) && Before(r, s) && base + StructBytes(b) <= data
    ensures Site(b, base, data, r) + Bytes(b, r) <= Site(b, base, data, s)
  {
    if Band(r) < Band(s) {
      InsideBand(b, base, data, r);
      InsideBand(b, base, data, s);
    } else {
      match r
      case InputChannel(i, c) => ChannelOrder(b.inputs, b.samples, data, i, c, s.i, s.c);
      case ParamValues(i) => PartsInOrder(b.params, i, s.i);
      case OutputChannel(i, c) => ChannelOrder(b.outputs, b.samples, OutputData(b, data), i, c, s.i, s.c);
      case _ =>
    }
  }

  // ----- the call's regions

  lemma {:induction false} ChannelIsSited<T>(
      load: Loads, ptr: nat, lists: seq<seq<T>>, samples: nat, data: nat, i: nat, c: nat)
    requires Holds(load, ptr, FrameWords(lists, samples, data)) && i < |lists|
    requires 0 < samples < 0x1_0000_0000 && Past(lists, samples, data) < 0x1_0000_0000
    ensures ChannelPtr(FrameAt(load, ptr, i), c) == ChannelSite(lists, samples, data, i, c)
    ensures FrameAt(load, ptr, i).samples == samples
  {
    FrameReadsBack(load, ptr, lists, samples, data, i);
  }

  lemma {:induction false} RegionIsSited<T>(call: Call, base: nat, data: nat, b: Buffers<T>, r: Region)
    requires Has(b, r) && Described(call, data, b) && call == CallAt(base, b, call.memory)
    requires 0 < b.samples < 0x1_0000_0000 && Past(b.outputs, b.samples, OutputData(b, data)) < 0x1_0000_0000
    ensures Start(call, r) == Site(b, base, data, r)
    ensures Size(call, r) == Bytes(b, r)
  {
    var load := LoadFrom(call.memory);
    match r
    case InputChannel(i, c) => ChannelIsSited(load, call.inputsPtr, b.inputs, b.samples, data, i, c);
    case ParamValues(i) => ParamLoads(load, call.paramsPtr, b.params, ParamData(b, data), i);
    case OutputChannel(i, c) => ChannelIsSited(load, call.outputsPtr, b.outputs, b.samples, OutputData(b, data), i, c);
    case _ =>
  }

  /** Everything the callback is pointed to lies on the stack that was allocated for it. */
  lemma {:induction false} RegionsStayOnStack<T>(memory: seq<Word>, top: nat, b: Buffers<T>, r: Region)
    requires Fits(memory, top, b) && Has(b, r)
    ensures top - StackBytes(b) <= Start(Marshalled(memory, top, b), r)
    ensures Start(Marshalled(memory, top, b), r) + Size(Marshalled(memory, top, b), r) <= top
  {
    var base, data := CallDescribes(memory, top, b);
    RegionIsSited(Marshalled(memory, top, b), base, data, b, r);
    InsideBand(b, base, data, r);
  }

  /** No two of them overlap. */
  lemma {:induction false} RegionsAreDisjoint<T>(memory: seq<Word>, top: nat, b: Buffers<T>, r: Region, s: Region)
    requires Fits(memory, top, b) && Has(b, r) && Has(b, s) && r != s
    ensures
      var call := Marshalled(memory, top, b);
      Start(call, r) + Size(call, r) <= Start(call, s) || Start(call, s) + Size(call, s) <= Start(call, r)
  {
    var base, data := CallDescribes(memory, top, b);
    RegionIsSited(Marshalled(memory, top, b), base, data, b, r);
    RegionIsSited(Marshalled(memory, top, b), base, data, b, s);
    if Before(r, s) { BeforeEnds(b, base, data, r, s); } else { BeforeEnds(b, base, data, s, r); }
  }
}
