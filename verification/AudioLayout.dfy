/** What one call of the audio worklet lays out on the Wasm stack (src/audio_worklet.js), and what the
    callback reads there. Memory is a sequence of 32-bit words; pointers are byte addresses. */
module AudioLayout {

  const FRAME_SIZE := 12   // AudioSampleFrame: numberOfChannels, samplesPerChannel, data
  const PARAM_SIZE := 8    // AudioParamFrame: length, data
  const STACK_ALIGN := 16

  type Word = w: int | 0 <= w < 0x1_0000_0000

  /** A 32-bit store keeps the low half of what it is given. */
  function U32(value: nat): Word { value % 0x1_0000_0000 }

  /** Bytes rounded up and down to the alignment of the stack. */
  function RoundUp(bytes: nat): nat { (bytes + 15) / STACK_ALIGN * STACK_ALIGN }

  function RoundDown(address: nat): nat { address / STACK_ALIGN * STACK_ALIGN }

  function Flatten<T>(lists: seq<seq<T>>): seq<T> {
    if |lists| == 0 then [] else Flatten(lists[..|lists| - 1]) + lists[|lists| - 1]
  }

  // ----- the layout

  /** The descriptors of a list of inputs or outputs whose samples start at `data`. */
  function FrameWords<T>(lists: seq<seq<T>>, samples: nat, data: nat): seq<Word> {
    if |lists| == 0 then [] else
      var front := lists[..|lists| - 1];
      FrameWords(front, samples, data) +
      [U32(|lists[|lists| - 1]|), U32(samples), U32(Past(front, samples, data))]
  }

  /** The descriptors of the parameter arrays whose values start at `data`. */
  function ParamWords(params: seq<seq<Word>>, data: nat): seq<Word> {
    if |params| == 0 then [] else
      var front := params[..|params| - 1];
      ParamWords(front, data) + [U32(|params[|params| - 1]|), U32(data + 4 * |Flatten(front)|)]
  }

  /** What the browser passes for one render quantum of `samples` samples a channel. */
  datatype Buffers<T> = Buffers(inputs: seq<seq<seq<Word>>>, params: seq<seq<Word>>, outputs: seq<seq<T>>, samples: nat)

  function InputSamples(inputs: seq<seq<seq<Word>>>): seq<Word> { Flatten(Flatten(inputs)) }

  /** Every input channel holds one render quantum. */
  ghost predicate Quanta(inputs: seq<seq<seq<Word>>>, samples: nat) {
    forall i, c :: 0 <= i < |inputs| && 0 <= c < |inputs[i]| ==> |inputs[i][c]| == samples
  }

  function StructBytes<T>(b: Buffers<T>): nat {
    (|b.inputs| + |b.outputs|) * FRAME_SIZE + |b.params| * PARAM_SIZE
  }

  function DataBytes<T>(b: Buffers<T>): nat {
    4 * (Span(|Flatten(b.inputs)|, b.samples) + Span(|Flatten(b.outputs)|, b.samples) + |Flatten(b.params)|)
  }

  function StackBytes<T>(b: Buffers<T>): nat { RoundUp(StructBytes(b) + DataBytes(b)) }

  /** The words `count` channels take. */
  function Span(count: nat, samples: nat): nat {
    if count == 0 then 0 else Span(count - 1, samples) + samples
  }

  /** The address behind the channels of these lists, laid out from `data` on. */
  function Past<T>(lists: seq<seq<T>>, samples: nat, data: nat): nat { data + 4 * Span(|Flatten(lists)|, samples) }

  /** Where the parameter values start, and where the output channels start. */
  function ParamData<T>(b: Buffers<T>, data: nat): nat { Past(b.inputs, b.samples, data) }

  function OutputData<T>(b: Buffers<T>, data: nat): nat { ParamData(b, data) + 4 * |Flatten(b.params)| }

  /** The words of all descriptors, in the order they are written. */
  function StructWords<T>(b: Buffers<T>, data: nat): seq<Word> {
    FrameWords(b.inputs, b.samples, data) + ParamWords(b.params, ParamData(b, data)) +
    FrameWords(b.outputs, b.samples, OutputData(b, data))
  }

  /** The samples written before the call; the output channels above them are left for the callback. */
  function DataWords<T>(b: Buffers<T>): seq<Word> {
    InputSamples(b.inputs) + Flatten(b.params)
  }

  function Overwrite(memory: seq<Word>, at: nat, words: seq<Word>): (r: seq<Word>)
    requires at + |words| <= |memory|
    ensures |r| == |memory|
  {
    memory[..at] + words + memory[at + |words|..]
  }

  /** Memory once the descriptors are written at `base` and the samples at `data`. */
  function Lay(memory: seq<Word>, base: nat, data: nat, structs: seq<Word>, words: seq<Word>): seq<Word>
    requires base / 4 + |structs| <= |memory| && data / 4 + |words| <= |memory|
  {
    Overwrite(Overwrite(memory, base / 4, structs), data / 4, words)
  }

  // ----- the call

  datatype Call = Call(numInputs: nat, inputsPtr: nat, numOutputs: nat, outputsPtr: nat,
                       numParams: nat, paramsPtr: nat, memory: seq<Word>)

  /** What the callback leaves in memory, and whether it produced audio. */
  datatype Reply = Reply(store: nat -> Word, produced: bool)

  ghost predicate Fits<T>(memory: seq<Word>, top: nat, b: Buffers<T>) {
    && top % STACK_ALIGN == 0 && top <= 4 * |memory| && top < 0x1_0000_0000
    && 0 < b.samples < 0x1_0000_0000
    && Quanta(b.inputs, b.samples)
    && StackBytes(b) <= top
  }

  /** Where the descriptors and the data start. */
  function StructBase<T>(top: nat, b: Buffers<T>): int { top - StackBytes(b) }

  function DataBase<T>(top: nat, b: Buffers<T>): int { top - DataBytes(b) }

  lemma {:induction false} SpanIsProduct(count: nat, samples: nat)
    ensures Span(count, samples) == count * samples
  {
    if count > 0 { SpanIsProduct(count - 1, samples); }
  }

  lemma {:induction false} SpanAdds(first: nat, second: nat, samples: nat)
    ensures Span(first + second, samples) == Span(first, samples) + Span(second, samples)
  {
    if second > 0 { SpanAdds(first, second - 1, samples); }
  }

  lemma {:induction false} SpanCovers(count: nat, samples: nat)
    requires 0 < samples
    ensures count <= Span(count, samples)
  {
    if count > 0 { SpanCovers(count - 1, samples); }
  }

  lemma {:induction false} FlattenQuanta(channels: seq<seq<Word>>, samples: nat)
    requires forall c :: 0 <= c < |channels| ==> |channels[c]| == samples
    ensures |Flatten(channels)| == Span(|channels|, samples)
  {
    if |channels| > 0 { FlattenQuanta(channels[..|channels| - 1], samples); }
  }

  lemma {:induction false} FlattenMember<T>(lists: seq<seq<T>>, k: nat) returns (i: nat, c: nat)
    requires k < |Flatten(lists)|
    ensures i < |lists| && c < |lists[i]| && Flatten(lists)[k] == lists[i][c]
  {
    var last := |lists| - 1;
    if k < |Flatten(lists[..last])| {
      i, c := FlattenMember(lists[..last], k);
    } else {
      i, c := last, k - |Flatten(lists[..last])|;
    }
  }

  /** Each list keeps its place: it starts after everything before it. */
  lemma {:induction false} FlattenPart<T>(lists: seq<seq<T>>, i: nat)
    requires i < |lists|
    ensures |Flatten(lists[..i])| + |lists[i]| <= |Flatten(lists)|
    ensures Flatten(lists)[|Flatten(lists[..i])|..][..|lists[i]|] == lists[i]
  {
    var last := |lists| - 1;
    if i < last {
      FlattenPart(lists[..last], i);
      assert lists[..last][..i] == lists[..i];
    }
  }

  lemma {:induction false} FrameWordsLength<T>(lists: seq<seq<T>>, samples: nat, data: nat)
    ensures |FrameWords(lists, samples, data)| == 3 * |lists|
  {
    if |lists| > 0 { FrameWordsLength(lists[..|lists| - 1], samples, data); }
  }

  lemma {:induction false} ParamWordsLength(params: seq<seq<Word>>, data: nat)
    ensures |ParamWords(params, data)| == 2 * |params|
  {
    if |params| > 0 { ParamWordsLength(params[..|params| - 1], data); }
  }

  lemma {:induction false} FrameWordsAt<T>(lists: seq<seq<T>>, samples: nat, data: nat, i: nat)
    requires i < |lists|
    ensures |FrameWords(lists, samples, data)| == 3 * |lists|
    ensures FrameWords(lists, samples, data)[3 * i] == U32(|lists[i]|)
    ensures FrameWords(lists, samples, data)[3 * i + 1] == U32(samples)
    ensures FrameWords(lists, samples, data)[3 * i + 2] == U32(Past(lists[..i], samples, data))
  {
    var last := |lists| - 1;
    FrameWordsLength(lists, samples, data);
    FrameWordsLength(lists[..last], samples, data);
    if i < last {
      FrameWordsAt(lists[..last], samples, data, i);
      assert lists[..last][..i] == lists[..i];
    }
  }

  lemma {:induction false} ParamWordsAt(params: seq<seq<Word>>, data: nat, i: nat)
    requires i < |params|
    ensures |ParamWords(params, data)| == 2 * |params|
    ensures ParamWords(params, data)[2 * i] == U32(|params[i]|)
    ensures ParamWords(params, data)[2 * i + 1] == U32(data + 4 * |Flatten(params[..i])|)
  {
    var last := |params| - 1;
    ParamWordsLength(params, data);
    ParamWordsLength(params[..last], data);
    if i < last {
      ParamWordsAt(params[..last], data, i);
      assert params[..last][..i] == params[..i];
    }
  }

  lemma {:induction false} StructWordsLength<T>(b: Buffers<T>, data: nat)
    ensures 4 * |StructWords(b, data)| == StructBytes(b)
  {
    FrameWordsLength(b.inputs, b.samples, data);
    ParamWordsLength(b.params, ParamData(b, data));
    FrameWordsLength(b.outputs, b.samples, OutputData(b, data));
  }

  lemma {:induction false} DataWordsLength<T>(b: Buffers<T>)
    requires Quanta(b.inputs, b.samples)
    ensures 4 * |DataWords(b)| + 4 * Span(|Flatten(b.outputs)|, b.samples) == DataBytes(b)
  {
    InputChannels(b.inputs, b.samples);
    FlattenQuanta(Flatten(b.inputs), b.samples);
  }

  /** The descriptors end at or below the data, everything starts on a word, and the data ends at the
      top of the stack once the output channels are counted. */
  lemma {:induction false} Regions<T>(top: nat, b: Buffers<T>)
    requires top % STACK_ALIGN == 0 && StackBytes(b) <= top && Quanta(b.inputs, b.samples)
    ensures 0 <= StructBase(top, b) && StructBase(top, b) % STACK_ALIGN == 0 && StructBase(top, b) % 4 == 0
    ensures StructBase(top, b) + StructBytes(b) <= DataBase(top, b) && DataBase(top, b) % 4 == 0
    ensures DataBase(top, b) + 4 * |DataWords(b)| + 4 * Span(|Flatten(b.outputs)|, b.samples) == top
  {
    DataWordsLength(b);
    RoundUpIsNext(StructBytes(b) + DataBytes(b));
    BasesAligned(top, StructBytes(b), |DataWords(b)| + Span(|Flatten(b.outputs)|, b.samples), StackBytes(b));
  }

  /** Whole units of the stack are whole words too. */
  lemma WholeUnits(units: int)
    ensures STACK_ALIGN * units % STACK_ALIGN == 0 && STACK_ALIGN * units % 4 == 0
  {
    assert STACK_ALIGN * units == 4 * (4 * units);
  }

  lemma RoundUpIsNext(bytes: nat)
    ensures bytes <= RoundUp(bytes) < bytes + STACK_ALIGN && RoundUp(bytes) % STACK_ALIGN == 0
  {
    var units, rest := (bytes + 15) / STACK_ALIGN, (bytes + 15) % STACK_ALIGN;
    assert bytes + 15 == STACK_ALIGN * units + rest;
    WholeUnits(units);
  }

  lemma UnitsOf(bytes: nat) returns (units: nat)
    requires bytes % STACK_ALIGN == 0
    ensures bytes == STACK_ALIGN * units
  {
    units := bytes / STACK_ALIGN;
  }

  lemma BasesAligned(top: nat, structs: nat, words: nat, all: nat)
    requires top % STACK_ALIGN == 0 && all % STACK_ALIGN == 0 && structs + 4 * words <= all <= top
    ensures (top - all) % STACK_ALIGN == 0 && (top - all) % 4 == 0
    ensures top - all + structs <= top - 4 * words && (top - 4 * words) % 4 == 0
  {
    var stack := UnitsOf(top);
    var units := UnitsOf(all);
    WholeUnits(stack - units);
    assert top - all == STACK_ALIGN * (stack - units);
    WholeWords(4 * stack - words);
    assert top - 4 * words == 4 * (4 * stack - words);
  }

  lemma WholeWords(words: int)
    ensures 4 * words % 4 == 0
  {
  }

  lemma InputChannels(inputs: seq<seq<seq<Word>>>, samples: nat)
    requires Quanta(inputs, samples)
    ensures forall k :: 0 <= k < |Flatten(inputs)| ==> |Flatten(inputs)[k]| == samples
  {
    forall k | 0 <= k < |Flatten(inputs)| ensures |Flatten(inputs)[k]| == samples {
      var i, c := FlattenMember(inputs, k);
    }
  }

  lemma {:induction false} Places<T>(memory: seq<Word>, top: nat, b: Buffers<T>)
    requires Fits(memory, top, b)
    ensures 0 <= StructBase(top, b) <= DataBase(top, b)
    ensures StructBase(top, b) % 4 == 0 && DataBase(top, b) % 4 == 0
    ensures StructBase(top, b) + 4 * |StructWords(b, DataBase(top, b))| <= DataBase(top, b)
    ensures StructBase(top, b) / 4 + |StructWords(b, DataBase(top, b))| <= |memory|
    ensures DataBase(top, b) / 4 + |DataWords(b)| <= |memory|
  {
    Regions(top, b);
    StructWordsLength(b, DataBase(top, b));
  }

  /** The pointers the callback is given, with the memory behind them. */
  function CallAt<T>(base: nat, b: Buffers<T>, memory: seq<Word>): Call {
    var paramsPtr := base + |b.inputs| * FRAME_SIZE;
    Call(|b.inputs|, base, |b.outputs|, paramsPtr + |b.params| * PARAM_SIZE, |b.params|, paramsPtr, memory)
  }

  /** What one call of the processor hands to the callback. */
  function Marshalled<T>(memory: seq<Word>, top: nat, b: Buffers<T>): (r: Call)
    requires Fits(memory, top, b)
  {
    Places(memory, top, b);
    var data := DataBase(top, b);
    CallAt(StructBase(top, b), b, Lay(memory, StructBase(top, b), data, StructWords(b, data), DataWords(b)))
  }

  // ----- what the callback sees

  datatype Frame = Frame(channels: nat, samples: nat, data: nat)

  /** A 32-bit load from a byte address. */
  type Loads = nat -> Word

  function LoadFrom(memory: seq<Word>): Loads {
    (ptr: nat) => if ptr / 4 < |memory| then memory[ptr / 4] else 0
  }

  /** Entry i of an array of AudioSampleFrame. */
  function FrameAt(load: Loads, ptr: nat, i: nat): Frame {
    var at := ptr + i * FRAME_SIZE;
    Frame(load(at), load(at + 4), load(at + 8))
  }

  /** `count` samples from a byte address on. */
  function SamplesAt(load: Loads, ptr: nat, count: nat): (r: seq<Word>)
    ensures |r| == count
  {
    seq(count, k requires 0 <= k => load(ptr + 4 * k))
  }

  /** The address of channel c of a frame: the frame's channels follow one another. */
  function ChannelPtr(frame: Frame, c: nat): nat { frame.data + 4 * Span(c, frame.samples) }

  function ReadFrame(load: Loads, frame: Frame): seq<seq<Word>> {
    seq(frame.channels, c requires 0 <= c => SamplesAt(load, ChannelPtr(frame, c), frame.samples))
  }

  function ReadFrames(load: Loads, ptr: nat, count: nat): seq<seq<seq<Word>>> {
    seq(count, i requires 0 <= i => ReadFrame(load, FrameAt(load, ptr, i)))
  }

  /** Entry i of an array of AudioParamFrame. */
  function ReadParam(load: Loads, ptr: nat, i: nat): seq<Word> {
    SamplesAt(load, load(ptr + i * PARAM_SIZE + 4), load(ptr + i * PARAM_SIZE))
  }

  function ReadParams(load: Loads, ptr: nat, count: nat): seq<seq<Word>> {
    seq(count, i requires 0 <= i => ReadParam(load, ptr, i))
  }

  // ----- reading back

  /** These words are loaded from a byte address on. */
  predicate Holds(load: Loads, ptr: nat, words: seq<Word>) {
    forall k :: 0 <= k < |words| ==> load(ptr + 4 * k) == words[k]
  }

  lemma HoldsParts(load: Loads, ptr: nat, first: seq<Word>, second: seq<Word>)
    requires Holds(load, ptr, first + second)
    ensures Holds(load, ptr, first) && Holds(load, ptr + 4 * |first|, second)
  {
    forall k | 0 <= k < |first| ensures load(ptr + 4 * k) == first[k] {
      assert first[k] == (first + second)[k];
    }
    forall k | 0 <= k < |second| ensures load(ptr + 4 * |first| + 4 * k) == second[k] {
      assert second[k] == (first + second)[|first| + k];
    }
  }

  lemma HoldsThreeParts(load: Loads, ptr: nat, first: seq<Word>, second: seq<Word>, third: seq<Word>)
    requires Holds(load, ptr, first + second + third)
    ensures Holds(load, ptr, first) && Holds(load, ptr + 4 * |first|, second)
    ensures Holds(load, ptr + 4 * |first| + 4 * |second|, third)
  {
    HoldsParts(load, ptr, first + second, third);
    HoldsParts(load, ptr, first, second);
  }

  lemma {:induction false} FrameLoads<T>(
      load: Loads, ptr: nat, lists: seq<seq<T>>, samples: nat, data: nat, i: nat)
    requires Holds(load, ptr, FrameWords(lists, samples, data)) && i < |lists|
    ensures FrameAt(load, ptr, i) == Frame(U32(|lists[i]|), U32(samples), U32(Past(lists[..i], samples, data)))
  {
    var words := FrameWords(lists, samples, data);
    FrameWordsAt(lists, samples, data, i);
    assert load(ptr + 4 * (3 * i)) == words[3 * i];
    assert load(ptr + 4 * (3 * i + 1)) == words[3 * i + 1];
    assert load(ptr + 4 * (3 * i + 2)) == words[3 * i + 2];
  }

  lemma {:induction false} FrameReadsBack<T>(
      load: Loads, ptr: nat, lists: seq<seq<T>>, samples: nat, data: nat, i: nat)
    requires Holds(load, ptr, FrameWords(lists, samples, data)) && i < |lists|
    requires 0 < samples < 0x1_0000_0000 && Past(lists, samples, data) < 0x1_0000_0000
    ensures FrameAt(load, ptr, i) == Frame(|lists[i]|, samples, Past(lists[..i], samples, data))
  {
    FrameLoads(load, ptr, lists, samples, data, i);
    FlattenPart(lists, i);
    Small(|Flatten(lists[..i])|, |lists[i]|, |Flatten(lists)|, samples);
  }

  lemma Small(before: nat, channels: nat, all: nat, samples: nat)
    requires before + channels <= all && 0 < samples
    ensures Span(before, samples) <= Span(all, samples) && channels <= Span(all, samples)
  {
    SpanAdds(before, channels, samples);
    SpanAdds(before + channels, all - before - channels, samples);
    SpanCovers(channels, samples);
  }

  /** A channel of a list of inputs has its samples at the place the descriptors give. */
  lemma {:induction false} ChannelReadsBack(
      load: Loads, inputs: seq<seq<seq<Word>>>, samples: nat, data: nat, i: nat, c: nat)
    requires Quanta(inputs, samples) && i < |inputs| && c < |inputs[i]|
    requires Holds(load, data, InputSamples(inputs))
    ensures SamplesAt(load, Past(inputs[..i], samples, data) + 4 * Span(c, samples), samples) == inputs[i][c]
  {
    var k := |Flatten(inputs[..i])| + c;
    FlattenPart(inputs, i);
    assert Flatten(inputs)[k] == Flatten(inputs)[|Flatten(inputs[..i])|..][..|inputs[i]|][c] == inputs[i][c];
    InputChannels(inputs, samples);
    QuantumAt(Flatten(inputs), samples, k);
    SpanAdds(|Flatten(inputs[..i])|, c, samples);
    assert Past(inputs[..i], samples, data) + 4 * Span(c, samples) == data + 4 * Span(k, samples);
  }

  lemma {:induction false} QuantumAt(channels: seq<seq<Word>>, samples: nat, k: nat)
    requires k < |channels|
    requires forall c :: 0 <= c < |channels| ==> |channels[c]| == samples
    ensures Span(k, samples) + samples <= |Flatten(channels)|
    ensures Flatten(channels)[Span(k, samples)..][..samples] == channels[k]
  {
    FlattenPart(channels, k);
    FlattenQuanta(channels[..k], samples);
  }

  lemma {:induction false} InputsReadBack(
      load: Loads, ptr: nat, inputs: seq<seq<seq<Word>>>, samples: nat, data: nat)
    requires Quanta(inputs, samples)
    requires Holds(load, ptr, FrameWords(inputs, samples, data)) && Holds(load, data, InputSamples(inputs))
    requires 0 < samples < 0x1_0000_0000 && Past(inputs, samples, data) < 0x1_0000_0000
    ensures ReadFrames(load, ptr, |inputs|) == inputs
  {
    forall i | 0 <= i < |inputs| ensures ReadFrame(load, FrameAt(load, ptr, i)) == inputs[i] {
      FrameReadsBack(load, ptr, inputs, samples, data, i);
      forall c | 0 <= c < |inputs[i]| ensures ReadFrame(load, FrameAt(load, ptr, i))[c] == inputs[i][c] {
        ChannelReadsBack(load, inputs, samples, data, i, c);
      }
    }
  }

  lemma {:induction false} ParamsReadBack(load: Loads, ptr: nat, params: seq<seq<Word>>, data: nat)
    requires Holds(load, ptr, ParamWords(params, data)) && Holds(load, data, Flatten(params))
    requires data + 4 * |Flatten(params)| < 0x1_0000_0000
    ensures ReadParams(load, ptr, |params|) == params
  {
    forall i | 0 <= i < |params| ensures ReadParams(load, ptr, |params|)[i] == params[i] {
      ParamReadsBack(load, ptr, params, data, i);
    }
  }

  lemma {:induction false} ParamLoads(load: Loads, ptr: nat, params: seq<seq<Word>>, data: nat, i: nat)
    requires i < |params| && Holds(load, ptr, ParamWords(params, data))
    requires data + 4 * |Flatten(params)| < 0x1_0000_0000
    ensures load(ptr + i * PARAM_SIZE) == |params[i]|
    ensures load(ptr + i * PARAM_SIZE + 4) == data + 4 * |Flatten(params[..i])|
  {
    ParamWordsAt(params, data, i);
    FlattenPart(params, i);
    LoadedPair(load, ptr, ParamWords(params, data), i);
    StoreIsExact(|params[i]|);
    StoreIsExact(data + 4 * |Flatten(params[..i])|);
  }

  lemma LoadedPair(load: Loads, ptr: nat, words: seq<Word>, i: nat)
    requires Holds(load, ptr, words) && 2 * i + 1 < |words|
    ensures load(ptr + i * PARAM_SIZE) == words[2 * i] && load(ptr + i * PARAM_SIZE + 4) == words[2 * i + 1]
  {
    assert load(ptr + 4 * (2 * i)) == words[2 * i];
    assert load(ptr + 4 * (2 * i + 1)) == words[2 * i + 1];
  }

  lemma StoreIsExact(value: nat)
    requires value < 0x1_0000_0000
    ensures U32(value) == value
  {
  }

  lemma {:induction false} ParamReadsBack(load: Loads, ptr: nat, params: seq<seq<Word>>, data: nat, i: nat)
    requires i < |params|
    requires Holds(load, ptr, ParamWords(params, data)) && Holds(load, data, Flatten(params))
    requires data + 4 * |Flatten(params)| < 0x1_0000_0000
    ensures ReadParam(load, ptr, i) == params[i]
  {
    ParamLoads(load, ptr, params, data, i);
    FlattenPart(params, i);
  }

  // ----- the call as a whole

  lemma LoadsWords(memory: seq<Word>, ptr: nat, w: nat, words: seq<Word>)
    requires ptr == 4 * w && w + |words| <= |memory|
    requires forall k :: 0 <= k < |words| ==> memory[w + k] == words[k]
    ensures Holds(LoadFrom(memory), ptr, words)
  {
    forall k | 0 <= k < |words| ensures LoadFrom(memory)(ptr + 4 * k) == words[k] {
      assert (ptr + 4 * k) / 4 == w + k;
    }
  }

  /** Word w is one of `count` words from a byte address on. */
  predicate Between(w: nat, ptr: nat, count: nat) { ptr <= 4 * w < ptr + 4 * count }

  /** Memory with these descriptors and these samples in place, and every other word as it was. */
  ghost predicate Laid(call: seq<Word>, memory: seq<Word>, base: nat, data: nat, structs: seq<Word>, words: seq<Word>) {
    && Holds(LoadFrom(call), base, structs)
    && Holds(LoadFrom(call), data, words)
    && |call| == |memory|
    && (forall w :: 0 <= w < |memory| && !Between(w, base, |structs|) && !Between(w, data, |words|) ==> call[w] == memory[w])
  }

  lemma LayKeeps(memory: seq<Word>, base: nat, data: nat, structs: seq<Word>, words: seq<Word>, b: nat, d: nat)
    requires base == 4 * b && data == 4 * d && b + |structs| <= d && d + |words| <= |memory|
    ensures forall k :: 0 <= k < |structs| ==> Lay(memory, base, data, structs, words)[b + k] == structs[k]
    ensures forall k :: 0 <= k < |words| ==> Lay(memory, base, data, structs, words)[d + k] == words[k]
    ensures forall w :: 0 <= w < |memory| && !Between(w, base, |structs|) && !Between(w, data, |words|) ==>
      Lay(memory, base, data, structs, words)[w] == memory[w]
  {
    assert base / 4 == b && data / 4 == d;
    var described := Overwrite(memory, b, structs);
    assert Lay(memory, base, data, structs, words) == Overwrite(described, d, words);
  }

  lemma WordOf(ptr: nat) returns (w: nat)
    requires ptr % 4 == 0
    ensures ptr == 4 * w && w == ptr / 4
  {
    w := ptr / 4;
  }

  lemma LayLaid(memory: seq<Word>, base: nat, data: nat, structs: seq<Word>, words: seq<Word>)
    requires base % 4 == 0 && data % 4 == 0 && base + 4 * |structs| <= data && data / 4 + |words| <= |memory|
    ensures Laid(Lay(memory, base, data, structs, words), memory, base, data, structs, words)
  {
    var b := WordOf(base);
    var d := WordOf(data);
    LayKeeps(memory, base, data, structs, words, b, d);
    LaidWhen(Lay(memory, base, data, structs, words), memory, b, d, structs, words);
  }

  lemma LaidWhen(call: seq<Word>, memory: seq<Word>, b: nat, d: nat, structs: seq<Word>, words: seq<Word>)
    requires b + |structs| <= d && d + |words| <= |call| == |memory|
    requires forall k :: 0 <= k < |structs| ==> call[b + k] == structs[k]
    requires forall k :: 0 <= k < |words| ==> call[d + k] == words[k]
    requires forall w :: 0 <= w < |memory| && !Between(w, 4 * b, |structs|) && !Between(w, 4 * d, |words|) ==> call[w] == memory[w]
    ensures Laid(call, memory, 4 * b, 4 * d, structs, words)
  {
    LoadsWords(call, 4 * b, b, structs);
    LoadsWords(call, 4 * d, d, words);
  }

  /** The parts of what was laid out, each at the pointer the callback gets. */
  ghost predicate Described<T>(call: Call, data: nat, b: Buffers<T>) {
    var load := LoadFrom(call.memory);
    && Holds(load, call.inputsPtr, FrameWords(b.inputs, b.samples, data))
    && Holds(load, call.paramsPtr, ParamWords(b.params, ParamData(b, data)))
    && Holds(load, call.outputsPtr, FrameWords(b.outputs, b.samples, OutputData(b, data)))
    && Holds(load, data, InputSamples(b.inputs))
    && Holds(load, ParamData(b, data), Flatten(b.params))
  }

  lemma {:induction false} StructParts<T>(load: Loads, base: nat, data: nat, b: Buffers<T>)
    requires Holds(load, base, StructWords(b, data))
    ensures Holds(load, base, FrameWords(b.inputs, b.samples, data))
    ensures Holds(load, base + |b.inputs| * FRAME_SIZE, ParamWords(b.params, ParamData(b, data)))
    ensures Holds(load, base + |b.inputs| * FRAME_SIZE + |b.params| * PARAM_SIZE,
                  FrameWords(b.outputs, b.samples, OutputData(b, data)))
  {
    FrameWordsLength(b.inputs, b.samples, data);
    ParamWordsLength(b.params, ParamData(b, data));
    HoldsThreeParts(load, base, FrameWords(b.inputs, b.samples, data), ParamWords(b.params, ParamData(b, data)),
                    FrameWords(b.outputs, b.samples, OutputData(b, data)));
  }

  lemma {:induction false} DataParts<T>(load: Loads, data: nat, b: Buffers<T>)
    requires Quanta(b.inputs, b.samples) && Holds(load, data, DataWords(b))
    ensures Holds(load, data, InputSamples(b.inputs)) && Holds(load, ParamData(b, data), Flatten(b.params))
  {
    HoldsParts(load, data, InputSamples(b.inputs), Flatten(b.params));
    InputChannels(b.inputs, b.samples);
    FlattenQuanta(Flatten(b.inputs), b.samples);
  }

  lemma {:induction false} Parts<T>(call: Call, base: nat, data: nat, b: Buffers<T>)
    requires Quanta(b.inputs, b.samples)
    requires Holds(LoadFrom(call.memory), base, StructWords(b, data)) && Holds(LoadFrom(call.memory), data, DataWords(b))
    requires call == CallAt(base, b, call.memory)
    ensures Described(call, data, b)
  {
    StructParts(LoadFrom(call.memory), base, data, b);
    DataParts(LoadFrom(call.memory), data, b);
  }

  /** The descriptors and the data both survive in the memory of the call, and nothing else changes. */
  lemma {:induction false} CallHolds<T>(memory: seq<Word>, top: nat, b: Buffers<T>) returns (base: nat, data: nat)
    requires Fits(memory, top, b)
    ensures base == StructBase(top, b) && data == DataBase(top, b)
    ensures Laid(Marshalled(memory, top, b).memory, memory, base, data, StructWords(b, data), DataWords(b))
    ensures Marshalled(memory, top, b) == CallAt(base, b, Marshalled(memory, top, b).memory)
  {
    Places(memory, top, b);
    base, data := StructBase(top, b), DataBase(top, b);
    LayLaid(memory, base, data, StructWords(b, data), DataWords(b));
  }

  lemma {:induction false} CallDescribes<T>(memory: seq<Word>, top: nat, b: Buffers<T>) returns (base: nat, data: nat)
    requires Fits(memory, top, b)
    ensures base == top - StackBytes(b) && base + StructBytes(b) <= data
    ensures Described(Marshalled(memory, top, b), data, b)
    ensures Marshalled(memory, top, b) == CallAt(base, b, Marshalled(memory, top, b).memory)
    ensures Past(b.outputs, b.samples, OutputData(b, data)) == top
  {
    Regions(top, b);
    base, data := CallHolds(memory, top, b);
    Parts(Marshalled(memory, top, b), base, data, b);
  }

  /** The callback finds every input and every parameter exactly as the browser passed them. */
  lemma {:induction false} CallbackReadsInputs<T>(memory: seq<Word>, top: nat, b: Buffers<T>)
    requires Fits(memory, top, b)
    ensures
      var call := Marshalled(memory, top, b);
      ReadFrames(LoadFrom(call.memory), call.inputsPtr, call.numInputs) == b.inputs
  {
    var base, data := CallDescribes(memory, top, b);
    var call := Marshalled(memory, top, b);
    InputsReadBack(LoadFrom(call.memory), call.inputsPtr, b.inputs, b.samples, data);
  }

  lemma {:induction false} CallbackReadsParams<T>(memory: seq<Word>, top: nat, b: Buffers<T>)
    requires Fits(memory, top, b)
    ensures
      var call := Marshalled(memory, top, b);
      ReadParams(LoadFrom(call.memory), call.paramsPtr, call.numParams) == b.params
  {
    var base, data := CallDescribes(memory, top, b);
    var call := Marshalled(memory, top, b);
    ParamsReadBack(LoadFrom(call.memory), call.paramsPtr, b.params, ParamData(b, data));
  }

  /** Entry i of the output frames describes output i, its channels ending where the channels of the
      outputs behind it start. */
  ghost predicate PointsToOutput<T>(call: Call, top: nat, b: Buffers<T>, i: nat)
    requires i < |b.outputs|
  {
    var frame := FrameAt(LoadFrom(call.memory), call.outputsPtr, i);
    && frame.channels == |b.outputs[i]| && frame.samples == b.samples
    && |Flatten(b.outputs[..i])| <= |Flatten(b.outputs)|
    && frame.data + 4 * Span(|Flatten(b.outputs)| - |Flatten(b.outputs[..i])|, b.samples) == top
  }

  lemma {:induction false} OutputFrame<T>(call: Call, data: nat, top: nat, b: Buffers<T>, i: nat)
    requires Described(call, data, b) && i < |b.outputs| && 0 < b.samples < 0x1_0000_0000 && top < 0x1_0000_0000
    requires Past(b.outputs, b.samples, OutputData(b, data)) == top
    ensures PointsToOutput(call, top, b, i)
  {
    FrameReadsBack(LoadFrom(call.memory), call.outputsPtr, b.outputs, b.samples, OutputData(b, data), i);
    FlattenPart(b.outputs, i);
    SpanAdds(|Flatten(b.outputs[..i])|, |Flatten(b.outputs)| - |Flatten(b.outputs[..i])|, b.samples);
  }

  /** Each output frame points to its own stretch below the top of the stack. */
  lemma {:induction false} CallbackFindsOutputs<T>(memory: seq<Word>, top: nat, b: Buffers<T>, i: nat)
    requires Fits(memory, top, b) && i < |b.outputs|
    ensures Marshalled(memory, top, b).numOutputs == |b.outputs|
    ensures PointsToOutput(Marshalled(memory, top, b), top, b, i)
  {
    var base, data := CallDescribes(memory, top, b);
    OutputFrame(Marshalled(memory, top, b), data, top, b, i);
  }

  lemma {:induction false} CallbackFindsAllOutputs<T>(memory: seq<Word>, top: nat, b: Buffers<T>)
    requires Fits(memory, top, b)
    ensures forall i :: 0 <= i < |b.outputs| ==> PointsToOutput(Marshalled(memory, top, b), top, b, i)
  {
    forall i | 0 <= i < |b.outputs| ensures PointsToOutput(Marshalled(memory, top, b), top, b, i) {
      CallbackFindsOutputs(memory, top, b, i);
    }
  }
}
