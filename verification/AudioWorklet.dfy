/** The audio worklet processor (src/audio_worklet.js): output views made once at the top of the stack,
    and the marshalling around every call of the Wasm callback. */
module AudioWorklets {
  import opened AudioLayout
  import opened AudioSteps

  const MAX_VIEWS := 64

  /** A view of the heap: its first word and its length in words. */
  datatype View = View(start: nat, length: nat)

  // ----- where the views lie

  function Min(a: nat, b: nat): nat { if a <= b then a else b }

  function ViewCount(stackSize: nat, samples: nat): nat
    requires stackSize >= STACK_ALIGN && samples > 0
  {
    Min((stackSize - STACK_ALIGN) / (samples * 4), MAX_VIEWS)
  }

  /** View k of `count`: the views run backwards from the stack top. */
  function ViewAt(top: nat, count: nat, samples: nat, k: nat): View
    requires k < count && 4 * Span(count, samples) <= top
  {
    View(RoundDown(top - 4 * Span(count, samples)) / 4 + Span(count - 1 - k, samples), samples)
  }

  /** The views fit the stack they are allocated on, with room for one descriptor to spare. */
  lemma {:induction false} ViewsFit(stackSize: nat, samples: nat)
    requires stackSize >= STACK_ALIGN && samples > 0
    ensures 4 * Span(ViewCount(stackSize, samples), samples) <= stackSize - STACK_ALIGN
  {
    var count := ViewCount(stackSize, samples);
    var room := stackSize - STACK_ALIGN;
    SpanIsProduct(count, samples);
    Quotient(room, samples * 4, count);
    assert count * (samples * 4) == 4 * (count * samples);
  }

  lemma Quotient(room: nat, unit: nat, count: nat)
    requires unit > 0 && count <= room / unit
    ensures count * unit <= room
  {
    assert (room / unit) * unit <= room;
    assert count * unit <= (room / unit) * unit;
  }

  /** View k ends k channels below the stack top exactly when the views fill whole stack units. */
  lemma {:induction false} ViewsMatchStackTop(top: nat, count: nat, samples: nat, k: nat)
    requires top % STACK_ALIGN == 0 && k < count && 4 * Span(count, samples) <= top
    ensures 4 * ViewAt(top, count, samples, k).start + 4 * Span(k + 1, samples) == top
       <==> 4 * Span(count, samples) % STACK_ALIGN == 0
  {
    SpanAdds(count - 1 - k, k + 1, samples);
    RoundedDown(top - 4 * Span(count, samples), Span(count, samples), top);
  }

  lemma RoundedDown(address: nat, words: nat, top: nat)
    requires address + 4 * words == top && top % STACK_ALIGN == 0
    ensures 4 * (RoundDown(address) / 4) == RoundDown(address)
    ensures RoundDown(address) == address <==> 4 * words % STACK_ALIGN == 0
  {
    var units, rest := address / STACK_ALIGN, address % STACK_ALIGN;
    var stack := UnitsOf(top);
    RoundDownIs(address, units, rest);
    UnitsLeft(stack - units, rest, words);
  }

  lemma RoundDownIs(address: nat, units: nat, rest: nat)
    requires units == address / STACK_ALIGN && rest == address % STACK_ALIGN
    ensures address == STACK_ALIGN * units + rest && RoundDown(address) == STACK_ALIGN * units
    ensures 4 * (RoundDown(address) / 4) == RoundDown(address)
  {
    Quarter(STACK_ALIGN * units, 4 * units);
  }

  lemma Quarter(bytes: nat, words: nat)
    requires bytes == 4 * words
    ensures bytes / 4 == words
  {
  }

  lemma UnitsLeft(units: int, rest: nat, words: nat)
    requires rest + 4 * words == STACK_ALIGN * units && rest < STACK_ALIGN
    ensures rest == 0 <==> 4 * words % STACK_ALIGN == 0
  {
    if rest == 0 {
      WholeUnits(units);
    } else {
      Remainder(4 * words, units - 1, STACK_ALIGN - rest);
    }
  }

  lemma Remainder(bytes: int, units: int, rest: nat)
    requires bytes == STACK_ALIGN * units + rest && rest < STACK_ALIGN
    ensures bytes % STACK_ALIGN == rest
  {
  }

  lemma AtLeastOne(room: nat, unit: nat)
    requires 0 < unit <= room
    ensures room / unit > 0
  {
  }

  lemma {:induction false} FlattenAdds<T>(first: seq<seq<T>>, second: seq<seq<T>>)
    ensures Flatten(first + second) == Flatten(first) + Flatten(second)
  {
    if |second| == 0 {
      assert first + second == first;
    } else {
      var last := |second| - 1;
      FlattenAdds(first, second[..last]);
      assert (first + second)[..|first| + last] == first + second[..last];
    }
  }

  lemma {:induction false} FlattenStep<T>(lists: seq<seq<T>>, i: nat)
    requires i < |lists|
    ensures Flatten(lists[..i + 1]) == Flatten(lists[..i]) + lists[i]
    ensures |Flatten(lists[..i + 1])| <= |Flatten(lists)|
  {
    assert lists[..i + 1][..i] == lists[..i];
    assert lists[..i + 1] + lists[i + 1..] == lists;
    FlattenAdds(lists[..i + 1], lists[i + 1..]);
  }

  lemma {:induction false} FrameWordsStep<T>(lists: seq<seq<T>>, samples: nat, data: nat, i: nat)
    requires i < |lists|
    ensures FrameWords(lists[..i + 1], samples, data)
         == FrameWords(lists[..i], samples, data) + [U32(|lists[i]|), U32(samples), U32(Past(lists[..i], samples, data))]
    ensures |FrameWords(lists[..i + 1], samples, data)| == 3 * (i + 1)
  {
    assert lists[..i + 1][..i] == lists[..i];
    FrameWordsLength(lists[..i + 1], samples, data);
  }

  lemma {:induction false} InputStep(inputs: seq<seq<seq<Word>>>, samples: nat, i: nat)
    requires i < |inputs| && Quanta(inputs, samples)
    ensures InputSamples(inputs[..i + 1]) == InputSamples(inputs[..i]) + Flatten(inputs[i])
    ensures |Flatten(inputs[i])| == Span(|inputs[i]|, samples)
    ensures Span(|Flatten(inputs[..i + 1])|, samples) == Span(|Flatten(inputs[..i])|, samples) + Span(|inputs[i]|, samples)
    ensures Span(|Flatten(inputs[..i + 1])|, samples) <= Span(|Flatten(inputs)|, samples)
  {
    FlattenStep(inputs, i);
    FlattenAdds(Flatten(inputs[..i]), inputs[i]);
    FlattenQuanta(inputs[i], samples);
    SpanAdds(|Flatten(inputs[..i])|, |inputs[i]|, samples);
    SpanAdds(|Flatten(inputs[..i + 1])|, |Flatten(inputs)| - |Flatten(inputs[..i + 1])|, samples);
  }

  lemma {:induction false} ParamWordsStep(params: seq<seq<Word>>, data: nat, i: nat)
    requires i < |params|
    ensures ParamWords(params[..i + 1], data)
         == ParamWords(params[..i], data) + [U32(|params[i]|), U32(data + 4 * |Flatten(params[..i])|)]
    ensures |ParamWords(params[..i], data)| == 2 * i
  {
    assert params[..i + 1][..i] == params[..i];
    ParamWordsLength(params[..i], data);
  }

  lemma {:induction false} PastStep<T>(lists: seq<seq<T>>, samples: nat, bytes: nat, data: nat, i: nat)
    requires i < |lists| && bytes == samples * 4
    ensures Past(lists[..i + 1], samples, data) == Past(lists[..i], samples, data) + bytes * |lists[i]|
  {
    FlattenStep(lists, i);
    SpanAdds(|Flatten(lists[..i])|, |lists[i]|, samples);
    SpanIsProduct(|lists[i]|, samples);
    assert bytes * |lists[i]| == 4 * (|lists[i]| * samples);
  }

  /** What a view shows of the heap. */
  function ViewWords(memory: seq<Word>, view: View): seq<Word> {
    if view.start + view.length <= |memory| then memory[view.start..][..view.length] else []
  }

  lemma DataBytesIs<T>(b: Buffers<T>, bytes: nat)
    requires bytes == b.samples * 4
    ensures |Flatten(b.inputs)| * bytes + |Flatten(b.outputs)| * bytes + |Flatten(b.params)| * 4 == DataBytes(b)
  {
    ChannelBytes(|Flatten(b.inputs)|, b.samples, bytes);
    ChannelBytes(|Flatten(b.outputs)|, b.samples, bytes);
  }

  lemma ChannelBytes(count: nat, samples: nat, bytes: nat)
    requires bytes == samples * 4
    ensures count * bytes == 4 * Span(count, samples)
  {
    SpanIsProduct(count, samples);
    assert count * (samples * 4) == 4 * (count * samples);
  }

  lemma {:induction false} EntryInFlat<T>(lists: seq<seq<T>>, i: nat)
    requires i < |lists|
    ensures |Flatten(lists[..i])| + |lists[i]| <= |Flatten(lists)|
    ensures forall c :: 0 <= c < |lists[i]| ==> lists[i][c] == Flatten(lists)[|Flatten(lists[..i])| + c]
  {
    FlattenPart(lists, i);
    forall c | 0 <= c < |lists[i]| ensures lists[i][c] == Flatten(lists)[|Flatten(lists[..i])| + c] {
      assert lists[i][c] == Flatten(lists)[|Flatten(lists[..i])|..][..|lists[i]|][c];
    }
  }

  /** The memory a callback leaves behind. */
  function Left(reply: Reply, words: nat): seq<Word> { seq<Word>(words, w requires 0 <= w => reply.store(w)) }

  /** The view an output channel is read from. */
  function OutputView<T>(top: nat, count: nat, b: Buffers<T>, i: nat, c: nat): View
    requires |Flatten(b.outputs)| <= count && 4 * Span(count, b.samples) <= top && i < |b.outputs|
    requires |Flatten(b.outputs[..i])| + c < |Flatten(b.outputs)|
  {
    ViewAt(top, count, b.samples, |Flatten(b.outputs)| - 1 - (|Flatten(b.outputs[..i])| + c))
  }

  /** That view is the channel the output's frame points to exactly when the views fill whole stack units. */
  lemma {:induction false} ViewIsOutputChannel<T>(call: Call, top: nat, b: Buffers<T>, count: nat, i: nat, c: nat)
    requires i < |b.outputs| && c < |b.outputs[i]| && PointsToOutput(call, top, b, i)
    requires |Flatten(b.outputs)| <= count && 4 * Span(count, b.samples) <= top && top % STACK_ALIGN == 0
    ensures |Flatten(b.outputs[..i])| + c < |Flatten(b.outputs)|
    ensures ChannelPtr(FrameAt(LoadFrom(call.memory), call.outputsPtr, i), c) == 4 * OutputView(top, count, b, i, c).start
       <==> 4 * Span(count, b.samples) % STACK_ALIGN == 0
  {
    var needed, before := |Flatten(b.outputs)|, |Flatten(b.outputs[..i])|;
    FlattenPart(b.outputs, i);
    SpanAdds(c, needed - before - c, b.samples);
    ViewsMatchStackTop(top, count, b.samples, needed - 1 - (before + c));
  }

  /** Then what the callback leaves where the frame points is what the view shows. */
  lemma {:induction false} ViewShowsOutputChannel<T>(
      call: Call, top: nat, b: Buffers<T>, count: nat, i: nat, c: nat, after: seq<Word>)
    requires i < |b.outputs| && c < |b.outputs[i]| && PointsToOutput(call, top, b, i)
    requires |Flatten(b.outputs)| <= count && 4 * Span(count, b.samples) <= top && top % STACK_ALIGN == 0
    requires 4 * Span(count, b.samples) % STACK_ALIGN == 0 && top <= 4 * |after|
    ensures |Flatten(b.outputs[..i])| + c < |Flatten(b.outputs)|
    ensures ViewWords(after, OutputView(top, count, b, i, c))
         == ReadFrame(LoadFrom(after), FrameAt(LoadFrom(call.memory), call.outputsPtr, i))[c]
  {
    ViewIsOutputChannel(call, top, b, count, i, c);
    var frame := FrameAt(LoadFrom(call.memory), call.outputsPtr, i);
    ViewInHeap(top, count, b.samples, |Flatten(b.outputs)| - 1 - (|Flatten(b.outputs[..i])| + c), |after|);
    ViewIsSamples(after, OutputView(top, count, b, i, c), ChannelPtr(frame, c));
  }

  lemma ViewIsSamples(memory: seq<Word>, view: View, ptr: nat)
    requires ptr == 4 * view.start && view.start + view.length <= |memory|
    ensures ViewWords(memory, view) == SamplesAt(LoadFrom(memory), ptr, view.length)
  {
    forall k | 0 <= k < view.length
      ensures ViewWords(memory, view)[k] == SamplesAt(LoadFrom(memory), ptr, view.length)[k]
    {
      LoadAt(memory, ptr, k);
    }
  }

  lemma {:induction false} ViewInHeap(top: nat, count: nat, samples: nat, k: nat, words: nat)
    requires k < count && 4 * Span(count, samples) <= top <= 4 * words
    ensures ViewAt(top, count, samples, k).start + samples <= words
  {
    SpanAdds(count - 1 - k, 1, samples);
    SpanAdds(count - k, k, samples);
  }

  /** The room there is for each part, as the writers need it. */
  lemma {:induction false} PartSizes<T>(b: Buffers<T>, base: nat, data: nat, words: nat)
    requires Quanta(b.inputs, b.samples) && base + StructBytes(b) <= data && data / 4 + |DataWords(b)| <= words
    ensures |InputSamples(b.inputs)| == Span(|Flatten(b.inputs)|, b.samples)
    ensures ParamData(b, data) == data + 4 * |InputSamples(b.inputs)|
    ensures data / 4 + |InputSamples(b.inputs)| + |Flatten(b.params)| <= words
    ensures base + |b.inputs| * FRAME_SIZE == base + 4 * |FrameWords(b.inputs, b.samples, data)|
    ensures base + |b.inputs| * FRAME_SIZE + |b.params| * PARAM_SIZE + |b.outputs| * FRAME_SIZE <= data
    ensures base + |b.inputs| * FRAME_SIZE + |b.params| * PARAM_SIZE
         == base + 4 * |FrameWords(b.inputs, b.samples, data) + ParamWords(b.params, ParamData(b, data))|
    ensures data / 4 + |DataWords(b)| <= words
  {
    InputChannels(b.inputs, b.samples);
    FlattenQuanta(Flatten(b.inputs), b.samples);
    FrameWordsLength(b.inputs, b.samples, data);
    ParamWordsLength(b.params, ParamData(b, data));
  }

  lemma {:induction false} AllParts<T>(b: Buffers<T>, data: nat, structs: seq<Word>, words: seq<Word>, start: nat)
    requires structs == FrameWords(b.inputs, b.samples, data) + ParamWords(b.params, ParamData(b, data))
    requires words == InputSamples(b.inputs) + Flatten(b.params) && start == ParamData(b, data) + 4 * |Flatten(b.params)|
    ensures structs + FrameWords(b.outputs, b.samples, start) == StructWords(b, data)
    ensures words == DataWords(b) && start == OutputData(b, data)
  {
  }

  lemma {:induction false} OneParamMore(params: seq<seq<Word>>, data: nat, i: nat, structs: seq<Word>, words: seq<Word>)
    requires i < |params|
    ensures structs + ParamWords(params[..i], data) + [U32(|params[i]|), U32(data + 4 * |Flatten(params[..i])|)]
         == structs + ParamWords(params[..i + 1], data)
    ensures words + Flatten(params[..i]) + params[i] == words + Flatten(params[..i + 1])
    ensures |structs + ParamWords(params[..i], data)| == |structs| + 2 * i
    ensures |Flatten(params[..i + 1])| == |Flatten(params[..i])| + |params[i]| <= |Flatten(params)|
  {
    FlattenStep(params, i);
    ParamWordsStep(params, data, i);
  }

  class WasmAudioWorkletProcessor {
    const samplesPerChannel: nat
    const bytesPerChannel: nat
    const stackSize: nat
    const stackTop: nat          // what the stack pointer was at construction
    const heap: array<Word>
    const callback: Call -> Reply
    var stackPtr: nat
    const outputViews: array<View>

    ghost predicate Valid()
      reads this, outputViews
    {
      && 0 < samplesPerChannel && bytesPerChannel == samplesPerChannel * 4
      && bytesPerChannel + STACK_ALIGN <= stackSize <= stackTop <= 4 * heap.Length
      && stackTop % STACK_ALIGN == 0 && stackTop < 0x1_0000_0000
      && stackPtr == stackTop
      && 4 * Span(outputViews.Length, samplesPerChannel) <= stackTop
      && forall k :: 0 <= k < outputViews.Length ==>
           outputViews[k] == ViewAt(stackTop, outputViews.Length, samplesPerChannel, k)
    }

    constructor (heap: array<Word>, stackTop: nat, stackSize: nat, samplesPerChannel: nat, callback: Call -> Reply)
      requires 0 < samplesPerChannel && samplesPerChannel * 4 + STACK_ALIGN <= stackSize <= stackTop <= 4 * heap.Length
      requires stackTop % STACK_ALIGN == 0 && stackTop < 0x1_0000_0000
      ensures Valid() && fresh(outputViews) && outputViews.Length == ViewCount(stackSize, samplesPerChannel) > 0
      ensures this.heap == heap && this.stackTop == stackTop && this.stackSize == stackSize
      ensures this.samplesPerChannel == samplesPerChannel && this.callback == callback
    {
      this.heap, this.stackTop, this.stackSize := heap, stackTop, stackSize;
      this.samplesPerChannel, this.callback := samplesPerChannel, callback;
      bytesPerChannel := samplesPerChannel * 4;
      stackPtr := stackTop;
      outputViews := new View[ViewCount(stackSize, samplesPerChannel)](_ => View(0, 0));
      new;
      ViewsFit(stackSize, samplesPerChannel);
      CreateOutputViews();
      AtLeastOne(stackSize - STACK_ALIGN, samplesPerChannel * 4);
    }

    method StackAlloc(size: nat) returns (ptr: nat)
      requires size <= stackPtr
      modifies this`stackPtr
      ensures ptr == stackPtr == RoundDown(old(stackPtr) - size)
    {
      stackPtr := RoundDown(stackPtr - size);
      ptr := stackPtr;
    }

    /** View k ends up where ViewAt says; the stack pointer is back where it was. */
    method CreateOutputViews()
      requires 0 < samplesPerChannel && bytesPerChannel == samplesPerChannel * 4
      requires 4 * Span(outputViews.Length, samplesPerChannel) <= stackPtr
      modifies this`stackPtr, outputViews
      ensures stackPtr == old(stackPtr)
      ensures forall k :: 0 <= k < outputViews.Length ==>
        outputViews[k] == ViewAt(stackPtr, outputViews.Length, samplesPerChannel, k)
    {
      var oldStackPtr := stackPtr;
      var count := outputViews.Length;
      SpanIsProduct(count, samplesPerChannel);
      assert count * bytesPerChannel == 4 * Span(count, samplesPerChannel);
      var viewData := StackAlloc(count * bytesPerChannel);
      var viewDataIdx := viewData / 4;
      var n := count - 1;
      while n >= 0
        invariant -1 <= n < count
        invariant viewDataIdx == viewData / 4 + Span(count - 1 - n, samplesPerChannel)
        invariant forall k :: n < k < count ==> outputViews[k] == ViewAt(oldStackPtr, count, samplesPerChannel, k)
      {
        outputViews[n] := View(viewDataIdx, samplesPerChannel);
        viewDataIdx := viewDataIdx + samplesPerChannel;
        n := n - 1;
      }
      stackPtr := oldStackPtr;
    }

    /** A 32-bit store, and a copy of samples into the heap; the address is in bytes. */
    method SetU32(ptr: nat, value: nat)
      requires ptr / 4 < heap.Length
      modifies heap
      ensures heap[..] == Overwrite(old(heap[..]), ptr / 4, [U32(value)])
    {
      heap[ptr / 4] := U32(value);
    }

    method SetSamples(samples: seq<Word>, ptr: nat)
      requires ptr / 4 + |samples| <= heap.Length
      modifies heap
      ensures heap[..] == Overwrite(old(heap[..]), ptr / 4, samples)
    {
      var at := ptr / 4;
      forall k | 0 <= k < |samples| { heap[at + k] := samples[k]; }
    }

    /** One descriptor word behind those already written. */
    method SetStructWord(ptr: nat, value: nat,
                         ghost was: seq<Word>, ghost base: nat, ghost data: nat, ghost structs: seq<Word>, ghost words: seq<Word>)
      requires Laid(heap[..], was, base, data, structs, words)
      requires base % 4 == 0 && data % 4 == 0 && ptr == base + 4 * |structs| && ptr + 4 <= data
      requires data / 4 + |words| <= heap.Length
      modifies heap
      ensures Laid(heap[..], was, base, data, structs + [U32(value)], words)
    {
      PutStructs(heap[..], was, base, data, structs, words, [U32(value)]);
      SetU32(ptr, value);
    }

    /** One AudioSampleFrame behind the descriptors already written. */
    method SetFrame(structPtr: nat, channels: nat, dataPtr: nat,
                    ghost was: seq<Word>, ghost base: nat, ghost data: nat, ghost structs: seq<Word>, ghost words: seq<Word>)
      requires Laid(heap[..], was, base, data, structs, words)
      requires base % 4 == 0 && data % 4 == 0 && structPtr == base + 4 * |structs| && structPtr + FRAME_SIZE <= data
      requires data / 4 + |words| <= heap.Length
      modifies heap
      ensures Laid(heap[..], was, base, data,
                   structs + [U32(channels), U32(samplesPerChannel), U32(dataPtr)], words)
    {
      var first, second, third := U32(channels), U32(samplesPerChannel), U32(dataPtr);
      SetStructWord(structPtr, channels, was, base, data, structs, words);
      SetStructWord(structPtr + 4, samplesPerChannel, was, base, data, structs + [first], words);
      SetStructWord(structPtr + 8, dataPtr, was, base, data, structs + [first] + [second], words);
      assert structs + [first] + [second] + [third] == structs + [first, second, third];
    }

    /** One block of samples behind those already written. */
    method SetBlock(block: seq<Word>, dataPtr: nat,
                    ghost was: seq<Word>, ghost base: nat, ghost data: nat, ghost structs: seq<Word>, ghost words: seq<Word>)
      requires Laid(heap[..], was, base, data, structs, words)
      requires base % 4 == 0 && data % 4 == 0 && base + 4 * |structs| <= data && dataPtr == data + 4 * |words|
      requires data / 4 + |words| + |block| <= heap.Length
      modifies heap
      ensures Laid(heap[..], was, base, data, structs, words + block)
    {
      assert dataPtr / 4 == data / 4 + |words|;
      PutSamples(heap[..], was, base, data, structs, words, block);
      SetSamples(block, dataPtr);
    }

    /** The channels of one input, one behind the other. */
    method MarshalChannels(entry: seq<seq<Word>>, start: nat,
                           ghost was: seq<Word>, ghost base: nat, ghost data: nat, ghost structs: seq<Word>, ghost words: seq<Word>)
      returns (dataPtr: nat)
      requires bytesPerChannel == samplesPerChannel * 4
      requires forall c :: 0 <= c < |entry| ==> |entry[c]| == samplesPerChannel
      requires Laid(heap[..], was, base, data, structs, words)
      requires base % 4 == 0 && data % 4 == 0 && base + 4 * |structs| <= data && start == data + 4 * |words|
      requires data / 4 + |words| + Span(|entry|, samplesPerChannel) <= heap.Length
      modifies heap
      ensures Laid(heap[..], was, base, data, structs, words + Flatten(entry))
      ensures dataPtr == start + 4 * Span(|entry|, samplesPerChannel)
    {
      dataPtr := start;
      assert words + Flatten(entry[..0]) == words;
      for c := 0 to |entry|
        invariant dataPtr == start + 4 * Span(c, samplesPerChannel)
        invariant |Flatten(entry[..c])| == Span(c, samplesPerChannel)
        invariant Laid(heap[..], was, base, data, structs, words + Flatten(entry[..c]))
      {
        ghost var done := words + Flatten(entry[..c]);
        FlattenStep(entry, c);
        assert done + entry[c] == words + Flatten(entry[..c + 1]);
        SpanAdds(c + 1, |entry| - c - 1, samplesPerChannel);
        SetBlock(entry[c], dataPtr, was, base, data, structs, done);
        dataPtr := dataPtr + bytesPerChannel;
      }
      assert entry[..|entry|] == entry;
    }

    /** Descriptors and samples of all inputs. */
    method MarshalInputs(inputs: seq<seq<seq<Word>>>, ghost was: seq<Word>, base: nat, data: nat)
      returns (structPtr: nat, dataPtr: nat)
      requires bytesPerChannel == samplesPerChannel * 4 && Quanta(inputs, samplesPerChannel)
      requires Laid(heap[..], was, base, data, [], [])
      requires base % 4 == 0 && data % 4 == 0 && base + |inputs| * FRAME_SIZE <= data
      requires data / 4 + Span(|Flatten(inputs)|, samplesPerChannel) <= heap.Length
      modifies heap
      ensures Laid(heap[..], was, base, data, FrameWords(inputs, samplesPerChannel, data), InputSamples(inputs))
      ensures structPtr == base + |inputs| * FRAME_SIZE && dataPtr == Past(inputs, samplesPerChannel, data)
    {
      structPtr, dataPtr := base, data;
      for i := 0 to |inputs|
        invariant structPtr == base + i * FRAME_SIZE && dataPtr == Past(inputs[..i], samplesPerChannel, data)
        invariant |InputSamples(inputs[..i])| == Span(|Flatten(inputs[..i])|, samplesPerChannel)
        invariant Laid(heap[..], was, base, data,
                       FrameWords(inputs[..i], samplesPerChannel, data), InputSamples(inputs[..i]))
      {
        ghost var structs := FrameWords(inputs[..i], samplesPerChannel, data);
        ghost var words := InputSamples(inputs[..i]);
        FrameWordsLength(inputs[..i], samplesPerChannel, data);
        FrameWordsStep(inputs, samplesPerChannel, data, i);
        InputStep(inputs, samplesPerChannel, i);
        SetFrame(structPtr, |inputs[i]|, dataPtr, was, base, data, structs, words);
        structPtr := structPtr + FRAME_SIZE;
        dataPtr := MarshalChannels(inputs[i], dataPtr, was, base, data,
                                   FrameWords(inputs[..i + 1], samplesPerChannel, data), words);
      }
      assert inputs[..|inputs|] == inputs;
    }

    /** Descriptors and values of all parameters. */
    method MarshalParams(params: seq<seq<Word>>, base: nat, data: nat, structStart: nat, dataStart: nat,
                         ghost was: seq<Word>, ghost structs: seq<Word>, ghost words: seq<Word>)
      returns (structPtr: nat, dataPtr: nat)
      requires Laid(heap[..], was, base, data, structs, words)
      requires base % 4 == 0 && data % 4 == 0
      requires structStart == base + 4 * |structs| && structStart + |params| * PARAM_SIZE <= data
      requires dataStart == data + 4 * |words| && data / 4 + |words| + |Flatten(params)| <= heap.Length
      modifies heap
      ensures Laid(heap[..], was, base, data, structs + ParamWords(params, dataStart), words + Flatten(params))
      ensures structPtr == structStart + |params| * PARAM_SIZE && dataPtr == dataStart + 4 * |Flatten(params)|
    {
      structPtr, dataPtr := structStart, dataStart;
      assert structs + ParamWords(params[..0], dataStart) == structs && words + Flatten(params[..0]) == words;
      for i := 0 to |params|
        invariant structPtr == structStart + i * PARAM_SIZE && dataPtr == dataStart + 4 * |Flatten(params[..i])|
        invariant Laid(heap[..], was, base, data,
                       structs + ParamWords(params[..i], dataStart), words + Flatten(params[..i]))
      {
        OneParamMore(params, dataStart, i, structs, words);
        SetParam(structPtr, params[i], dataPtr, was, base, data,
                 structs + ParamWords(params[..i], dataStart), words + Flatten(params[..i]));
        structPtr := structPtr + PARAM_SIZE;
        dataPtr := dataPtr + |params[i]| * 4;
      }
      assert params[..|params|] == params;
    }

    /** One AudioParamFrame with its values. */
    method SetParam(structPtr: nat, param: seq<Word>, dataPtr: nat,
                    ghost was: seq<Word>, ghost base: nat, ghost data: nat, ghost structs: seq<Word>, ghost words: seq<Word>)
      requires Laid(heap[..], was, base, data, structs, words)
      requires base % 4 == 0 && data % 4 == 0 && structPtr == base + 4 * |structs| && structPtr + PARAM_SIZE <= data
      requires dataPtr == data + 4 * |words| && data / 4 + |words| + |param| <= heap.Length
      modifies heap
      ensures Laid(heap[..], was, base, data, structs + [U32(|param|), U32(dataPtr)], words + param)
    {
      SetStructWord(structPtr, |param|, was, base, data, structs, words);
      SetStructWord(structPtr + 4, dataPtr, was, base, data, structs + [U32(|param|)], words);
      assert structs + [U32(|param|)] + [U32(dataPtr)] == structs + [U32(|param|), U32(dataPtr)];
      SetBlock(param, dataPtr, was, base, data, structs + [U32(|param|), U32(dataPtr)], words);
    }

    /** Descriptors of all outputs; their samples are left to the callback. */
    method MarshalOutputs<T>(outputs: seq<seq<T>>, base: nat, data: nat, structStart: nat, dataStart: nat,
                             ghost was: seq<Word>, ghost structs: seq<Word>, ghost words: seq<Word>)
      returns (dataPtr: nat)
      requires bytesPerChannel == samplesPerChannel * 4
      requires Laid(heap[..], was, base, data, structs, words)
      requires base % 4 == 0 && data % 4 == 0 && data / 4 + |words| <= heap.Length
      requires structStart == base + 4 * |structs| && structStart + |outputs| * FRAME_SIZE <= data
      modifies heap
      ensures Laid(heap[..], was, base, data, structs + FrameWords(outputs, samplesPerChannel, dataStart), words)
      ensures dataPtr == Past(outputs, samplesPerChannel, dataStart)
    {
      var structPtr := structStart;
      dataPtr := dataStart;
      assert structs + FrameWords(outputs[..0], samplesPerChannel, dataStart) == structs;
      for i := 0 to |outputs|
        invariant structPtr == structStart + i * FRAME_SIZE && dataPtr == Past(outputs[..i], samplesPerChannel, dataStart)
        invariant Laid(heap[..], was, base, data, structs + FrameWords(outputs[..i], samplesPerChannel, dataStart), words)
      {
        ghost var done := structs + FrameWords(outputs[..i], samplesPerChannel, dataStart);
        FrameWordsLength(outputs[..i], samplesPerChannel, dataStart);
        FrameWordsStep(outputs, samplesPerChannel, dataStart, i);
        SetFrame(structPtr, |outputs[i]|, dataPtr, was, base, data, done, words);
        assert done + [U32(|outputs[i]|), U32(samplesPerChannel), U32(dataPtr)]
            == structs + FrameWords(outputs[..i + 1], samplesPerChannel, dataStart);
        structPtr := structPtr + FRAME_SIZE;
        PastStep(outputs, samplesPerChannel, bytesPerChannel, dataStart, i);
        dataPtr := dataPtr + bytesPerChannel * |outputs[i]|;
      }
      assert outputs[..|outputs|] == outputs;
    }

    /** How many channels, or values, a list of lists has. */
    method Count<T>(lists: seq<seq<T>>) returns (n: nat)
      ensures n == |Flatten(lists)|
    {
      n := 0;
      for i := 0 to |lists|
        invariant n == |Flatten(lists[..i])|
      {
        FlattenStep(lists, i);
        n := n + |lists[i]|;
      }
      assert lists[..|lists|] == lists;
    }

    /** An output channel holds what view k shows. */
    ghost predicate Shows(channel: array<Word>, k: nat)
      requires k < outputViews.Length
      reads outputViews, heap, channel
    {
      channel[..] == ViewWords(heap[..], outputViews[k])
    }

    /** Arrays the samples of as many channels can be copied to. */
    ghost predicate Receives(channels: seq<array<Word>>) {
      && (forall c :: 0 <= c < |channels| ==> channels[c].Length == samplesPerChannel && channels[c] != heap)
      && (forall c, d :: 0 <= c < d < |channels| ==> channels[c] != channels[d])
    }

    /** The channels of one output, from the views below `viewsLeft` down. */
    method ReadEntry(entry: seq<array<Word>>, viewsLeft: nat)
      requires |entry| <= viewsLeft <= outputViews.Length
      requires forall v :: 0 <= v < viewsLeft ==>
        outputViews[v].length == samplesPerChannel && outputViews[v].start + samplesPerChannel <= heap.Length
      requires Receives(entry)
      modifies set a | a in entry
      ensures forall c :: 0 <= c < |entry| ==> Shows(entry[c], viewsLeft - 1 - c)
    {
      for c := 0 to |entry|
        invariant forall j :: 0 <= j < c ==> Shows(entry[j], viewsLeft - 1 - j)
      {
        var view := outputViews[viewsLeft - 1 - c];
        var channel := entry[c];
        forall w | 0 <= w < channel.Length { channel[w] := heap[view.start + w]; }
        assert channel[..] == ViewWords(heap[..], view);
      }
    }

    /** The arrays of one output are among those of all, apart from the heap and from those before them. */
    lemma SliceReceives(flat: seq<array<Word>>, before: nat, entry: seq<array<Word>>)
      requires Receives(flat) && before + |entry| <= |flat|
      requires forall c :: 0 <= c < |entry| ==> entry[c] == flat[before + c]
      ensures Receives(entry) && heap !in entry
      ensures forall a :: a in entry ==> a in flat
      ensures forall k :: 0 <= k < before ==> flat[k] !in entry
      ensures forall k :: before <= k < before + |entry| ==> flat[k] == entry[k - before]
    {
      assert entry == flat[before..before + |entry|];
    }

    lemma EntryShown(flat: seq<array<Word>>, before: nat, entry: seq<array<Word>>, needed: nat, viewsLeft: nat)
      requires viewsLeft == needed - before <= outputViews.Length && |entry| <= viewsLeft && before + |entry| <= |flat|
      requires forall k :: before <= k < before + |entry| ==> flat[k] == entry[k - before]
      requires forall c :: 0 <= c < |entry| ==> Shows(entry[c], viewsLeft - 1 - c)
      ensures forall k :: before <= k < before + |entry| ==> Shows(flat[k], needed - 1 - k)
    {
      forall k | before <= k < before + |entry| ensures Shows(flat[k], needed - 1 - k) {
        assert Shows(entry[k - before], viewsLeft - 1 - (k - before));
      }
    }

    /** All outputs, channel by channel, from the last view needed down to view 0. */
    method ReadBack(outputs: seq<seq<array<Word>>>, needed: nat)
      requires needed == |Flatten(outputs)| <= outputViews.Length
      requires forall v :: 0 <= v < needed ==>
        outputViews[v].length == samplesPerChannel && outputViews[v].start + samplesPerChannel <= heap.Length
      requires Receives(Flatten(outputs))
      modifies set a | a in Flatten(outputs)
      ensures forall k :: 0 <= k < needed ==> Shows(Flatten(outputs)[k], needed - 1 - k)
    {
      var viewsLeft := needed;
      ghost var flat := Flatten(outputs);
      forall k | 0 <= k < needed ensures allocated(flat[k]) {
        var i, c := FlattenMember(outputs, k);
      }
      for i := 0 to |outputs|
        invariant forall k :: 0 <= k < needed ==> allocated(flat[k])
        invariant viewsLeft == needed - |Flatten(outputs[..i])| && viewsLeft >= 0
        invariant forall k :: 0 <= k < needed - viewsLeft ==> Shows(flat[k], needed - 1 - k)
      {
        ghost var before := |Flatten(outputs[..i])|;
        FlattenStep(outputs, i);
        EntryInFlat(outputs, i);
        SliceReceives(flat, before, outputs[i]);
        var entry := outputs[i];
        ReadEntry(entry, viewsLeft);
        EntryShown(flat, before, entry, needed, viewsLeft);
        viewsLeft := viewsLeft - |entry|;
      }
      assert outputs[..|outputs|] == outputs;
    }

    /** Room for everything that goes onto the stack. */
    method Allocate(inputs: seq<seq<seq<Word>>>, outputs: seq<seq<array<Word>>>, params: seq<seq<Word>>)
      returns (structPtr: nat, dataPtr: nat, needed: nat)
      requires bytesPerChannel == samplesPerChannel * 4
      requires Fits(heap[..], stackPtr, Buffers(inputs, params, outputs, samplesPerChannel))
      modifies this`stackPtr
      ensures needed == |Flatten(outputs)|
      ensures structPtr == StructBase(old(stackPtr), Buffers(inputs, params, outputs, samplesPerChannel))
      ensures dataPtr == DataBase(old(stackPtr), Buffers(inputs, params, outputs, samplesPerChannel))
    {
      ghost var b := Buffers(inputs, params, outputs, samplesPerChannel);
      var stackMemoryStruct := (|inputs| + |outputs|) * FRAME_SIZE;
      var channels := Count(inputs);
      var stackMemoryData := channels * bytesPerChannel;
      needed := Count(outputs);
      stackMemoryData := stackMemoryData + needed * bytesPerChannel;
      var values := Count(params);
      stackMemoryStruct := stackMemoryStruct + |params| * PARAM_SIZE;
      stackMemoryData := stackMemoryData + values * 4;
      DataBytesIs(b, bytesPerChannel);
      var stackMemoryAligned := RoundUp(stackMemoryStruct + stackMemoryData);
      assert stackMemoryAligned == StackBytes(b);
      Regions(stackPtr, b);
      structPtr := StackAlloc(stackMemoryAligned);
      dataPtr := structPtr + (stackMemoryAligned - stackMemoryData);
    }

    /** Everything that goes onto the stack before the call; the data ends at the old stack pointer. */
    method Marshal(inputs: seq<seq<seq<Word>>>, outputs: seq<seq<array<Word>>>, params: seq<seq<Word>>)
      returns (inputsPtr: nat, paramsPtr: nat, outputsPtr: nat, dataPtr: nat, needed: nat)
      requires bytesPerChannel == samplesPerChannel * 4
      requires Fits(heap[..], stackPtr, Buffers(inputs, params, outputs, samplesPerChannel))
      modifies heap, this`stackPtr
      ensures needed == |Flatten(outputs)| && dataPtr == old(stackPtr)
      ensures Call(|inputs|, inputsPtr, |outputs|, outputsPtr, |params|, paramsPtr, heap[..])
           == Marshalled(old(heap[..]), old(stackPtr), Buffers(inputs, params, outputs, samplesPerChannel))
    {
      ghost var b := Buffers(inputs, params, outputs, samplesPerChannel);
      ghost var was, oldStackPtr := heap[..], stackPtr;
      var structPtr;
      Places(was, oldStackPtr, b);
      structPtr, dataPtr, needed := Allocate(inputs, outputs, params);
      inputsPtr := structPtr;
      ghost var data := dataPtr;
      paramsPtr, outputsPtr, dataPtr := MarshalAll(inputs, outputs, params, structPtr, dataPtr, was, b);
      Regions(oldStackPtr, b);
      LaidIsLay(heap[..], was, inputsPtr, data, StructWords(b, data), DataWords(b));
    }

    method MarshalAll(inputs: seq<seq<seq<Word>>>, outputs: seq<seq<array<Word>>>, params: seq<seq<Word>>,
                      base: nat, data: nat, ghost was: seq<Word>, ghost b: Buffers<array<Word>>)
      returns (paramsPtr: nat, outputsPtr: nat, dataPtr: nat)
      requires b == Buffers(inputs, params, outputs, samplesPerChannel)
      requires bytesPerChannel == samplesPerChannel * 4 && Quanta(inputs, samplesPerChannel) && was == heap[..]
      requires base % 4 == 0 && data % 4 == 0 && base + StructBytes(b) <= data && data / 4 + |DataWords(b)| <= heap.Length
      modifies heap
      ensures paramsPtr == base + |inputs| * FRAME_SIZE && outputsPtr == paramsPtr + |params| * PARAM_SIZE
      ensures Laid(heap[..], was, base, data, StructWords(b, data), DataWords(b))
      ensures dataPtr == Past(outputs, samplesPerChannel, OutputData(b, data))
    {
      ghost var structs := FrameWords(inputs, samplesPerChannel, data) + ParamWords(params, ParamData(b, data));
      ghost var words := InputSamples(inputs) + Flatten(params);
      PartSizes(b, base, data, heap.Length);
      paramsPtr, outputsPtr, dataPtr := MarshalGiven(inputs, params, base, data, was);
      AllParts(b, data, structs, words, dataPtr);
      dataPtr := MarshalOutputs(outputs, base, data, outputsPtr, dataPtr, was, structs, words);
    }

    /** What the callback is given to read: inputs, then parameters. */
    method MarshalGiven(inputs: seq<seq<seq<Word>>>, params: seq<seq<Word>>, base: nat, data: nat, ghost was: seq<Word>)
      returns (paramsPtr: nat, outputsPtr: nat, dataPtr: nat)
      requires bytesPerChannel == samplesPerChannel * 4 && Quanta(inputs, samplesPerChannel) && was == heap[..]
      requires base % 4 == 0 && data % 4 == 0 && base + |inputs| * FRAME_SIZE + |params| * PARAM_SIZE <= data
      requires base + |inputs| * FRAME_SIZE == base + 4 * |FrameWords(inputs, samplesPerChannel, data)|
      requires Past(inputs, samplesPerChannel, data) == data + 4 * |InputSamples(inputs)|
      requires |InputSamples(inputs)| == Span(|Flatten(inputs)|, samplesPerChannel)
      requires data / 4 + |InputSamples(inputs)| + |Flatten(params)| <= heap.Length
      modifies heap
      ensures Laid(heap[..], was, base, data,
                   FrameWords(inputs, samplesPerChannel, data) + ParamWords(params, Past(inputs, samplesPerChannel, data)),
                   InputSamples(inputs) + Flatten(params))
      ensures paramsPtr == base + |inputs| * FRAME_SIZE && outputsPtr == paramsPtr + |params| * PARAM_SIZE
      ensures dataPtr == Past(inputs, samplesPerChannel, data) + 4 * |Flatten(params)|
    {
      paramsPtr, dataPtr := MarshalInputs(inputs, was, base, data);
      outputsPtr, dataPtr := MarshalParams(params, base, data, paramsPtr, dataPtr, was,
                                           FrameWords(inputs, samplesPerChannel, data), InputSamples(inputs));
    }

    /** What the callback stored, word by word. */
    method TakeMemory(reply: Reply)
      modifies heap
      ensures heap[..] == Left(reply, heap.Length)
    {
      forall w | 0 <= w < heap.Length { heap[w] := reply.store(w); }
      assert heap[..] == Left(reply, heap.Length);
    }

    /** One render quantum: the callback gets the marshalled call, memory becomes what it leaves, and the
        outputs show that memory through the views, or stay as they were. */
    method Process(inputs: seq<seq<seq<Word>>>, outputs: seq<seq<array<Word>>>, params: seq<seq<Word>>)
      returns (active: bool)
      requires Valid()
      requires Fits(heap[..], stackPtr, Buffers(inputs, params, outputs, samplesPerChannel))
      requires StackBytes(Buffers(inputs, params, outputs, samplesPerChannel)) <= stackSize
      requires |Flatten(outputs)| <= outputViews.Length
      requires Receives(Flatten(outputs))
      modifies heap, this`stackPtr, set a | a in Flatten(outputs)
      ensures Valid()
      ensures var call := Marshalled(old(heap[..]), stackTop, Buffers(inputs, params, outputs, samplesPerChannel));
        active == callback(call).produced && heap[..] == Left(callback(call), heap.Length)
      ensures active && 4 * Span(outputViews.Length, samplesPerChannel) % STACK_ALIGN == 0 ==>
        Delivered(Marshalled(old(heap[..]), stackTop, Buffers(inputs, params, outputs, samplesPerChannel)), outputs)
      ensures active ==> forall k :: 0 <= k < |Flatten(outputs)| ==> Shows(Flatten(outputs)[k], |Flatten(outputs)| - 1 - k)
      ensures !active ==> forall i, c :: 0 <= i < |outputs| && 0 <= c < |outputs[i]| ==> outputs[i][c][..] == old(outputs[i][c][..])
    {
      ghost var was, b := heap[..], Buffers(inputs, params, outputs, samplesPerChannel);
      active := RunAndDeliver(inputs, outputs, params);
      if active && 4 * Span(outputViews.Length, samplesPerChannel) % STACK_ALIGN == 0 {
        ShownIsDeliveredTo(was, b);
      }
    }

    /** Marshalling, the call, reading back through the views, and the stack pointer put back. */
    method RunAndDeliver(inputs: seq<seq<seq<Word>>>, outputs: seq<seq<array<Word>>>, params: seq<seq<Word>>)
      returns (active: bool)
      requires Valid() && |Flatten(outputs)| <= outputViews.Length && Receives(Flatten(outputs))
      requires Fits(heap[..], stackPtr, Buffers(inputs, params, outputs, samplesPerChannel))
      modifies heap, this`stackPtr, set a | a in Flatten(outputs)
      ensures Valid()
      ensures var call := Marshalled(old(heap[..]), stackTop, Buffers(inputs, params, outputs, samplesPerChannel));
        active == callback(call).produced && heap[..] == Left(callback(call), heap.Length)
      ensures active ==> forall k :: 0 <= k < |Flatten(outputs)| ==> Shows(Flatten(outputs)[k], |Flatten(outputs)| - 1 - k)
      ensures !active ==> forall i, c :: 0 <= i < |outputs| && 0 <= c < |outputs[i]| ==> outputs[i][c][..] == old(outputs[i][c][..])
    {
      var oldStackPtr := stackPtr;
      NotHeap(outputs);
      var produced, needed := Run(inputs, outputs, params);
      Deliver(produced, outputs, needed);
      stackPtr := oldStackPtr;
      active := produced;
    }

    lemma ShownIsDeliveredTo(was: seq<Word>, b: Buffers<array<Word>>)
      requires Valid() && b.samples == samplesPerChannel && |Flatten(b.outputs)| <= outputViews.Length
      requires Fits(was, stackTop, b)
      requires forall k :: 0 <= k < |Flatten(b.outputs)| ==> Shows(Flatten(b.outputs)[k], |Flatten(b.outputs)| - 1 - k)
      requires 4 * Span(outputViews.Length, samplesPerChannel) % STACK_ALIGN == 0
      ensures Delivered(Marshalled(was, stackTop, b), b.outputs)
    {
      CallbackFindsAllOutputs(was, stackTop, b);
      ShownIsDelivered(Marshalled(was, stackTop, b), b);
    }

    lemma NotHeap(outputs: seq<seq<array<Word>>>)
      requires Receives(Flatten(outputs))
      ensures forall i, c :: 0 <= i < |outputs| && 0 <= c < |outputs[i]| ==> outputs[i][c] != heap
    {
      forall i, c | 0 <= i < |outputs| && 0 <= c < |outputs[i]| ensures outputs[i][c] != heap {
        EntryInFlat(outputs, i);
      }
    }

    /** The outputs are read back only when the callback produced audio. */
    method Deliver(produced: bool, outputs: seq<seq<array<Word>>>, needed: nat)
      requires needed == |Flatten(outputs)| <= outputViews.Length && Receives(Flatten(outputs))
      requires 4 * Span(outputViews.Length, samplesPerChannel) <= stackTop <= 4 * heap.Length
      requires forall k :: 0 <= k < outputViews.Length ==>
        outputViews[k] == ViewAt(stackTop, outputViews.Length, samplesPerChannel, k)
      modifies if produced then set a | a in Flatten(outputs) else {}
      ensures produced ==> forall k :: 0 <= k < needed ==> Shows(Flatten(outputs)[k], needed - 1 - k)
    {
      if produced {
        ViewsInHeap();
        ReadBack(outputs, needed);
      }
    }

    /** Every output channel holds what memory has where its frame in the call points. */
    ghost predicate Delivered(call: Call, outputs: seq<seq<array<Word>>>)
      reads heap, set i: nat, c: nat | i < |outputs| && c < |outputs[i]| :: outputs[i][c]
    {
      forall i, c :: 0 <= i < |outputs| && 0 <= c < |outputs[i]| ==>
        HoldsChannel(outputs[i][c], FrameAt(LoadFrom(call.memory), call.outputsPtr, i), c)
    }

    ghost predicate HoldsChannel(channel: array<Word>, frame: Frame, c: nat)
      reads heap, channel
    {
      c < frame.channels && channel[..] == ReadFrame(LoadFrom(heap[..]), frame)[c]
    }

    lemma ShownIsDelivered(call: Call, b: Buffers<array<Word>>)
      requires Valid() && b.samples == samplesPerChannel && |Flatten(b.outputs)| <= outputViews.Length
      requires forall i :: 0 <= i < |b.outputs| ==> PointsToOutput(call, stackTop, b, i)
      requires forall k :: 0 <= k < |Flatten(b.outputs)| ==> Shows(Flatten(b.outputs)[k], |Flatten(b.outputs)| - 1 - k)
      requires 4 * Span(outputViews.Length, samplesPerChannel) % STACK_ALIGN == 0
      ensures Delivered(call, b.outputs)
    {
      forall i, c | 0 <= i < |b.outputs| && 0 <= c < |b.outputs[i]|
        ensures HoldsChannel(b.outputs[i][c], FrameAt(LoadFrom(call.memory), call.outputsPtr, i), c)
      {
        ShownIsHeld(call, b, i, c);
      }
    }

    lemma ShownIsHeld(call: Call, b: Buffers<array<Word>>, i: nat, c: nat)
      requires Valid() && b.samples == samplesPerChannel && i < |b.outputs| && c < |b.outputs[i]|
      requires PointsToOutput(call, stackTop, b, i) && |Flatten(b.outputs)| <= outputViews.Length
      requires forall k :: 0 <= k < |Flatten(b.outputs)| ==> Shows(Flatten(b.outputs)[k], |Flatten(b.outputs)| - 1 - k)
      requires 4 * Span(outputViews.Length, samplesPerChannel) % STACK_ALIGN == 0
      ensures HoldsChannel(b.outputs[i][c], FrameAt(LoadFrom(call.memory), call.outputsPtr, i), c)
    {
      var k := |Flatten(b.outputs[..i])| + c;
      EntryInFlat(b.outputs, i);
      assert Shows(Flatten(b.outputs)[k], |Flatten(b.outputs)| - 1 - k);
      ViewShowsOutputChannel(call, stackTop, b, outputViews.Length, i, c, heap[..]);
    }

    lemma ViewsInHeap()
      requires 4 * Span(outputViews.Length, samplesPerChannel) <= stackTop <= 4 * heap.Length
      requires forall k :: 0 <= k < outputViews.Length ==>
        outputViews[k] == ViewAt(stackTop, outputViews.Length, samplesPerChannel, k)
      ensures forall v :: 0 <= v < outputViews.Length ==>
        outputViews[v].length == samplesPerChannel && outputViews[v].start + samplesPerChannel <= heap.Length
    {
      forall v | 0 <= v < outputViews.Length
        ensures outputViews[v].length == samplesPerChannel && outputViews[v].start + samplesPerChannel <= heap.Length
      {
        ViewInHeap(stackTop, outputViews.Length, samplesPerChannel, v, heap.Length);
      }
    }

    /** The marshalled call, up to and with what the callback stored. */
    method Run(inputs: seq<seq<seq<Word>>>, outputs: seq<seq<array<Word>>>, params: seq<seq<Word>>)
      returns (produced: bool, needed: nat)
      requires bytesPerChannel == samplesPerChannel * 4
      requires Fits(heap[..], stackPtr, Buffers(inputs, params, outputs, samplesPerChannel))
      modifies heap, this`stackPtr
      ensures needed == |Flatten(outputs)|
      ensures var call := Marshalled(old(heap[..]), old(stackPtr), Buffers(inputs, params, outputs, samplesPerChannel));
        produced == callback(call).produced && heap[..] == Left(callback(call), heap.Length)
    {
      var inputsPtr, paramsPtr, outputsPtr, dataPtr;
      inputsPtr, paramsPtr, outputsPtr, dataPtr, needed := Marshal(inputs, outputs, params);
      var reply := callback(Call(|inputs|, inputsPtr, |outputs|, outputsPtr, |params|, paramsPtr, heap[..]));
      TakeMemory(reply);
      produced := reply.produced;
    }
  }
}
