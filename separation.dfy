/** `Separator.separate` (music_source_separation/inference.py): pad a clip,
    cut it into half-overlapping segments, push the segments (and the
    conditioning vector, tiled once per segment) through the model in
    mini-batches, stitch the model's `wav` segments back together and trim
    the result to the clip's length. */
module Separation {
  import opened Arith
  import opened Results
  import opened Waveforms
  import opened Framing
  import opened Batching

  /** One entry along the segment axis of a model input or output: a segment
      of shape (channels, samples), or a row of a 2-D array such as the tiled
      condition. */
  datatype Item<T> = Frame(frame: Waveform<T>) | Vector(values: seq<T>)

  datatype Option<T> = None | Some(value: T)

  /** The two entries of `input_dict` that `separate` reads: the clip under
      `waveform` and, when the key is present, the conditioning vector. */
  datatype Clip<T> = Clip(waveform: Waveform<T>, condition: Option<seq<T>>)

  /** The fields of a `Separator`: the model as a function from a batch
      dictionary to an output dictionary, the segment length and the batch size. */
  datatype Separator<!T> = Separator(model: Batch<Item<T>> -> Batch<Item<T>>, segmentSamples: nat, batchSize: nat)

  /** The segment stack as an array along the segment axis. */
  function FrameItems<T>(segments: seq<Waveform<T>>): (r: seq<Item<T>>)
    ensures |r| == |segments| && forall i | 0 <= i < |segments| :: r[i] == Frame(segments[i])
  {
    seq(|segments|, i requires 0 <= i < |segments| => Frame(segments[i]))
  }

  /** `segments_input_dict`: the segments under `waveform` and, when a
      condition is given, `np.tile(condition[None, :], (segments_num, 1))`
      under `condition` — one copy of the vector per segment. */
  function SegmentsInput<T>(segments: seq<Waveform<T>>, condition: Option<seq<T>>): (r: Batch<Item<T>>)
    ensures r.Keys == if condition.Some? then {WaveformKey, ConditionKey} else {WaveformKey}
    ensures r[WaveformKey] == FrameItems(segments)
    ensures condition.Some? ==>
              |r[ConditionKey]| == |segments| &&
              forall i | 0 <= i < |segments| :: r[ConditionKey][i] == Vector(condition.value)
  {
    var waveform := map[WaveformKey := FrameItems(segments)];
    match condition
    case None => waveform
    case Some(c) => waveform[ConditionKey := seq(|segments|, _ => Vector(c))]
  }

  /** The model's `wav` array read as a segment stack: every entry must be a
      segment, all of one shape; anything else has no `(segments, channels,
      samples)` shape for `deframe` to unpack. */
  function FramesOf<T>(items: seq<Item<T>>): (r: Result<seq<Waveform<T>>>)
    ensures r.Ok? <==> (forall i | 0 <= i < |items| :: items[i].Frame?) &&
                       IsStack(seq(|items|, i requires 0 <= i < |items| => items[i].frame))
    ensures r.Err? ==> r.error == ShapeMismatch
    ensures r.Ok? ==> IsStack(r.value) && FrameItems(r.value) == items
  {
    if forall i | 0 <= i < |items| :: items[i].Frame? then
      var segments := seq(|items|, i requires 0 <= i < |items| => items[i].frame);
      if IsStack(segments) then
        assert FrameItems(segments) == items;
        Ok(segments)
      else Err(ShapeMismatch)
    else Err(ShapeMismatch)
  }

  /** The first half of `separate`: pad the clip, enframe it and build
      `segments_input_dict`. A zero segment length divides by zero; a clip
      with no samples gives an empty segment axis. */
  function SegmentsFor<T>(input: Clip<T>, segmentSamples: nat, zero: T): (r: Result<Batch<Item<T>>>)
    requires input.waveform.Valid() && segmentSamples != 1
    ensures r.Err? <==> segmentSamples == 0
    ensures r.Err? ==> r.error == DivisionByZero
    ensures r.Ok? ==> WaveformKey in r.value &&
                      (|r.value[WaveformKey]| == 0 <==> input.waveform.samples == 0)
  {
    var audio :- PadAudio(input.waveform, segmentSamples, zero);
    // the padded length is a multiple of the segment length, so enframe's assertion holds
    var enframed := Enframed(audio, segmentSamples);
    assert enframed.Ok?;
    var segments := enframed.value;
    PaddedSamples(input.waveform.samples, audio.samples, segmentSamples);
    assert audio.samples > 0 ==> FrameFits(audio.samples, segmentSamples, 0);
    Ok(SegmentsInput(segments, input.condition))
  }

  /** The second half of `separate`: take the model's `wav` array, deframe it
      and keep the first `samples` samples, or all of them when there are fewer. */
  function Reassembled<T>(outputs: Batch<Item<T>>, samples: nat): (r: Result<Waveform<T>>)
    ensures OutputKey !in outputs ==> r == Err(MissingKey(OutputKey))
    ensures r.Ok? ==> r.value.Valid() && r.value.samples <= samples
  {
    if OutputKey !in outputs then
      Err(MissingKey(OutputKey))
    else
      var sepSegments :- FramesOf(outputs[OutputKey]);
      var sepAudio :- Deframed(sepSegments);
      Ok(Slice(sepAudio, 0, Min(samples, sepAudio.samples)))
  }

  /** What `Separator.separate` returns. A zero segment length divides by zero
      while padding; a clip with no samples yields no segments, so the model
      is never called and the lookup of `wav` fails. */
  function Separated<T>(sep: Separator<T>, input: Clip<T>, zero: T): (r: Result<Waveform<T>>)
    requires input.waveform.Valid() && sep.segmentSamples != 1 && sep.batchSize > 0
    ensures sep.segmentSamples == 0 ==> r == Err(DivisionByZero)
    ensures sep.segmentSamples > 0 && input.waveform.samples == 0 ==> r == Err(MissingKey(OutputKey))
    ensures r.Ok? ==> r.value.Valid() && r.value.samples <= input.waveform.samples
  {
    var segmentsInput :- SegmentsFor(input, sep.segmentSamples, zero);
    // the segment dictionary always holds `waveform`, so the mini-batch loop finds it
    var forwarded := Forwarded(sep.model, segmentsInput, sep.batchSize);
    assert forwarded.Ok?;
    var outputs := forwarded.value;
    Reassembled(outputs, input.waveform.samples)
  }

  /** `Separator.separate`. */
  method Separate<T>(sep: Separator<T>, input: Clip<T>, zero: T) returns (r: Result<Waveform<T>>)
    requires input.waveform.Valid() && sep.segmentSamples != 1 && sep.batchSize > 0
    ensures r == Separated(sep, input, zero)
  {
    var audioSamples := input.waveform.samples;
    var audio :- PadAudio(input.waveform, sep.segmentSamples, zero);
    var enframed := Enframe(audio, sep.segmentSamples);
    assert enframed.Ok?;
    var segments := enframed.value;
    var segmentsInput := SegmentsInput(segments, input.condition);
    var forwarded;
    ghost var batches;
    forwarded, batches := ForwardInMiniBatches(sep.model, segmentsInput, sep.batchSize);
    assert forwarded.Ok?;
    var outputs := forwarded.value;
    if OutputKey !in outputs {
      return Err(MissingKey(OutputKey));
    }
    var sepSegments :- FramesOf(outputs[OutputKey]);
    var sepAudio :- Deframe(sepSegments);
    return Ok(Slice(sepAudio, 0, Min(audioSamples, sepAudio.samples)));
  }

  /** A padded non-empty clip holds at least one segment, exactly one when the
      clip is no longer than a segment, and two or more otherwise. */
  lemma {:induction false} PaddedSamples(samples: nat, padded: nat, segmentSamples: nat)
    requires segmentSamples > 0 && samples <= padded < samples + segmentSamples
    requires padded % segmentSamples == 0
    ensures samples == 0 ==> padded == 0
    ensures 0 < samples <= segmentSamples ==> padded == segmentSamples
    ensures samples > segmentSamples ==> padded >= 2 * segmentSamples
  {
    var m := padded / segmentSamples;
    assert padded == m * segmentSamples by {
      DivMod(padded, segmentSamples);
    }
    if m >= 2 {
      MulMono(2, m, segmentSamples);
    } else if m == 1 {
      assert padded == segmentSamples;
    } else {
      assert padded == 0;
    }
  }

  // ---------------------------------------------------------------- properties

  /** Once the segment dictionary and the model's outputs are known, `separate`
      reassembles the outputs. */
  lemma {:induction false} SeparatedOf<T>(sep: Separator<T>, input: Clip<T>, zero: T,
                                          segmentsInput: Batch<Item<T>>, outputs: Batch<Item<T>>)
    requires input.waveform.Valid() && sep.segmentSamples != 1 && sep.batchSize > 0
    requires SegmentsFor(input, sep.segmentSamples, zero) == Ok(segmentsInput)
    requires Forwarded(sep.model, segmentsInput, sep.batchSize) == Ok(outputs)
    ensures Separated(sep, input, zero) == Reassembled(outputs, input.waveform.samples)
  {
  }

  /** Reading back the segment stack `separate` hands to the model gives the stack. */
  lemma {:induction false} FramesOfFrameItems<T>(segments: seq<Waveform<T>>)
    requires IsStack(segments)
    ensures FramesOf(FrameItems(segments)) == Ok(segments)
  {
    var items := FrameItems(segments);
    assert seq(|items|, i requires 0 <= i < |items| => items[i].frame) == segments;
  }

  /** Trimming the padded clip to the clip's length gives the clip back. */
  lemma {:induction false} TrimPadded<T>(w: Waveform<T>, segmentSamples: nat, zero: T)
    requires w.Valid() && segmentSamples > 0
    ensures PadAudio(w, segmentSamples, zero).Ok?
    ensures var x := PadAudio(w, segmentSamples, zero).value;
            w.samples <= x.samples && Slice(x, 0, w.samples) == w
  {
    var x := PadAudio(w, segmentSamples, zero).value;
    var y := Slice(x, 0, w.samples);
    forall c | 0 <= c < |w.channels|
      ensures y.channels[c] == w.channels[c]
    {
      assert x.channels[c][..w.samples] == w.channels[c];
    }
  }

  /** The model's `wav` array, when it is a segment stack, is deframed and trimmed. */
  lemma {:induction false} ReassembledStack<T>(segments: seq<Waveform<T>>, samples: nat)
    requires IsStack(segments)
    ensures Deframed(segments).Err? ==>
              Reassembled(map[OutputKey := FrameItems(segments)], samples) == Err(Deframed(segments).error)
    ensures Deframed(segments).Ok? ==>
              var out := Deframed(segments).value;
              Reassembled(map[OutputKey := FrameItems(segments)], samples) == Ok(Slice(out, 0, Min(samples, out.samples)))
  {
    FramesOfFrameItems(segments);
  }

  /** The row function of a model that echoes its input: the segment itself. */
  function Echo<T>(row: map<string, Item<T>>): Item<T> {
    if WaveformKey in row then row[WaveformKey] else Vector([])
  }

  /** A model that echoes `waveform` as `wav` gets the segments back through the
      mini-batch loop, whatever the batch size and the condition. */
  lemma {:induction false} ForwardEcho<T>(segments: seq<Waveform<T>>, condition: Option<seq<T>>, batchSize: nat)
    requires batchSize > 0 && |segments| > 0
    ensures Forwarded(Rowwise(Echo, OutputKey), SegmentsInput(segments, condition), batchSize)
              == Ok(map[OutputKey := FrameItems(segments)])
  {
    var segmentsInput := SegmentsInput(segments, condition);
    ForwardRowwise(Echo, OutputKey, segmentsInput, batchSize);
    var items := FrameItems(segments);
    forall i | 0 <= i < |items|
      ensures RowsOf(Echo, segmentsInput)[i] == items[i]
    {
      assert Row(segmentsInput, i)[WaveformKey] == items[i];
    }
    assert RowsOf(Echo, segmentsInput) == items;
  }

  /** With a model that returns its input segments unchanged, separating gives
      the clip back: padding, enframing, mini-batching, deframing and
      trimming undo one another. This needs a segment length divisible by four
      unless the clip fits in one segment, and a non-empty clip. */
  lemma {:induction false} SeparateEcho<T>(sep: Separator<T>, input: Clip<T>, zero: T)
    requires input.waveform.Valid() && sep.segmentSamples >= 2 && sep.batchSize > 0
    requires sep.model == Rowwise(Echo, OutputKey)
    requires input.waveform.samples > 0
    requires sep.segmentSamples % 4 == 0 || input.waveform.samples <= sep.segmentSamples
    ensures Separated(sep, input, zero) == Ok(input.waveform)
  {
    var w, L := input.waveform, sep.segmentSamples;
    TrimPadded(w, L, zero);
    var x := PadAudio(w, L, zero).value;
    var frames := Frames(x, L);
    var segmentsInput := SegmentsInput(frames, input.condition);
    var items := FrameItems(frames);
    assert SegmentsFor(input, L, zero) == Ok(segmentsInput) && IsStack(frames) by {
      PaddedSamples(w.samples, x.samples, L);
      FramesStack(x, L);
      assert FrameFits(x.samples, L, 0);
    }
    ForwardEcho(frames, input.condition, sep.batchSize);
    assert Reassembled(map[OutputKey := items], w.samples) == Ok(w) by {
      PaddedSamples(w.samples, x.samples, L);
      DeframeEnframe(x, L);
      ReassembledStack(frames, w.samples);
    }
    SeparatedOf(sep, input, zero, segmentsInput, map[OutputKey := items]);
  }

  /** With a segment length not divisible by four, deframing refuses two or
      more segments: a model that returns its segments unchanged fails on any
      clip longer than one segment. */
  lemma {:induction false} SeparateNonDivisible<T>(sep: Separator<T>, input: Clip<T>, zero: T)
    requires input.waveform.Valid() && sep.segmentSamples >= 2 && sep.batchSize > 0
    requires sep.model == Rowwise(Echo, OutputKey)
    requires sep.segmentSamples % 4 != 0 && input.waveform.samples > sep.segmentSamples
    ensures Separated(sep, input, zero) == Err(NonDivisible)
  {
    var w, L := input.waveform, sep.segmentSamples;
    var x := PadAudio(w, L, zero).value;
    var frames := Frames(x, L);
    var segmentsInput := SegmentsInput(frames, input.condition);
    var items := FrameItems(frames);
    assert SegmentsFor(input, L, zero) == Ok(segmentsInput) && IsStack(frames) && |frames| >= 2 by {
      PaddedSamples(w.samples, x.samples, L);
      FramesStack(x, L);
      assert FrameFits(x.samples, L, 1);
    }
    ForwardEcho(frames, input.condition, sep.batchSize);
    assert Reassembled(map[OutputKey := items], w.samples) == Err(NonDivisible) by {
      ReassembledStack(frames, w.samples);
    }
    SeparatedOf(sep, input, zero, segmentsInput, map[OutputKey := items]);
  }

  /** Every entry is a segment of `channels` channels and `samples` samples. */
  predicate FramesShaped<T>(items: seq<Item<T>>, channels: nat, samples: nat) {
    forall i | 0 <= i < |items| ::
      items[i].Frame? && items[i].frame.Valid() &&
      items[i].frame.samples == samples && |items[i].frame.channels| == channels
  }

  /** The model answers every chunk under `wav` with one segment per input
      segment, each of `channels` channels and `samples` samples. */
  predicate ShapedModel<T>(model: Batch<Item<T>> -> Batch<Item<T>>, input: Batch<Item<T>>, batchSize: nat,
                           channels: nat, samples: nat)
    requires batchSize > 0
  {
    KeepsChunkLength(model, input, batchSize, OutputKey) &&
    forall c | 0 <= c < ChunkCount(|input[WaveformKey]|, batchSize) ::
      FramesShaped(ChunkOutput(model, input, batchSize, c)[OutputKey], channels, samples)
  }

  /** For such a model, the concatenated `wav` array has one segment per input
      segment, all of that shape. */
  lemma {:induction false} ForwardedShaped<T>(model: Batch<Item<T>> -> Batch<Item<T>>, input: Batch<Item<T>>,
                                              batchSize: nat, channels: nat, samples: nat)
    requires batchSize > 0 && ShapedModel(model, input, batchSize, channels, samples)
    requires |input[WaveformKey]| > 0
    ensures Forwarded(model, input, batchSize).Ok?
    ensures OutputKey in Forwarded(model, input, batchSize).value
    ensures |Forwarded(model, input, batchSize).value[OutputKey]| == |input[WaveformKey]|
    ensures FramesShaped(Forwarded(model, input, batchSize).value[OutputKey], channels, samples)
  {
    var n := |input[WaveformKey]|;
    ForwardedAt(model, input, batchSize, OutputKey);
    var out := Forwarded(model, input, batchSize).value[OutputKey];
    forall i | 0 <= i < |out|
      ensures out[i].Frame? && out[i].frame.Valid() &&
              out[i].frame.samples == samples && |out[i].frame.channels| == channels
    {
      var c, t := ChunkContaining(n, batchSize, i);
      assert t < |ChunkInput(input, batchSize, c)[WaveformKey]| by {
        ChunkLength(input, batchSize, c);
      }
      ForwardedEntry(model, input, batchSize, OutputKey, c, t);
      var piece := ChunkOutput(model, input, batchSize, c)[OutputKey];
      assert FramesShaped(piece, channels, samples);
      assert out[i] == piece[t];
    }
  }

  /** Segments of one shape are read back as a stack of that shape. */
  lemma {:induction false} FramesOfShaped<T>(items: seq<Item<T>>, channels: nat, samples: nat)
    requires FramesShaped(items, channels, samples)
    ensures FramesOf(items).Ok?
    ensures |FramesOf(items).value| == |items|
    ensures forall i | 0 <= i < |items| ::
              FramesOf(items).value[i].samples == samples && |FramesOf(items).value[i].channels| == channels
  {
    var segments := seq(|items|, i requires 0 <= i < |items| => items[i].frame);
    assert IsStack(segments);
    assert FrameItems(segments) == items;
  }

  /** `separate` returns a clip of the input's length for every model that
      answers each segment with one segment of the segment length: the
      `(channels_num, audio_samples)` shape its documentation promises. The
      channel count is the model's. This needs a segment length divisible by
      four unless the clip fits in one segment, and a non-empty clip. */
  lemma {:induction false} SeparatedShape<T>(sep: Separator<T>, input: Clip<T>, zero: T, channels: nat)
    requires input.waveform.Valid() && sep.segmentSamples >= 2 && sep.batchSize > 0
    requires input.waveform.samples > 0
    requires sep.segmentSamples % 4 == 0 || input.waveform.samples <= sep.segmentSamples
    requires ShapedModel(sep.model, SegmentsFor(input, sep.segmentSamples, zero).value, sep.batchSize,
                         channels, sep.segmentSamples)
    ensures Separated(sep, input, zero).Ok?
    ensures Separated(sep, input, zero).value.samples == input.waveform.samples
    ensures |Separated(sep, input, zero).value.channels| == channels
  {
    var w, L := input.waveform, sep.segmentSamples;
    var x := PadAudio(w, L, zero).value;
    var frames := Frames(x, L);
    var segmentsInput := SegmentsInput(frames, input.condition);
    assert SegmentsFor(input, L, zero) == Ok(segmentsInput) && |frames| > 0 by {
      PaddedSamples(w.samples, x.samples, L);
      assert FrameFits(x.samples, L, 0);
    }
    ForwardedShaped(sep.model, segmentsInput, sep.batchSize, channels, L);
    var outputs := Forwarded(sep.model, segmentsInput, sep.batchSize).value;
    FramesOfShaped(outputs[OutputKey], channels, L);
    var stack := FramesOf(outputs[OutputKey]).value;
    assert Deframed(stack).Ok? && Deframed(stack).value.samples >= w.samples by {
      DeframedCovers(w, x, frames, stack, L);
    }
    SeparatedOf(sep, input, zero, segmentsInput, outputs);
  }

  /** A stack with as many segments of length `L` as the padded clip has
      windows deframes to at least the clip's length. */
  lemma {:induction false} DeframedCovers<T>(w: Waveform<T>, x: Waveform<T>, frames: seq<Waveform<T>>,
                                             stack: seq<Waveform<T>>, L: nat)
    requires w.Valid() && x.Valid() && L >= 2 && w.samples > 0
    requires w.samples <= x.samples < w.samples + L && x.samples % L == 0
    requires L % 4 == 0 || w.samples <= L
    requires frames == Frames(x, L)
    requires IsStack(stack) && |stack| == |frames| && forall i | 0 <= i < |stack| :: stack[i].samples == L
    ensures Deframed(stack).Ok? && Deframed(stack).value.samples >= w.samples
  {
    PaddedSamples(w.samples, x.samples, L);
    if w.samples <= L {
      assert FrameFits(x.samples, L, 0) && !FrameFits(x.samples, L, 1);
      assert |stack| == 1;
    } else {
      var m := x.samples / L;
      assert x.samples == m * L by {
        DivMod(x.samples, L);
      }
      assert m >= 2 by {
        if m < 2 {
          MulMono(m, 1, L);
        }
      }
      FrameCountOfMultiple(L, m);
      DeframedLengthOfMultiple(stack, m);
    }
  }

  /** For a model that works segment by segment, reading each segment
      together with its copy of the condition, the batch size does not change
      what `separate` returns. */
  lemma {:induction false} SeparateBatchSizeInvariant<T>(f: map<string, Item<T>> -> Item<T>, input: Clip<T>, zero: T,
                                                         segmentSamples: nat, b1: nat, b2: nat)
    requires input.waveform.Valid() && segmentSamples != 1 && b1 > 0 && b2 > 0
    ensures var model := Rowwise(f, OutputKey);
            Separated(Separator(model, segmentSamples, b1), input, zero)
              == Separated(Separator(model, segmentSamples, b2), input, zero)
  {
    if segmentSamples > 0 && input.waveform.samples > 0 {
      var segmentsInput := SegmentsFor(input, segmentSamples, zero).value;
      BatchSizeInvariant(f, OutputKey, segmentsInput, b1, b2);
    }
  }
}
