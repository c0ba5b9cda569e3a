/** `Separator._forward_in_mini_batches` and `Separator._append_to_dict`
    (music_source_separation/inference.py): every key of a dictionary of
    equal-length arrays is pushed through the model in consecutive chunks of
    `batch_size` entries, and the outputs are gathered per key and
    concatenated. Arrays are sequences of items along their first axis. */
module Batching {
  import opened Arith
  import opened Results

  /** A dictionary of arrays that share their first (segment) axis. */
  type Batch<I> = map<string, seq<I>>

  /** The per-key lists of chunk outputs that `output_dict` holds while the loop runs. */
  type Lists<I> = map<string, seq<seq<I>>>

  const WaveformKey: string := "waveform"
  const ConditionKey: string := "condition"
  const OutputKey: string := "wav"

  /** Python's `s[lo:hi]` for `0 <= lo <= hi`: the end is clamped to the length,
      and a start past the end gives the empty list. */
  function ClampSlice<I>(s: seq<I>, lo: nat, hi: nat): (r: seq<I>)
    requires lo <= hi
    ensures |r| == if lo < |s| then Min(hi, |s|) - lo else 0
    ensures forall t | 0 <= t < |r| :: r[t] == s[lo + t]
  {
    if lo >= |s| then [] else s[lo..Min(hi, |s|)]
  }

  /** Where chunk `c` starts: the pointer after `c` steps of `pointer += batch_size`. */
  function ChunkStart(batchSize: nat, c: nat): nat {
    c * batchSize
  }

  /** The model's input for chunk `c`: every key sliced to `[start, start + B)`. */
  function ChunkInput<I>(input: Batch<I>, batchSize: nat, c: nat): Batch<I> {
    map key | key in input :: ClampSlice(input[key], ChunkStart(batchSize, c), ChunkStart(batchSize, c) + batchSize)
  }

  /** The loop over the input's keys that slices each array to `[pointer, pointer + B)`:
      at the pointer of step `c` it builds the input of chunk `c`. */
  method SliceBatch<I>(input: Batch<I>, pointer: nat, batchSize: nat, ghost c: nat) returns (batchInput: Batch<I>)
    requires pointer == ChunkStart(batchSize, c)
    ensures batchInput == ChunkInput(input, batchSize, c)
  {
    batchInput := map[];
    var pending := input.Keys;
    while pending != {}
      invariant pending <= input.Keys
      invariant batchInput == map key | key in input.Keys - pending :: ClampSlice(input[key], pointer, pointer + batchSize)
      decreases pending
    {
      var key :| key in pending;
      batchInput := batchInput[key := ClampSlice(input[key], pointer, pointer + batchSize)];
      pending := pending - {key};
    }
  }

  /** The inputs of the first `n` chunks, in order. */
  function ChunkInputs<I>(input: Batch<I>, batchSize: nat, n: nat): (r: seq<Batch<I>>)
    ensures |r| == n
  {
    seq(n, (c: int) requires 0 <= c < n => ChunkInput(input, batchSize, c))
  }

  lemma {:induction false} ChunkInputsNext<I>(input: Batch<I>, batchSize: nat, n: nat)
    ensures ChunkInputs(input, batchSize, n + 1) == ChunkInputs(input, batchSize, n) + [ChunkInput(input, batchSize, n)]
  {
  }

  /** What the model returns for chunk `c`. */
  function ChunkOutput<I>(model: Batch<I> -> Batch<I>, input: Batch<I>, batchSize: nat, c: nat): Batch<I> {
    model(ChunkInput(input, batchSize, c))
  }

  /** How many segments chunk `c` holds: `B`, or fewer for the last chunk. */
  function ChunkSize(segmentsNum: nat, batchSize: nat, c: nat): nat {
    if ChunkStart(batchSize, c) >= segmentsNum then 0
    else Min(ChunkStart(batchSize, c) + batchSize, segmentsNum) - ChunkStart(batchSize, c)
  }

  /** How many more times the loop calls the model once the pointer is at `pointer`. */
  function ChunksFrom(segmentsNum: nat, batchSize: nat, pointer: nat): nat
    requires batchSize > 0
    decreases segmentsNum - pointer
  {
    if pointer >= segmentsNum then 0 else 1 + ChunksFrom(segmentsNum, batchSize, pointer + batchSize)
  }

  /** How many times the loop calls the model. */
  function ChunkCount(segmentsNum: nat, batchSize: nat): nat
    requires batchSize > 0
  {
    ChunksFrom(segmentsNum, batchSize, 0)
  }

  /** `Separator._append_to_dict`: the value goes at the end of the key's list,
      which is created when the key is new; no other key changes. */
  function AppendToDict<I>(d: Lists<I>, key: string, value: seq<I>): (r: Lists<I>)
    ensures r.Keys == d.Keys + {key}
    ensures r[key] == (if key in d then d[key] else []) + [value]
    ensures forall k | k in d && k != key :: r[k] == d[k]
  {
    if key in d then d[key := d[key] + [value]] else d[key := [value]]
  }

  /** `output_dict` after the outputs of one more chunk are appended: every key
      of either dictionary, its old list followed by its new output if it has one. */
  function Merged<I>(d: Lists<I>, out: Batch<I>): Lists<I> {
    MergedOn(d, out, out.Keys)
  }

  /** `output_dict` after the outputs under the keys `ks` are appended. */
  function MergedOn<I>(d: Lists<I>, out: Batch<I>, ks: set<string>): Lists<I> {
    map k | k in d.Keys + (out.Keys * ks) ::
      (if k in d then d[k] else []) + (if k in out && k in ks then [out[k]] else [])
  }

  /** Appending no outputs changes nothing. */
  lemma {:induction false} MergedNothing<I>(d: Lists<I>, out: Batch<I>)
    ensures MergedOn(d, out, {}) == d
  {
    forall k | k in d
      ensures MergedOn(d, out, {})[k] == d[k]
    {
      assert d[k] + [] == d[k];
    }
  }

  /** Appending one key's output is merging the one-entry dictionary that holds it. */
  lemma {:induction false} AppendToDictMerged<I>(d: Lists<I>, key: string, value: seq<I>)
    ensures AppendToDict(d, key, value) == Merged(d, map[key := value])
  {
    var a := AppendToDict(d, key, value);
    var b := Merged(d, map[key := value]);
    assert a.Keys == b.Keys;
    forall k | k in a.Keys
      ensures a[k] == b[k]
    {
      if k != key {
        assert b[k] == d[k] + [];
      }
    }
  }

  /** Appending the output under one key more: the step of the loop over the model's keys. */
  lemma {:induction false} MergedStep<I>(d: Lists<I>, out: Batch<I>, done: set<string>, key: string)
    requires key in out && key !in done
    ensures MergedOn(d, out, done + {key}) == AppendToDict(MergedOn(d, out, done), key, out[key])
  {
    var a := MergedOn(d, out, done + {key});
    var m := MergedOn(d, out, done);
    var b := AppendToDict(m, key, out[key]);
    assert a.Keys == b.Keys;
    forall k | k in a.Keys
      ensures a[k] == b[k]
    {
      if k != key {
        assert a[k] == m[k];
      }
    }
  }

  /** The loop at the end of each chunk: every key the model returned is
      appended to `output_dict` with `_append_to_dict`. */
  method AppendOutputs<I>(outputDict: Lists<I>, batchOutput: Batch<I>) returns (d: Lists<I>)
    ensures d == Merged(outputDict, batchOutput)
  {
    d := outputDict;
    var pending := batchOutput.Keys;
    MergedNothing(outputDict, batchOutput);
    while pending != {}
      invariant pending <= batchOutput.Keys
      invariant d == MergedOn(outputDict, batchOutput, batchOutput.Keys - pending)
      decreases pending
    {
      var key :| key in pending;
      MergedStep(outputDict, batchOutput, batchOutput.Keys - pending, key);
      assert batchOutput.Keys - (pending - {key}) == (batchOutput.Keys - pending) + {key};
      d := AppendToDict(d, key, batchOutput[key]);
      pending := pending - {key};
    }
  }

  /** `output_dict` after the first `chunks` model calls. */
  function Collected<I>(model: Batch<I> -> Batch<I>, input: Batch<I>, batchSize: nat, chunks: nat): Lists<I> {
    if chunks == 0 then map[]
    else Merged(Collected(model, input, batchSize, chunks - 1), ChunkOutput(model, input, batchSize, chunks - 1))
  }

  /** `np.concatenate(list, axis=0)`: the arrays of a list one after another. */
  function Concat<I>(ls: seq<seq<I>>): (r: seq<I>) {
    if ls == [] then [] else Concat(ls[..|ls| - 1]) + ls[|ls| - 1]
  }

  /** The final loop of `_forward_in_mini_batches`: every list concatenated. */
  function ConcatLists<I>(d: Lists<I>): (r: Batch<I>)
    ensures r.Keys == d.Keys
    ensures forall k | k in d :: r[k] == Concat(d[k])
  {
    map k | k in d :: Concat(d[k])
  }

  /** What `Separator._forward_in_mini_batches` returns: the per-key
      concatenation of the outputs of `ceil(N / B)` model calls, one per chunk.
      The segment count is read from the `waveform` entry, which must exist. */
  function Forwarded<I>(model: Batch<I> -> Batch<I>, input: Batch<I>, batchSize: nat): (r: Result<Batch<I>>)
    requires batchSize > 0
    ensures r.Err? <==> WaveformKey !in input
    ensures r.Err? ==> r.error == MissingKey(WaveformKey)
    ensures r.Ok? && |input[WaveformKey]| == 0 ==> r.value == map[]
  {
    if WaveformKey !in input then Err(MissingKey(WaveformKey))
    else
      var n := ChunkCount(|input[WaveformKey]|, batchSize);
      Ok(ConcatLists(Collected(model, input, batchSize, n)))
  }

  /** The loop over the keys of `output_dict` that concatenates each list. */
  method ConcatenateOutputs<I>(outputDict: Lists<I>) returns (r: Batch<I>)
    ensures r == ConcatLists(outputDict)
  {
    r := map[];
    var pending := outputDict.Keys;
    while pending != {}
      invariant pending <= outputDict.Keys
      invariant r == map k | k in outputDict.Keys - pending :: Concat(outputDict[k])
      decreases pending
    {
      var key :| key in pending;
      r := r[key := Concat(outputDict[key])];
      pending := pending - {key};
    }
  }

  /** `Separator._forward_in_mini_batches`: while the pointer is below the
      segment count, slice every key to the next `B` entries, call the model,
      append its outputs per key and advance by `B`; then concatenate each list.
      `batches` lists the inputs the model is called with, in call order. */
  method ForwardInMiniBatches<I>(model: Batch<I> -> Batch<I>, segmentsInput: Batch<I>, batchSize: nat)
    returns (r: Result<Batch<I>>, ghost batches: seq<Batch<I>>)
    requires batchSize > 0
    ensures r == Forwarded(model, segmentsInput, batchSize)
    ensures r.Ok? ==> batches == ChunkInputs(segmentsInput, batchSize, ChunkCount(|segmentsInput[WaveformKey]|, batchSize))
  {
    batches := [];
    if WaveformKey !in segmentsInput {
      return Err(MissingKey(WaveformKey)), batches;
    }
    var outputDict: Lists<I> := map[];
    var pointer := 0;
    var segmentsNum := |segmentsInput[WaveformKey]|;
    ghost var chunks := 0;
    while pointer < segmentsNum
      invariant pointer == ChunkStart(batchSize, chunks)
      invariant chunks <= ChunkCount(segmentsNum, batchSize)
      invariant batches == ChunkInputs(segmentsInput, batchSize, chunks)
      invariant outputDict == Collected(model, segmentsInput, batchSize, chunks)
      decreases segmentsNum - pointer
    {
      var batchInput;
      batchInput, outputDict := ForwardChunk(model, segmentsInput, batchSize, pointer, outputDict, chunks);
      ChunkCountFits(segmentsNum, batchSize, chunks);
      MulPred(chunks + 1, batchSize);
      pointer := pointer + batchSize;
      ChunkInputsNext(segmentsInput, batchSize, chunks);
      batches := batches + [batchInput];
      chunks := chunks + 1;
    }
    ChunkCountFits(segmentsNum, batchSize, chunks);
    var concatenated := ConcatenateOutputs(outputDict);
    return Ok(concatenated), batches;
  }

  /** One pass of the loop body: slice the chunk at `pointer`, call the model on
      it and append its outputs to `output_dict`. */
  method ForwardChunk<I>(model: Batch<I> -> Batch<I>, segmentsInput: Batch<I>, batchSize: nat, pointer: nat,
                         outputDict: Lists<I>, ghost c: nat)
    returns (batchInput: Batch<I>, nextDict: Lists<I>)
    requires pointer == ChunkStart(batchSize, c)
    requires outputDict == Collected(model, segmentsInput, batchSize, c)
    ensures batchInput == ChunkInput(segmentsInput, batchSize, c)
    ensures nextDict == Collected(model, segmentsInput, batchSize, c + 1)
  {
    batchInput := SliceBatch(segmentsInput, pointer, batchSize, c);
    var batchOutput := model(batchInput);
    nextDict := AppendOutputs(outputDict, batchOutput);
  }

  // ---------------------------------------------------------------- properties

  /** From pointer `p`, the loop makes a `c`-th further call exactly when chunk
      `c` would still start below the segment count. */
  lemma {:induction false} ChunksFromFits(segmentsNum: nat, batchSize: nat, pointer: nat, c: nat)
    requires batchSize > 0
    ensures c < ChunksFrom(segmentsNum, batchSize, pointer) <==> pointer + ChunkStart(batchSize, c) < segmentsNum
    decreases c
  {
    if c > 0 && pointer < segmentsNum {
      ChunksFromFits(segmentsNum, batchSize, pointer + batchSize, c - 1);
    }
  }

  /** There is one model call for every chunk that starts below the segment count, and no other. */
  lemma {:induction false} ChunkCountFits(segmentsNum: nat, batchSize: nat, c: nat)
    requires batchSize > 0
    ensures c < ChunkCount(segmentsNum, batchSize) <==> ChunkStart(batchSize, c) < segmentsNum
  {
    ChunksFromFits(segmentsNum, batchSize, 0, c);
  }

  /** From pointer `p`, the loop makes `ceil((N - p) / B)` more calls. */
  lemma {:induction false} ChunksFromCeil(segmentsNum: nat, batchSize: nat, pointer: nat)
    requires batchSize > 0 && pointer <= segmentsNum
    ensures ChunksFrom(segmentsNum, batchSize, pointer) == CeilDiv(segmentsNum - pointer, batchSize)
    decreases segmentsNum - pointer
  {
    var rest := segmentsNum - pointer;
    if rest > 0 {
      if pointer + batchSize <= segmentsNum {
        ChunksFromCeil(segmentsNum, batchSize, pointer + batchSize);
        CeilDivStep(rest - batchSize, batchSize);
      } else {
        CeilDivOne(rest, batchSize);
      }
    } else {
      CeilDivLeast(0, batchSize, 0);
    }
  }

  /** The model is called `ceil(N / B)` times. */
  lemma {:induction false} ChunkCountIsCeil(segmentsNum: nat, batchSize: nat)
    requires batchSize > 0
    ensures ChunkCount(segmentsNum, batchSize) == CeilDiv(segmentsNum, batchSize)
  {
    ChunksFromCeil(segmentsNum, batchSize, 0);
  }

  /** Chunk `c` of the loop starts inside the array and its `waveform` slice is
      `[start, min(start + B, N))`, which is not empty. */
  lemma {:induction false} ChunkLength<I>(input: Batch<I>, batchSize: nat, c: nat)
    requires batchSize > 0 && WaveformKey in input
    requires c < ChunkCount(|input[WaveformKey]|, batchSize)
    ensures ChunkStart(batchSize, c) < |input[WaveformKey]|
    ensures ChunkInput(input, batchSize, c)[WaveformKey]
              == input[WaveformKey][ChunkStart(batchSize, c)..Min(ChunkStart(batchSize, c) + batchSize, |input[WaveformKey]|)]
    ensures |ChunkInput(input, batchSize, c)[WaveformKey]| == ChunkSize(|input[WaveformKey]|, batchSize, c) > 0
  {
    ChunkCountFits(|input[WaveformKey]|, batchSize, c);
  }

  /** Segment `i` lies in chunk `i / B`, at offset `i - start` inside it. */
  lemma {:induction false} ChunkOfIndex(segmentsNum: nat, batchSize: nat, i: nat)
    requires batchSize > 0 && i < segmentsNum
    ensures i / batchSize < ChunkCount(segmentsNum, batchSize)
    ensures ChunkStart(batchSize, i / batchSize) <= i < ChunkStart(batchSize, i / batchSize) + batchSize
  {
    var c := i / batchSize;
    DivMod(i, batchSize);
    ChunkCountFits(segmentsNum, batchSize, c);
  }

  /** Segment `i` is entry `t` of chunk `c`, for some chunk the loop calls the model on. */
  lemma {:induction false} ChunkContaining(segmentsNum: nat, batchSize: nat, i: nat) returns (c: nat, t: nat)
    requires batchSize > 0 && i < segmentsNum
    ensures c < ChunkCount(segmentsNum, batchSize) && t < batchSize
    ensures i == ChunkStart(batchSize, c) + t
  {
    ChunkOfIndex(segmentsNum, batchSize, i);
    c := i / batchSize;
    t := i - ChunkStart(batchSize, c);
  }

  /** `np.concatenate` of a list with one more array at its end. */
  lemma {:induction false} ConcatSnoc<I>(ls: seq<seq<I>>, x: seq<I>)
    ensures Concat(ls + [x]) == Concat(ls) + x
  {
    assert (ls + [x])[..|ls|] == ls;
  }

  /** The model's contract: for every chunk, its output under `key` has one
      entry per segment of the chunk. */
  predicate KeepsChunkLength<I>(model: Batch<I> -> Batch<I>, input: Batch<I>, batchSize: nat, key: string)
    requires batchSize > 0
  {
    WaveformKey in input &&
    forall c | 0 <= c < ChunkCount(|input[WaveformKey]|, batchSize) ::
      key in ChunkOutput(model, input, batchSize, c) &&
      |ChunkOutput(model, input, batchSize, c)[key]| == ChunkSize(|input[WaveformKey]|, batchSize, c)
  }

  /** `out` is what the concatenated outputs under `key` should be after `j`
      chunks: one entry per segment seen so far, and chunk `c`'s output
      occupying the positions from `start(c)` on. */
  ghost predicate GatheredInOrder<I>(model: Batch<I> -> Batch<I>, input: Batch<I>, batchSize: nat, key: string,
                                     j: nat, out: seq<I>)
    requires batchSize > 0 && KeepsChunkLength(model, input, batchSize, key)
    requires j <= ChunkCount(|input[WaveformKey]|, batchSize)
  {
    |out| == Min(ChunkStart(batchSize, j), |input[WaveformKey]|) &&
    forall c {:trigger ChunkOutput(model, input, batchSize, c)} | 0 <= c < j ::
      ChunkStart(batchSize, c) + |ChunkOutput(model, input, batchSize, c)[key]| <= |out| &&
      out[ChunkStart(batchSize, c)..ChunkStart(batchSize, c) + |ChunkOutput(model, input, batchSize, c)[key]|]
        == ChunkOutput(model, input, batchSize, c)[key]
  }

  /** Appending chunk `j - 1`'s output to what the first `j - 1` chunks gathered
      gathers the first `j` chunks. */
  lemma {:induction false} GatheredSnoc<I>(model: Batch<I> -> Batch<I>, input: Batch<I>, batchSize: nat, key: string,
                                           j: nat, before: seq<I>)
    requires batchSize > 0 && KeepsChunkLength(model, input, batchSize, key)
    requires 1 <= j <= ChunkCount(|input[WaveformKey]|, batchSize)
    requires GatheredInOrder(model, input, batchSize, key, j - 1, before)
    ensures GatheredInOrder(model, input, batchSize, key, j,
                            before + ChunkOutput(model, input, batchSize, j - 1)[key])
  {
    var start := ChunkStart(batchSize, j - 1);
    var last := ChunkOutput(model, input, batchSize, j - 1)[key];
    var after := before + last;
    ChunkLength(input, batchSize, j - 1);
    assert |before| == start;
    assert |last| == ChunkSize(|input[WaveformKey]|, batchSize, j - 1);
    MulPred(j, batchSize);
    assert |after| == Min(ChunkStart(batchSize, j), |input[WaveformKey]|);
    forall c {:trigger ChunkOutput(model, input, batchSize, c)} | 0 <= c < j
      ensures ChunkStart(batchSize, c) + |ChunkOutput(model, input, batchSize, c)[key]| <= |after|
      ensures after[ChunkStart(batchSize, c)..ChunkStart(batchSize, c) + |ChunkOutput(model, input, batchSize, c)[key]|]
                == ChunkOutput(model, input, batchSize, c)[key]
    {
      if c < j - 1 {
        GatheredKeeps(model, input, batchSize, key, j - 1, before, last, c);
      } else {
        SliceOfSuffix(before, last);
      }
    }
  }

  /** Appending to what is gathered leaves every chunk gathered so far in place. */
  lemma {:induction false} GatheredKeeps<I>(model: Batch<I> -> Batch<I>, input: Batch<I>, batchSize: nat, key: string,
                                            j: nat, before: seq<I>, more: seq<I>, c: nat)
    requires batchSize > 0 && KeepsChunkLength(model, input, batchSize, key)
    requires j <= ChunkCount(|input[WaveformKey]|, batchSize)
    requires GatheredInOrder(model, input, batchSize, key, j, before)
    requires c < j
    ensures key in ChunkOutput(model, input, batchSize, c)
    ensures ChunkStart(batchSize, c) + |ChunkOutput(model, input, batchSize, c)[key]| <= |before + more|
    ensures (before + more)[ChunkStart(batchSize, c)..ChunkStart(batchSize, c) + |ChunkOutput(model, input, batchSize, c)[key]|]
              == ChunkOutput(model, input, batchSize, c)[key]
  {
    var piece := ChunkOutput(model, input, batchSize, c)[key];
    var lo := ChunkStart(batchSize, c);
    assert lo + |piece| <= |before| && before[lo..lo + |piece|] == piece;
    SliceOfPrefix(before, more, lo, lo + |piece|);
  }

  /** A slice inside the first part of a concatenation is a slice of that part. */
  lemma {:induction false} SliceOfPrefix<I>(a: seq<I>, b: seq<I>, lo: nat, hi: nat)
    requires lo <= hi <= |a|
    ensures (a + b)[lo..hi] == a[lo..hi]
  {
  }

  /** The second part of a concatenation is the slice after the first. */
  lemma {:induction false} SliceOfSuffix<I>(a: seq<I>, b: seq<I>)
    ensures (a + b)[|a|..|a| + |b|] == b
  {
  }

  /** Merging chunk `j - 1`'s output appends it to the list under `key`. */
  lemma {:induction false} CollectedNext<I>(model: Batch<I> -> Batch<I>, input: Batch<I>, batchSize: nat, key: string, j: nat)
    requires j >= 1 && key in ChunkOutput(model, input, batchSize, j - 1)
    ensures key in Collected(model, input, batchSize, j)
    ensures Concat(Collected(model, input, batchSize, j)[key])
              == (if key in Collected(model, input, batchSize, j - 1)
                  then Concat(Collected(model, input, batchSize, j - 1)[key]) else [])
                 + ChunkOutput(model, input, batchSize, j - 1)[key]
  {
    var prev := Collected(model, input, batchSize, j - 1);
    var out := ChunkOutput(model, input, batchSize, j - 1);
    var list := if key in prev then prev[key] else [];
    assert Collected(model, input, batchSize, j)[key] == list + [out[key]];
    ConcatSnoc(list, out[key]);
    assert key !in prev ==> Concat(list) == [];
  }

  /** Every chunk so far is gathered in order. */
  lemma {:induction false} CollectedAt<I>(model: Batch<I> -> Batch<I>, input: Batch<I>, batchSize: nat,
                                          key: string, j: nat)
    requires batchSize > 0 && KeepsChunkLength(model, input, batchSize, key)
    requires 1 <= j <= ChunkCount(|input[WaveformKey]|, batchSize)
    ensures key in Collected(model, input, batchSize, j)
    ensures GatheredInOrder(model, input, batchSize, key, j, Concat(Collected(model, input, batchSize, j)[key]))
  {
    assert key in ChunkOutput(model, input, batchSize, j - 1);
    CollectedNext(model, input, batchSize, key, j);
    if j == 1 {
      assert Collected(model, input, batchSize, 0) == map[];
      assert GatheredInOrder(model, input, batchSize, key, 0, []) by {
        assert ChunkStart(batchSize, 0) == 0;
      }
      GatheredSnoc(model, input, batchSize, key, 1, []);
    } else {
      CollectedAt(model, input, batchSize, key, j - 1);
      GatheredSnoc(model, input, batchSize, key, j, Concat(Collected(model, input, batchSize, j - 1)[key]));
    }
  }

  /** Batch order is preserved: the concatenated output under `key` has one
      entry per segment, and entry `t` of what the model returned for chunk `c`
      sits at position `start(c) + t`. */
  lemma {:induction false} ForwardedAt<I>(model: Batch<I> -> Batch<I>, input: Batch<I>, batchSize: nat, key: string)
    requires batchSize > 0 && KeepsChunkLength(model, input, batchSize, key)
    requires |input[WaveformKey]| > 0
    ensures Forwarded(model, input, batchSize).Ok?
    ensures key in Forwarded(model, input, batchSize).value
    ensures |Forwarded(model, input, batchSize).value[key]| == |input[WaveformKey]|
    ensures GatheredInOrder(model, input, batchSize, key, ChunkCount(|input[WaveformKey]|, batchSize),
                            Forwarded(model, input, batchSize).value[key])
  {
    var n := |input[WaveformKey]|;
    var count := ChunkCount(n, batchSize);
    ChunkCountFits(n, batchSize, count);
    ChunkCountFits(n, batchSize, 0);
    CollectedAt(model, input, batchSize, key, count);
    var d := Collected(model, input, batchSize, count);
    assert Forwarded(model, input, batchSize) == Ok(ConcatLists(d));
    assert ConcatLists(d)[key] == Concat(d[key]);
  }

  /** One entry of `ForwardedAt`: entry `t` of chunk `c`'s output under `key`. */
  lemma {:induction false} ForwardedEntry<I>(model: Batch<I> -> Batch<I>, input: Batch<I>, batchSize: nat, key: string, c: nat, t: nat)
    requires batchSize > 0 && KeepsChunkLength(model, input, batchSize, key)
    requires c < ChunkCount(|input[WaveformKey]|, batchSize)
    requires t < |ChunkInput(input, batchSize, c)[WaveformKey]|
    ensures Forwarded(model, input, batchSize).Ok?
    ensures var out := Forwarded(model, input, batchSize).value;
            key in out && ChunkStart(batchSize, c) + t < |out[key]| &&
            out[key][ChunkStart(batchSize, c) + t] == ChunkOutput(model, input, batchSize, c)[key][t]
  {
    ChunkLength(input, batchSize, c);
    ForwardedAt(model, input, batchSize, key);
    GatheredEntry(model, input, batchSize, key, ChunkCount(|input[WaveformKey]|, batchSize),
                  Forwarded(model, input, batchSize).value[key], c, t);
  }

  /** Entry `t` of chunk `c`'s output sits at position `start(c) + t` of what is gathered. */
  lemma {:induction false} GatheredEntry<I>(model: Batch<I> -> Batch<I>, input: Batch<I>, batchSize: nat, key: string,
                                            j: nat, out: seq<I>, c: nat, t: nat)
    requires batchSize > 0 && KeepsChunkLength(model, input, batchSize, key)
    requires j <= ChunkCount(|input[WaveformKey]|, batchSize)
    requires GatheredInOrder(model, input, batchSize, key, j, out)
    requires c < j && t < ChunkSize(|input[WaveformKey]|, batchSize, c)
    ensures key in ChunkOutput(model, input, batchSize, c) && t < |ChunkOutput(model, input, batchSize, c)[key]|
    ensures ChunkStart(batchSize, c) + t < |out|
    ensures out[ChunkStart(batchSize, c) + t] == ChunkOutput(model, input, batchSize, c)[key][t]
  {
    var piece := ChunkOutput(model, input, batchSize, c)[key];
    var lo := ChunkStart(batchSize, c);
    assert lo + |piece| <= |out| && out[lo..lo + |piece|] == piece;
    SliceAt(out, lo, lo + |piece|, t);
  }

  /** Entry `t` of a slice is entry `lo + t` of the sequence. */
  lemma {:induction false} SliceAt<I>(s: seq<I>, lo: nat, hi: nat, t: nat)
    requires lo <= hi <= |s| && t < hi - lo
    ensures s[lo..hi][t] == s[lo + t]
  {
  }

  /** The keys `output_dict` has after `j` chunks: those of the chunk outputs so far. */
  function OutputKeys<I>(model: Batch<I> -> Batch<I>, input: Batch<I>, batchSize: nat, j: nat): set<string> {
    if j == 0 then {} else OutputKeys(model, input, batchSize, j - 1) + ChunkOutput(model, input, batchSize, j - 1).Keys
  }

  lemma {:induction false} CollectedKeysNext<I>(model: Batch<I> -> Batch<I>, input: Batch<I>, batchSize: nat, j: nat)
    requires j > 0
    ensures Collected(model, input, batchSize, j).Keys
              == Collected(model, input, batchSize, j - 1).Keys + ChunkOutput(model, input, batchSize, j - 1).Keys
  {
  }

  /** Before the first call `output_dict` is empty. */
  lemma {:induction false} CollectedNone<I>(model: Batch<I> -> Batch<I>, input: Batch<I>, batchSize: nat)
    ensures Collected(model, input, batchSize, 0) == map[]
    ensures OutputKeys(model, input, batchSize, 0) == {}
  {
  }

  /** A key is in `output_dict` after `j` chunks exactly when one of those
      chunks' outputs had it: `_append_to_dict` creates the list on first sight. */
  lemma {:induction false} CollectedKeys<I>(model: Batch<I> -> Batch<I>, input: Batch<I>, batchSize: nat, j: nat)
    ensures Collected(model, input, batchSize, j).Keys == OutputKeys(model, input, batchSize, j)
  {
    if j > 0 {
      CollectedKeysNext(model, input, batchSize, j);
      CollectedKeys(model, input, batchSize, j - 1);
      assert OutputKeys(model, input, batchSize, j)
               == OutputKeys(model, input, batchSize, j - 1) + ChunkOutput(model, input, batchSize, j - 1).Keys;
    } else {
      CollectedNone(model, input, batchSize);
    }
  }

  /** The entries at position `i` of every array of a batch that has one:
      what a segment-by-segment model sees of segment `i` (the segment, its
      copy of the condition, ...). */
  function Row<I>(b: Batch<I>, i: nat): map<string, I> {
    map k | k in b && i < |b[k]| :: b[k][i]
  }

  /** `f` of every row of a batch, one per `waveform` entry. */
  function RowsOf<I>(f: map<string, I> -> I, b: Batch<I>): (r: seq<I>)
    requires WaveformKey in b
    ensures |r| == |b[WaveformKey]|
    ensures forall i | 0 <= i < |r| :: r[i] == f(Row(b, i))
  {
    seq(|b[WaveformKey]|, i requires 0 <= i < |b[WaveformKey]| => f(Row(b, i)))
  }

  /** A model that works segment by segment: it answers, under `outKey`, one
      entry per `waveform` entry, computed by `f` from that segment's row of
      every key it is given. */
  function Rowwise<I>(f: map<string, I> -> I, outKey: string): Batch<I> -> Batch<I> {
    b => if WaveformKey in b then map[outKey := RowsOf(f, b)] else map[]
  }

  /** Row `t` of chunk `c`'s input is row `start(c) + t` of the whole input:
      slicing every key at the same bounds keeps rows together. */
  lemma {:induction false} RowOfChunk<I>(input: Batch<I>, batchSize: nat, c: nat, t: nat)
    requires t < batchSize
    ensures Row(ChunkInput(input, batchSize, c), t) == Row(input, ChunkStart(batchSize, c) + t)
  {
    var lo := ChunkStart(batchSize, c);
    var chunk := ChunkInput(input, batchSize, c);
    forall k | k in input
      ensures t < |chunk[k]| <==> lo + t < |input[k]|
      ensures t < |chunk[k]| ==> chunk[k][t] == input[k][lo + t]
    {
      assert chunk[k] == ClampSlice(input[k], lo, lo + batchSize);
    }
  }

  /** Entry `t` of a row-wise model's output for chunk `c` is `f` of row `start(c) + t`. */
  lemma {:induction false} RowwiseEntry<I>(f: map<string, I> -> I, outKey: string, input: Batch<I>,
                                           batchSize: nat, c: nat, t: nat)
    requires batchSize > 0 && WaveformKey in input
    requires c < ChunkCount(|input[WaveformKey]|, batchSize)
    requires t < |ChunkInput(input, batchSize, c)[WaveformKey]|
    ensures outKey in ChunkOutput(Rowwise(f, outKey), input, batchSize, c)
    ensures t < |ChunkOutput(Rowwise(f, outKey), input, batchSize, c)[outKey]|
    ensures ChunkOutput(Rowwise(f, outKey), input, batchSize, c)[outKey][t]
              == f(Row(input, ChunkStart(batchSize, c) + t))
  {
    var chunk := ChunkInput(input, batchSize, c);
    assert ChunkOutput(Rowwise(f, outKey), input, batchSize, c) == map[outKey := RowsOf(f, chunk)];
    assert t < batchSize by {
      ChunkLength(input, batchSize, c);
    }
    RowOfChunk(input, batchSize, c, t);
  }

  /** A row-wise model keeps every chunk's length. */
  lemma {:induction false} RowwiseKeepsLength<I>(f: map<string, I> -> I, outKey: string, input: Batch<I>, batchSize: nat)
    requires batchSize > 0 && WaveformKey in input
    ensures KeepsChunkLength(Rowwise(f, outKey), input, batchSize, outKey)
  {
    forall c | 0 <= c < ChunkCount(|input[WaveformKey]|, batchSize)
      ensures outKey in ChunkOutput(Rowwise(f, outKey), input, batchSize, c)
      ensures |ChunkOutput(Rowwise(f, outKey), input, batchSize, c)[outKey]|
                == ChunkSize(|input[WaveformKey]|, batchSize, c)
    {
      ChunkLength(input, batchSize, c);
      assert ChunkOutput(Rowwise(f, outKey), input, batchSize, c)
               == map[outKey := RowsOf(f, ChunkInput(input, batchSize, c))];
    }
  }

  /** Every chunk of a row-wise model answers under `outKey` alone. */
  lemma {:induction false} RowwiseKeys<I>(f: map<string, I> -> I, outKey: string, input: Batch<I>,
                                          batchSize: nat, j: nat)
    requires batchSize > 0 && WaveformKey in input
    requires 1 <= j <= ChunkCount(|input[WaveformKey]|, batchSize)
    ensures OutputKeys(Rowwise(f, outKey), input, batchSize, j) == {outKey}
  {
    assert ChunkOutput(Rowwise(f, outKey), input, batchSize, j - 1).Keys == {outKey};
    if j > 1 {
      RowwiseKeys(f, outKey, input, batchSize, j - 1);
    } else {
      assert OutputKeys(Rowwise(f, outKey), input, batchSize, 0) == {};
    }
  }

  /** Segment `i` comes out of a row-wise model as `f` of row `i` of the whole input. */
  lemma {:induction false} RowwiseAt<I>(f: map<string, I> -> I, outKey: string, input: Batch<I>, batchSize: nat, i: nat)
    requires batchSize > 0 && WaveformKey in input && i < |input[WaveformKey]|
    ensures Forwarded(Rowwise(f, outKey), input, batchSize).Ok?
    ensures var out := Forwarded(Rowwise(f, outKey), input, batchSize).value;
            outKey in out && i < |out[outKey]| && out[outKey][i] == f(Row(input, i))
  {
    var model := Rowwise(f, outKey);
    var n := |input[WaveformKey]|;
    var c, t := ChunkContaining(n, batchSize, i);
    assert t < |ChunkInput(input, batchSize, c)[WaveformKey]| by {
      ChunkLength(input, batchSize, c);
    }
    RowwiseEntry(f, outKey, input, batchSize, c, t);
    assert Forwarded(model, input, batchSize).Ok? &&
           outKey in Forwarded(model, input, batchSize).value &&
           i < |Forwarded(model, input, batchSize).value[outKey]| &&
           Forwarded(model, input, batchSize).value[outKey][i] == ChunkOutput(model, input, batchSize, c)[outKey][t] by {
      RowwiseKeepsLength(f, outKey, input, batchSize);
      ForwardedEntry(model, input, batchSize, outKey, c, t);
    }
  }

  /** The keys of the result are those some chunk's output had. */
  lemma {:induction false} ForwardedKeys<I>(model: Batch<I> -> Batch<I>, input: Batch<I>, batchSize: nat)
    requires batchSize > 0 && WaveformKey in input
    ensures Forwarded(model, input, batchSize).Ok?
    ensures Forwarded(model, input, batchSize).value.Keys
              == OutputKeys(model, input, batchSize, ChunkCount(|input[WaveformKey]|, batchSize))
  {
    CollectedKeys(model, input, batchSize, ChunkCount(|input[WaveformKey]|, batchSize));
  }

  /** The entries under `outKey` of a row-wise model's result are `f` of the input's rows. */
  lemma {:induction false} ForwardRowwiseEntries<I>(f: map<string, I> -> I, outKey: string, input: Batch<I>, batchSize: nat)
    requires batchSize > 0 && WaveformKey in input && |input[WaveformKey]| > 0
    ensures Forwarded(Rowwise(f, outKey), input, batchSize).Ok?
    ensures outKey in Forwarded(Rowwise(f, outKey), input, batchSize).value
    ensures Forwarded(Rowwise(f, outKey), input, batchSize).value[outKey] == RowsOf(f, input)
  {
    var model := Rowwise(f, outKey);
    RowwiseKeepsLength(f, outKey, input, batchSize);
    ForwardedAt(model, input, batchSize, outKey);
    var got := Forwarded(model, input, batchSize).value[outKey];
    var want := RowsOf(f, input);
    forall i | 0 <= i < |want|
      ensures got[i] == want[i]
    {
      RowwiseAt(f, outKey, input, batchSize, i);
    }
  }

  /** Mini-batching does not change what a row-wise model computes: the result
      is `f` applied to every row of the whole input, whatever the batch size. */
  lemma {:induction false} ForwardRowwise<I>(f: map<string, I> -> I, outKey: string, input: Batch<I>, batchSize: nat)
    requires batchSize > 0 && WaveformKey in input && |input[WaveformKey]| > 0
    ensures Forwarded(Rowwise(f, outKey), input, batchSize) == Ok(map[outKey := RowsOf(f, input)])
  {
    var model := Rowwise(f, outKey);
    var count := ChunkCount(|input[WaveformKey]|, batchSize);
    ChunkCountFits(|input[WaveformKey]|, batchSize, 0);
    ForwardRowwiseEntries(f, outKey, input, batchSize);
    ForwardedKeys(model, input, batchSize);
    RowwiseKeys(f, outKey, input, batchSize, count);
    SingleKey(Forwarded(model, input, batchSize).value, outKey, RowsOf(f, input));
  }

  /** A dictionary with the one key `k`, holding `v`, is `{k: v}`. */
  lemma {:induction false} SingleKey<I>(m: Batch<I>, k: string, v: seq<I>)
    requires m.Keys == {k} && m[k] == v
    ensures m == map[k := v]
  {
  }

  /** Corollary: for a row-wise model the batch size does not matter. */
  lemma {:induction false} BatchSizeInvariant<I>(f: map<string, I> -> I, outKey: string, input: Batch<I>, b1: nat, b2: nat)
    requires b1 > 0 && b2 > 0
    ensures Forwarded(Rowwise(f, outKey), input, b1) == Forwarded(Rowwise(f, outKey), input, b2)
  {
    if WaveformKey in input && |input[WaveformKey]| > 0 {
      ForwardRowwise(f, outKey, input, b1);
      ForwardRowwise(f, outKey, input, b2);
    }
  }
}
