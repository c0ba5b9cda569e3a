# Music source separation: windowed inference and subband transform

This project is a Dafny model of two parts of a music source separation system.

**The `Separator` windowing pipeline** (`music_source_separation/inference.py`).
`separate` takes a clip of shape (channels, samples) and works in these steps:

1. It zero-pads the clip to a whole number of segments (`pad_audio`).
2. It cuts the padded clip into windows of the segment length L, one every L/2 samples (`enframe`).
3. It builds a batch dictionary. This holds the windows under `waveform` and, when a conditioning vector is given, one copy of that vector per window under `condition`.
4. It pushes this dictionary through the neural model in chunks of `batch_size` windows (`_forward_in_mini_batches`). The outputs are collected per key with `_append_to_dict` and concatenated.
5. It stitches the `wav` windows the model returns back into one clip (`deframe`). This keeps [0, 3L/4) of the first window, [L/4, 3L/4) of each interior window and [L/4, L) of the last one.
6. It trims the result to the clip's length.

**The `Subband` transform** (`music_source_separation/models/pytorch_modules.py`).
`analysis` splits the frequency axis of a (B, C, T, F) spectrogram into k equal bands. It stacks the bands on the channel axis, giving (B, C·k, T, F/k). `synthesis` reverses this.

## Layout

| Module | Content |
|---|---|
| `Arith` | Ceiling division and mixed-radix digit pairs. |
| `Results` | `Result` and the `Failure` kinds. Each kind stands for one of the exceptions the original raises. |
| `Waveforms` | Buffers of shape (channels, samples) with numpy slicing and concatenation along the sample axis. |
| `Framing` | `pad_audio`, `enframe`, `_is_integer` and `deframe`. |
| `Batching` | `_forward_in_mini_batches` and `_append_to_dict`. |
| `Separation` | `separate`. |
| `Tensors` | Row-major tensors with `reshape`, `transpose(2, 3)` of a five-axis tensor, and the index maps of both. |
| `Subbands` | `Subband`. |

Each loop of the source is a method proved equal to a specification function, which the lemmas then reason about:

| Method | Specification function |
|---|---|
| `Framing.Enframe` | `Framing.Enframed` |
| `Framing.Deframe` | `Framing.Deframed` |
| `Batching.SliceBatch` | `Batching.ChunkInput` |
| `Batching.AppendOutputs` | `Batching.Merged` |
| `Batching.ConcatenateOutputs` | `Batching.ConcatLists` |
| `Batching.ForwardInMiniBatches` | `Batching.Forwarded` |

`Separation.Separate` has no loop of its own. It calls these methods in the order `separate` does and is proved equal to `Separation.Separated`.

The model of the neural network is a function parameter from a batch dictionary to an output dictionary. A row-by-row model (`Batching.Rowwise`) applies one function to each row of the batch: the entries at one index under every key, the segment and its copy of the condition together. Samples have a generic type with a given zero.

## Model

| member | source | states |
|---|---|---|
| Framing.PaddedLength | music_source_separation/inference.py:89-92 | The padded length ceil(S/L)·L is a multiple of L, is at least S and below S + L, and equals S when L divides S. |
| Framing.AppendZeros | music_source_separation/inference.py:94-96 | Appending zeros keeps the channel count and every channel's samples as a prefix. Every appended sample is zero. Appending none leaves the clip unchanged. |
| Framing.PadAudio | music_source_separation/inference.py:77-99 | Fails with a division by zero exactly when L = 0. Otherwise the result keeps the channel count and each channel's first S samples, appends only zeros, has a length that is a multiple of L in [S, S + L), and is the clip itself when L divides S. |
| Framing.FrameCountFits | music_source_separation/inference.py:117-120 | Index i is below the window count exactly when the window starting at i·(L/2) ends inside the clip, i.e. the loop test `pointer + L <= S` holds at its i-th evaluation. |
| Framing.Frames | music_source_separation/inference.py:117-121 | Window i is `audio[:, i·hop : i·hop + L]`. There is one window for every start whose window fits, and no other. |
| Framing.FramesStack | music_source_separation/inference.py:119-122 | The windows form a (segments, channels, L) stack with the clip's channel count. |
| Framing.Enframed | music_source_separation/inference.py:111-124 | Succeeds exactly when L > 0 and L divides the clip length. Otherwise it fails as the assertion or division does. |
| Framing.Enframe | music_source_separation/inference.py:111-124 | The pointer loop returns exactly `Enframed`: on success, the windows in order. |
| Framing.FrameCountOfMultiple | music_source_separation/inference.py:114-120 | A clip of m ≥ 1 segments of even length L yields 1 + (S − L)/(L/2) = 2m − 1 windows. |
| Framing.QuarterPointsWhole | music_source_separation/inference.py:141-142 | True exactly when L/4 and 3L/4 are whole sample counts. |
| Framing.Deframed | music_source_separation/inference.py:136-159 | No segments fail. A single segment is returned unchanged. Two or more succeed exactly when L is divisible by four. A result has the segments' channel count. |
| Framing.Deframe | music_source_separation/inference.py:136-159 | The loop over interior segments returns exactly `Deframed`. |
| Framing.KeptPrefixSamples | music_source_separation/inference.py:146-153 | The kept parts of the first k segments hold 3L/4 + (k − 1)·L/2 samples. |
| Framing.DeframedLength | music_source_separation/inference.py:144-157 | With n ≥ 2 segments and 4 dividing L, the output has 3L/4 + (n − 2)·L/2 + 3L/4 samples and the segments' channel count. |
| Framing.DeframedAt | music_source_separation/inference.py:146-157 | The kept slices appear in segment order: sample t of the part kept from segment i is output sample OutputStart(i) + t. |
| Framing.FirstPiece | music_source_separation/inference.py:146 | Of the windows of a clip, deframing keeps the clip's samples [0, 3L/4) from the first. |
| Framing.InteriorPiece | music_source_separation/inference.py:148-153 | From interior window i, deframing keeps the clip's samples [i·L/2 + L/4, i·L/2 + 3L/4). |
| Framing.LastPiece | music_source_separation/inference.py:155 | For a clip of m ≥ 2 segments, the last of the 2m − 1 windows ends at the clip's end, and deframing keeps the clip's last 3L/4 samples from it. |
| Framing.KeptPieceCut | music_source_separation/inference.py:114-157 | The kept parts of consecutive windows are consecutive slices of the clip, so the quarter regions tile [0, S) without gap or overlap. |
| Framing.DeframeEnframeMany | music_source_separation/inference.py:114-157 | For a clip of m ≥ 2 segments with 4 dividing L, deframing its windows gives the clip back. |
| Framing.DeframeEnframe | music_source_separation/inference.py:114-157 | deframe(enframe(x, L)) == x for every non-empty clip whose length L divides. This needs 4 to divide L unless the clip is a single segment. |
| Waveforms.JoinAll | music_source_separation/inference.py:157 | Concatenating along the sample axis keeps the channel count, and the length is the sum of the pieces' lengths. |
| Waveforms.JoinAllAt | music_source_separation/inference.py:157 | Sample t of piece i sits in the concatenation after all samples of the earlier pieces. |
| Waveforms.JoinAllTiles | music_source_separation/inference.py:157 | Pieces that slice a buffer at ascending cuts from its first to its last sample concatenate back to the buffer. |
| Batching.ClampSlice | music_source_separation/inference.py:196 | Python's `s[lo:hi]` holds min(hi, n) − lo entries when lo < n and none otherwise. Entry t is entry lo + t of the list. |
| Batching.SliceBatch | music_source_separation/inference.py:192-197 | The loop over the input's keys builds the input of chunk c: every key sliced to [c·B, c·B + B). |
| Batching.AppendToDict | music_source_separation/inference.py:215-219 | The value is appended to the key's list, which is created when the key is new. The key set gains the key and no other key changes. |
| Batching.AppendToDictMerged | music_source_separation/inference.py:215-219 | Appending one key's value is merging the one-entry dictionary holding it into the lists. |
| Batching.MergedStep | music_source_separation/inference.py:205-208 | One step of the loop over the model's output keys appends that key's output and nothing else. |
| Batching.AppendOutputs | music_source_separation/inference.py:205-208 | The loop over the model's keys leaves every key's old list followed by its new output. |
| Batching.ConcatenateOutputs | music_source_separation/inference.py:210-211 | The loop over `output_dict` returns `ConcatLists`: the same keys, each holding its list of arrays joined in list order. |
| Batching.Forwarded | music_source_separation/inference.py:183-213 | Fails, with the missing key, exactly when there is no `waveform` entry. An empty segment axis gives an empty dictionary. |
| Batching.ForwardInMiniBatches | music_source_separation/inference.py:183-213 | The pointer loop returns exactly `Forwarded`. The model is called on the chunk inputs in order, one per chunk. |
| Batching.ForwardChunk | music_source_separation/inference.py:192-208 | One loop pass slices chunk c, calls the model and leaves `output_dict` as after c + 1 chunks. |
| Batching.ChunksFromFits | music_source_separation/inference.py:188-199 | From pointer p, the loop makes a c-th further call exactly when p + c·B is below the segment count. |
| Batching.ChunkCountFits | music_source_separation/inference.py:188-199 | The model is called for chunk c exactly when c·B < N. |
| Batching.ChunksFromCeil | music_source_separation/inference.py:188-199 | From pointer p ≤ N, the loop makes ceil((N − p)/B) more calls. |
| Batching.ChunkCountIsCeil | music_source_separation/inference.py:185-199 | The model is called ceil(N/B) times. |
| Batching.ChunkLength | music_source_separation/inference.py:194-197 | Every chunk the model sees is the non-empty `waveform` slice [c·B, min(c·B + B, N)). |
| Batching.ChunkOfIndex | music_source_separation/inference.py:188-199 | Segment i falls in chunk i/B, which the loop reaches. |
| Batching.ChunkContaining | music_source_separation/inference.py:188-199 | Every segment is entry t < B of some chunk c that the loop reaches, at i = c·B + t. |
| Batching.ConcatSnoc | music_source_separation/inference.py:211 | Concatenating a list with one more array appends that array. |
| Batching.GatheredSnoc | music_source_separation/inference.py:205-211 | Appending the next chunk's output extends the in-order gathering by that chunk. |
| Batching.GatheredKeeps | music_source_separation/inference.py:205-211 | Appending to what is gathered leaves every earlier chunk's output in place. |
| Batching.CollectedNext | music_source_separation/inference.py:205-219 | After one more chunk, a key's concatenation is the previous one followed by the chunk's output. |
| Batching.CollectedAt | music_source_separation/inference.py:205-211 | After j chunks, each key's concatenation holds every chunk's output in order, at that chunk's start. |
| Batching.ForwardedAt | music_source_separation/inference.py:183-213 | Batch order is preserved. For a model that keeps every chunk's length, each output key has one entry per segment, and chunk c's output sits at c·B. |
| Batching.ForwardedEntry | music_source_separation/inference.py:183-213 | Entry t of chunk c's output is entry c·B + t of the result. |
| Batching.GatheredEntry | music_source_separation/inference.py:205-211 | Entry t of a gathered chunk's output is at position c·B + t. |
| Batching.CollectedKeys | music_source_separation/inference.py:205-208 | `output_dict` holds exactly the keys some chunk's output had so far. |
| Batching.ForwardedKeys | music_source_separation/inference.py:205-213 | The result's keys are exactly those some chunk's output had. |
| Batching.RowOfChunk | music_source_separation/inference.py:194-203 | Row t of chunk c (every key's entry t) is row c·B + t of the input dictionary. |
| Batching.RowwiseEntry | music_source_separation/inference.py:194-203 | Entry t of chunk c's answer is f of input row c·B + t. |
| Batching.RowwiseKeepsLength | music_source_separation/inference.py:194-203 | A row-by-row model keeps each chunk's length. |
| Batching.RowwiseKeys | music_source_separation/inference.py:205-208 | Such a model's outputs have the output key alone. |
| Batching.RowwiseAt | music_source_separation/inference.py:183-213 | Segment i comes out of a row-by-row model as f of input row i, condition included. |
| Batching.ForwardRowwiseEntries | music_source_separation/inference.py:183-213 | The result under the output key is f applied to every row of the whole input. |
| Batching.ForwardRowwise | music_source_separation/inference.py:183-213 | Mini-batching a row-by-row model equals applying it to the whole input at once. |
| Batching.BatchSizeInvariant | music_source_separation/inference.py:183-213 | For any row-by-row model f, which may read every key of the row, any two positive batch sizes give the same result. |
| Separation.SegmentsInput | music_source_separation/inference.py:54-60 | The segment dictionary holds the segments under `waveform` and, exactly when a condition is given, one copy of it per segment under `condition`. |
| Separation.FramesOf | music_source_separation/inference.py:65-69 | The model's `wav` array is read as a segment stack exactly when every entry is a segment of one common shape. |
| Separation.SegmentsFor | music_source_separation/inference.py:42-60 | Fails exactly when L = 0. The segment axis is empty exactly when the clip has no samples. |
| Separation.Reassembled | music_source_separation/inference.py:63-75 | A missing `wav` key fails with that key. A result is a valid clip no longer than the original. |
| Separation.Separated | music_source_separation/inference.py:42-75 | L = 0 divides by zero. An empty clip makes the `wav` lookup fail. A result is a valid clip no longer than the input. `Separation.SeparatedShape` gives its exact length. |
| Separation.Separate | music_source_separation/inference.py:42-75 | The composed steps return exactly `Separated`. |
| Separation.PaddedSamples | music_source_separation/inference.py:48-51 | A padded non-empty clip holds one segment when it fits in one, and at least two otherwise. An empty clip stays empty. |
| Separation.FramesOfFrameItems | music_source_separation/inference.py:54-69 | Reading back a segment stack handed to the model gives the stack. |
| Separation.TrimPadded | music_source_separation/inference.py:72 | Trimming the padded clip to the original length gives the clip back. |
| Separation.ReassembledStack | music_source_separation/inference.py:65-72 | A `wav` stack is deframed and trimmed, and deframing errors pass through. |
| Separation.ForwardEcho | music_source_separation/inference.py:63-65 | A model that echoes `waveform` as `wav` gets the segment stack back from the mini-batch loop, whatever the batch size and the condition. |
| Separation.SeparateEcho | music_source_separation/inference.py:42-75 | With a model that echoes `waveform` as `wav`, separating a non-empty clip returns it unchanged. This needs 4 to divide L unless the clip fits in one segment. |
| Separation.SeparateNonDivisible | music_source_separation/inference.py:141-142 | With 4 not dividing L, the echo model fails on every clip longer than one segment. |
| Separation.SeparateBatchSizeInvariant | music_source_separation/inference.py:42-75 | For any model that maps each segment together with its copy of the condition, the batch size does not change what `separate` returns. |
| Separation.ForwardedShaped | music_source_separation/inference.py:183-213 | A model that answers each chunk with one segment of a fixed shape per input segment gives a `wav` array with one such segment per input segment. |
| Separation.FramesOfShaped | music_source_separation/inference.py:63-66 | Segments of one shape are read back as a stack of that shape. |
| Framing.DeframedLengthOfMultiple | music_source_separation/inference.py:126-159 | The 2m − 1 windows of m ≥ 2 segments of length L (4 divides L) deframe to exactly m·L samples. |
| Separation.DeframedCovers | music_source_separation/inference.py:69-73 | The model's segments for a padded clip deframe to at least the clip's length, when 4 divides L or the clip fits in one segment. |
| Separation.SeparatedShape | music_source_separation/inference.py:42-75 | With a model that answers each segment with one (C′, L) segment, a non-empty clip separates to exactly its own S samples and C′ channels, when 4 divides L or S ≤ L. |
| Tensors.SwapAxes23 | music_source_separation/models/pytorch_modules.py:181 | The transpose keeps the element count and swaps axes 2 and 3 of the shape. |
| Tensors.SwapAt | music_source_separation/models/pytorch_modules.py:181 | The element at (i, j, k, l, m) moves to (i, j, l, k, m). |
| Tensors.SwapTwice | music_source_separation/models/pytorch_modules.py:217 | Transposing twice is the identity. |
| Tensors.SwapMultiset | music_source_separation/models/pytorch_modules.py:181 | The transpose keeps every element, as often as it occurs. |
| Tensors.MergeAxes12 | music_source_separation/models/pytorch_modules.py:183-188 | Merging axes 1 and 2 into one keeps every element's offset. |
| Tensors.MergeAxes34 | music_source_separation/models/pytorch_modules.py:220 | Merging axes 3 and 4 into one keeps every element's offset. |
| Tensors.SwapAtMerged12 | music_source_separation/models/pytorch_modules.py:172-188 | The split–transpose–merge of `analysis`, element by element. |
| Tensors.SwapAtMerged34 | music_source_separation/models/pytorch_modules.py:208-220 | The split–transpose–merge of `synthesis`, element by element. |
| Subbands.SplitCount | music_source_separation/models/pytorch_modules.py:172-178 | The first reshape of `analysis` keeps the element count exactly when k divides F or the tensor is empty. |
| Subbands.MergeCount | music_source_separation/models/pytorch_modules.py:205-214 | The first reshape of `synthesis` keeps the element count exactly when k divides C' or the tensor is empty. |
| Subbands.RegroupCount | music_source_separation/models/pytorch_modules.py:183-188 | The second reshape of `analysis` keeps the element count. |
| Subbands.FreqCount | music_source_separation/models/pytorch_modules.py:220 | The second reshape of `synthesis` keeps the element count. |
| Subbands.Subband.Analysis | music_source_separation/models/pytorch_modules.py:160-191 | Rank other than 4 fails. A non-positive k fails. Otherwise it succeeds exactly when k divides F or the tensor is empty, with shape (B, C·k, T, F/k). |
| Subbands.Subband.Synthesis | music_source_separation/models/pytorch_modules.py:193-223 | Rank other than 4 fails. A non-positive k fails. Otherwise it succeeds exactly when k divides C' or the tensor is empty, with shape (B, C'/k, T, F'·k). |
| Subbands.AnalysisSteps | music_source_separation/models/pytorch_modules.py:170-191 | A successful `analysis` is the transpose of the (B, C, T, k, F/k) view, read under the output shape. |
| Subbands.SynthesisSteps | music_source_separation/models/pytorch_modules.py:203-221 | A successful `synthesis` is the transpose of the (B, C'/k, k, T, F') view, read under the output shape. |
| Subbands.AnalysisDivides | music_source_separation/models/pytorch_modules.py:172-178 | A non-empty tensor is only accepted when k divides F. |
| Subbands.AnalysisAt | music_source_separation/models/pytorch_modules.py:172-188 | out[b, c·k + s, t, f'] = x[b, c, t, s·(F/k) + f'] for every index in range. |
| Subbands.SynthesisDivides | music_source_separation/models/pytorch_modules.py:205-214 | A non-empty tensor is only accepted when k divides C'. |
| Subbands.SynthesisDataAt | music_source_separation/models/pytorch_modules.py:208-220 | For C' = q·k, the transposed (B, q, k, T, F') view puts y[b, c·k + s, t, f] at (b, c, t, s·F' + f). |
| Subbands.SynthesisAt | music_source_separation/models/pytorch_modules.py:208-220 | out[b, c, t, s·F' + f] = y[b, c·k + s, t, f] for every index in range. |
| Subbands.SynthesisAnalysis | music_source_separation/models/pytorch_modules.py:160-223 | Whenever k divides F, `analysis` succeeds and `synthesis` gives its input back. |
| Subbands.AnalysisSynthesis | music_source_separation/models/pytorch_modules.py:160-223 | Whenever k divides C', `synthesis` succeeds and `analysis` gives its input back. |
| Subbands.EmptyRoundTripShape | music_source_separation/models/pytorch_modules.py:170-178 | An empty tensor with k not dividing F passes both reshapes, but the round trip loses F mod k frequency bins of its shape. |
| Subbands.AnalysisPermutes | music_source_separation/models/pytorch_modules.py:172-188 | `analysis` only moves elements: the output holds the input's elements, each as often. |
| Subbands.SynthesisPermutes | music_source_separation/models/pytorch_modules.py:208-220 | `synthesis` only moves elements. |

## Left out

- `inference()` and the command line (music_source_separation/inference.py:222-262) read and write audio files and parse arguments. They are input/output and not part of this model.
- `Separator.__init__` (music_source_separation/inference.py:12-28) only stores its arguments. The fields are the `Separation.Separator` datatype.
- The neural model, and the torch plumbing around its call (music_source_separation/inference.py:195-207: tensor conversion, device, `no_grad`, `eval`, `.cpu().numpy()`). The model is an arbitrary pure function on batch dictionaries. Its outputs are kept as returned; dtype and device conversions are not modelled.
- `Framing.QuarterPointsWhole`: `_is_integer` compares a float's fractional part with 1e-10. It is modelled as the exact integer condition L mod 4 = 0, which is what it decides for any segment length a float represents exactly.
- `Framing.PadAudio`: `np.ceil` of a float quotient is modelled as exact integer ceiling division. The two differ only for lengths beyond the float's exact range.
- `Framing.Enframe`: a segment length of 1 makes the hop 0, and the source loop then never ends on a non-empty clip. The model requires L ≠ 1, which also excludes the one input where the source does end with that length: an empty clip, whose loop condition fails at once.
- `Batching.ForwardInMiniBatches`: a batch size of 0 or below never advances the pointer or moves it backwards, so the source loop never ends on a non-empty input. The model requires B > 0, which also excludes the one input where the source does end with such a batch size: zero segments, whose loop condition fails at once.
- `Batching.Forwarded`: `np.concatenate` raises when the model's chunk outputs under one key are 0-d or disagree in their trailing shape. The model joins the output lists of any items and never fails there. `Separation.FramesOf` refuses a `wav` list that is not a stack of equal-shape segments, and `Separation.SeparatedShape` states the case where the outputs do fit together.
- Negative lengths, negative segment lengths and negative batch sizes are not modelled. Counts are natural numbers.
- `Framing.Deframed`: the model gives no segment length to an empty stack, so deframing one always fails as `NoSegments`. The source may first fail its quarter-point assertion on the L of a (0, C, L) array.
- `Separation.Clip`: only the `waveform` and `condition` entries of the input dictionary are read. The KeyError for a missing `waveform` is not modelled because that entry always exists in this model.
- `Separation.FramesOf`: a `wav` array that is not a stack of equal-shape segments has no meaning in the model, and fails as `ShapeMismatch`. In the source it fails, or is misread, inside numpy.
- Dictionary iteration order is not modelled. The loops over keys pick keys in any order, and their results do not depend on the order.
- `Subbands.Subband.Analysis` and `Subbands.Subband.Synthesis`: tensors are values. torch's views, strides, dtype, device and the `-1` inferred dimension are not modelled. A non-positive band count is one failure kind `InvalidSubbands`, where torch raises a division by zero or a negative-dimension error.
- `Subband.__init__` (music_source_separation/models/pytorch_modules.py:148-158) only stores the band count. It is the `Subbands.Subband` datatype constructor.
- The rest of pytorch_modules.py is not part of this model: parameter initialisation, activations and the spectrogram helpers are floating-point torch code.
