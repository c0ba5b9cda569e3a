/** The framer of `Separator` (music_source_separation/inference.py): zero-padding
    a clip to a whole number of segments, cutting it into half-overlapping
    windows, and stitching windows back into one clip. */
module Framing {
  import opened Arith
  import opened Results
  import opened Waveforms

  // ---------------------------------------------------------------- padding

  /** The padded length: the least multiple of the segment length that holds the clip. */
  lemma {:induction false} PaddedLength(samples: nat, segmentSamples: nat)
    requires segmentSamples > 0
    ensures CeilDiv(samples, segmentSamples) * segmentSamples % segmentSamples == 0
    ensures samples <= CeilDiv(samples, segmentSamples) * segmentSamples < samples + segmentSamples
    ensures samples % segmentSamples == 0 ==> CeilDiv(samples, segmentSamples) * segmentSamples == samples
  {
    var n := CeilDiv(samples, segmentSamples);
    PairDecode(n, 0, segmentSamples);
    DivMod(samples, segmentSamples);
    if samples % segmentSamples == 0 {
      var m := samples / segmentSamples;
      CeilDivLeast(samples, segmentSamples, m);
      if n < m {
        MulMono(n + 1, m, segmentSamples);
      }
    }
  }

  /** Every channel followed by `padSamples` zero samples. */
  function AppendZeros<T>(audio: Waveform<T>, padSamples: nat, zero: T): (r: Waveform<T>)
    requires audio.Valid()
    ensures r.Valid() && |r.channels| == |audio.channels| && r.samples == audio.samples + padSamples
    ensures forall c | 0 <= c < |audio.channels| :: r.channels[c][..audio.samples] == audio.channels[c]
    ensures forall c, t | 0 <= c < |audio.channels| && audio.samples <= t < r.samples :: r.channels[c][t] == zero
    ensures padSamples == 0 ==> r == audio
  {
    var r := Waveform(audio.samples + padSamples,
                      seq(|audio.channels|, c requires 0 <= c < |audio.channels| =>
                            audio.channels[c] + Zeros(padSamples, zero)));
    forall c | 0 <= c < |audio.channels|
      ensures |r.channels[c]| == r.samples
      ensures r.channels[c][..audio.samples] == audio.channels[c]
      ensures forall t | audio.samples <= t < r.samples :: r.channels[c][t] == zero
      ensures padSamples == 0 ==> r.channels[c] == audio.channels[c]
    {
      assert r.channels[c] == audio.channels[c] + Zeros(padSamples, zero);
      assert |audio.channels[c]| == audio.samples;
    }
    r
  }

  /** `Separator.pad_audio`: appends zeros to every channel so that the length
      becomes a multiple of the segment length. A zero segment length divides by zero. */
  function PadAudio<T>(audio: Waveform<T>, segmentSamples: nat, zero: T): (r: Result<Waveform<T>>)
    requires audio.Valid()
    ensures r.Err? <==> segmentSamples == 0
    ensures r.Err? ==> r.error == DivisionByZero
    ensures r.Ok? ==> r.value.Valid() && |r.value.channels| == |audio.channels|
    ensures r.Ok? ==> r.value.samples % segmentSamples == 0
    ensures r.Ok? ==> audio.samples <= r.value.samples < audio.samples + segmentSamples
    ensures r.Ok? ==> forall c | 0 <= c < |audio.channels| ::
                        r.value.channels[c][..audio.samples] == audio.channels[c]
    ensures r.Ok? ==> forall c, t | 0 <= c < |audio.channels| && audio.samples <= t < r.value.samples ::
                        r.value.channels[c][t] == zero
    ensures r.Ok? && audio.samples % segmentSamples == 0 ==> r.value == audio
  {
    if segmentSamples == 0 then
      Err(DivisionByZero)
    else
      var segmentsNum := CeilDiv(audio.samples, segmentSamples);
      PaddedLength(audio.samples, segmentSamples);
      var padSamples := segmentsNum * segmentSamples - audio.samples;
      Ok(AppendZeros(audio, padSamples, zero))
  }

  // ---------------------------------------------------------------- enframing

  /** The hop between window starts: half a segment, rounded down. */
  function Hop(segmentSamples: nat): nat {
    segmentSamples / 2
  }

  /** Window `i` starts `i` hops in and still ends inside the clip: the loop
      condition `pointer + segment_samples <= audio_samples` at its i-th test. */
  predicate FrameFits(samples: nat, segmentSamples: nat, i: nat) {
    i * Hop(segmentSamples) + segmentSamples <= samples
  }

  /** `1 + (S - L) / hop` windows when one window fits, none otherwise. */
  function FrameCount(samples: nat, segmentSamples: nat): nat
    requires segmentSamples >= 2
  {
    if samples < segmentSamples then 0 else (samples - segmentSamples) / Hop(segmentSamples) + 1
  }

  /** There is one window for every start `i * hop` whose window fits, and no other. */
  lemma {:induction false} FrameCountFits(samples: nat, segmentSamples: nat, i: nat)
    requires segmentSamples >= 2
    ensures i < FrameCount(samples, segmentSamples) <==> FrameFits(samples, segmentSamples, i)
  {
    if samples >= segmentSamples {
      MulLeIffLeDiv(i, Hop(segmentSamples), samples - segmentSamples);
    }
  }

  /** Window `i` of a clip: `audio[:, i*hop : i*hop + L]`. */
  function FrameAt<T>(audio: Waveform<T>, segmentSamples: nat, i: nat): (r: Waveform<T>)
    requires audio.Valid() && segmentSamples >= 2 && FrameFits(audio.samples, segmentSamples, i)
  {
    Slice(audio, i * Hop(segmentSamples), i * Hop(segmentSamples) + segmentSamples)
  }

  /** The windows of a clip: window `i` starts `i` hops in, and there is one
      window for every start whose window fits. */
  function Frames<T>(audio: Waveform<T>, segmentSamples: nat): (r: seq<Waveform<T>>)
    requires audio.Valid() && segmentSamples >= 2
    ensures forall i: nat {:trigger FrameFits(audio.samples, segmentSamples, i)} ::
              i < |r| <==> FrameFits(audio.samples, segmentSamples, i)
    ensures forall i | 0 <= i < |r| :: r[i] == FrameAt(audio, segmentSamples, i)
  {
    var n := FrameCount(audio.samples, segmentSamples);
    forall i: nat ensures i < n <==> FrameFits(audio.samples, segmentSamples, i) {
      FrameCountFits(audio.samples, segmentSamples, i);
    }
    seq(n, i requires 0 <= i < n => FrameAt(audio, segmentSamples, i))
  }

  /** The windows of a clip form a segment stack of the clip's channel count
      and the segment length. */
  lemma {:induction false} FramesStack<T>(audio: Waveform<T>, segmentSamples: nat)
    requires audio.Valid() && segmentSamples >= 2
    ensures IsStack(Frames(audio, segmentSamples))
    ensures forall i | 0 <= i < |Frames(audio, segmentSamples)| ::
              Frames(audio, segmentSamples)[i].samples == segmentSamples &&
              |Frames(audio, segmentSamples)[i].channels| == |audio.channels|
  {
  }

  /** What `Separator.enframe` returns: its assertion rejects a length that is not a
      multiple of the segment length, and a zero segment length divides by zero. */
  function Enframed<T>(audio: Waveform<T>, segmentSamples: nat): (r: Result<seq<Waveform<T>>>)
    requires audio.Valid() && segmentSamples != 1
    ensures r.Ok? <==> segmentSamples > 0 && audio.samples % segmentSamples == 0
  {
    if segmentSamples == 0 then Err(DivisionByZero)
    else if audio.samples % segmentSamples != 0 then Err(InconsistentLength)
    else Ok(Frames(audio, segmentSamples))
  }

  /** A padded clip of `m` segments of even length yields `2m - 1` windows. */
  lemma {:induction false} FrameCountOfMultiple(segmentSamples: nat, m: nat)
    requires segmentSamples >= 2 && segmentSamples % 2 == 0 && m >= 1
    ensures FrameCount(m * segmentSamples, segmentSamples) == 2 * m - 1
  {
    var h := Hop(segmentSamples);
    assert segmentSamples == 2 * h;
    MulMono(1, m, segmentSamples);
    assert m * segmentSamples - segmentSamples == (2 * (m - 1)) * h;
    PairDecode(2 * (m - 1), 0, h);
  }

  /** `Separator.enframe`: advances a pointer by one hop and collects every
      window that fits. */
  method Enframe<T>(audio: Waveform<T>, segmentSamples: nat) returns (r: Result<seq<Waveform<T>>>)
    requires audio.Valid()
    requires segmentSamples != 1
    ensures r == Enframed(audio, segmentSamples)
  {
    if segmentSamples == 0 {
      return Err(DivisionByZero);
    }
    if audio.samples % segmentSamples != 0 {
      return Err(InconsistentLength);
    }
    var hopSamples := segmentSamples / 2;
    var segments: seq<Waveform<T>> := [];
    var pointer := 0;
    ghost var frames := Frames(audio, segmentSamples);
    while pointer + segmentSamples <= audio.samples
      invariant pointer == |segments| * hopSamples
      invariant |segments| <= |frames|
      invariant segments == frames[..|segments|]
      decreases audio.samples - pointer
    {
      assert FrameFits(audio.samples, segmentSamples, |segments|);
      segments := segments + [Slice(audio, pointer, pointer + segmentSamples)];
      pointer := pointer + hopSamples;
    }
    assert !FrameFits(audio.samples, segmentSamples, |segments|);
    assert segments == frames;
    return Ok(segments);
  }

  // ---------------------------------------------------------------- deframing

  /** `_is_integer(L * 0.25) and _is_integer(L * 0.75)`: both cut points of the
      overlap policy fall on whole samples. */
  function QuarterPointsWhole(segmentSamples: nat): (b: bool)
    ensures b <==> (segmentSamples / 4) * 4 == segmentSamples && (3 * segmentSamples / 4) * 4 == 3 * segmentSamples
  {
    segmentSamples % 4 == 0
  }

  /** A segment stack: an array of shape (segments, channels, samples). */
  predicate IsStack<T>(segments: seq<Waveform<T>>) {
    forall i | 0 <= i < |segments| ::
      segments[i].Valid() &&
      segments[i].samples == segments[0].samples &&
      |segments[i].channels| == |segments[0].channels|
  }

  /** Where the kept part of segment `i` (of `n`) begins: a quarter in, except for the first. */
  function KeepFrom(segmentSamples: nat, i: nat): nat {
    if i == 0 then 0 else segmentSamples / 4
  }

  /** Where the kept part of segment `i` (of `n`) ends: three quarters in, except for the last. */
  function KeepTo(n: nat, segmentSamples: nat, i: nat): nat {
    if i == n - 1 then segmentSamples else 3 * (segmentSamples / 4)
  }

  /** Where the kept part of segment `i` lands in the deframed clip. */
  function OutputStart(segmentSamples: nat, i: nat): nat {
    if i == 0 then 0 else i * (segmentSamples / 2) + segmentSamples / 4
  }

  /** The part of each segment that deframing keeps: `[0, 3L/4)` of the first,
      `[L/4, 3L/4)` of every interior one and `[L/4, L)` of the last. */
  function KeptPieces<T>(segments: seq<Waveform<T>>): (r: seq<Waveform<T>>)
    requires IsStack(segments) && |segments| >= 2 && segments[0].samples % 4 == 0
    ensures |r| == |segments| && SameChannels(r, |segments[0].channels|)
  {
    var n := |segments|;
    var L := segments[0].samples;
    seq(n, i requires 0 <= i < n => Slice(segments[i], KeepFrom(L, i), KeepTo(n, L, i)))
  }

  /** What `Separator.deframe` returns. A single segment is returned as it is;
      otherwise the quarter points must be whole samples and the kept pieces
      are concatenated in segment order. */
  function Deframed<T>(segments: seq<Waveform<T>>): (r: Result<Waveform<T>>)
    requires IsStack(segments)
    ensures |segments| == 0 ==> r == Err(NoSegments)
    ensures |segments| == 1 ==> r == Ok(segments[0])
    ensures |segments| >= 2 ==> (r.Ok? <==> segments[0].samples % 4 == 0)
    ensures r.Ok? ==> r.value.Valid() && |r.value.channels| == |segments[0].channels|
  {
    if |segments| == 1 then
      Ok(segments[0])
    else if |segments| == 0 then
      Err(NoSegments)
    else if !QuarterPointsWhole(segments[0].samples) then
      Err(NonDivisible)
    else
      Ok(JoinAll(KeptPieces(segments)))
  }

  /** `Separator.deframe`: collects the kept pieces in a list, one loop step per
      interior segment, and concatenates them. */
  method Deframe<T>(segments: seq<Waveform<T>>) returns (r: Result<Waveform<T>>)
    requires IsStack(segments)
    ensures r == Deframed(segments)
  {
    var segmentsNum := |segments|;
    if segmentsNum == 1 {
      return Ok(segments[0]);
    }
    if segmentsNum == 0 {
      return Err(NoSegments);
    }
    var segmentSamples := segments[0].samples;
    if !QuarterPointsWhole(segmentSamples) {
      return Err(NonDivisible);
    }
    ghost var kept := KeptPieces(segments);
    var quarter := segmentSamples / 4;
    var output := [Slice(segments[0], 0, 3 * quarter)];
    for i := 1 to segmentsNum - 1
      invariant output == kept[..i]
    {
      output := output + [Slice(segments[i], quarter, 3 * quarter)];
    }
    output := output + [Slice(segments[segmentsNum - 1], quarter, segmentSamples)];
    assert output == kept;
    return Ok(JoinAll(output));
  }

  /** The kept pieces before segment `k` hold `3L/4 + (k-1)L/2` samples. */
  lemma {:induction false} KeptPrefixSamples<T>(segments: seq<Waveform<T>>, k: nat)
    requires IsStack(segments) && |segments| >= 2 && segments[0].samples % 4 == 0
    requires 1 <= k <= |segments| - 1
    ensures TotalSamples(KeptPieces(segments)[..k])
              == 3 * (segments[0].samples / 4) + (k - 1) * (segments[0].samples / 2)
  {
    var ps := KeptPieces(segments);
    TotalSamplesNext(ps, k - 1);
    if k > 1 {
      KeptPrefixSamples(segments, k - 1);
      MulPred(k - 1, segments[0].samples / 2);
    } else {
      assert ps[..0] == [];
    }
  }

  /** With two or more segments, the deframed clip is `3L/4 + (n-2)L/2 + 3L/4`
      samples long and has the segments' channel count. */
  lemma {:induction false} DeframedLength<T>(segments: seq<Waveform<T>>)
    requires IsStack(segments) && |segments| >= 2 && segments[0].samples % 4 == 0
    ensures Deframed(segments).Ok?
    ensures var out := Deframed(segments).value;
            var L := segments[0].samples;
            out.Valid() && |out.channels| == |segments[0].channels| &&
            out.samples == 3 * (L / 4) + (|segments| - 2) * (L / 2) + 3 * (L / 4)
  {
    var n := |segments|;
    var ps := KeptPieces(segments);
    KeptPrefixSamples(segments, n - 1);
    assert TotalSamples(ps) == TotalSamples(ps[..n - 1]) + ps[n - 1].samples;
  }

  /** The `2m - 1` windows of `m >= 2` segments deframe to `m` segments' worth of samples. */
  lemma {:induction false} DeframedLengthOfMultiple<T>(segments: seq<Waveform<T>>, m: nat)
    requires IsStack(segments) && m >= 2 && |segments| == 2 * m - 1
    requires segments[0].samples % 4 == 0
    ensures Deframed(segments).Ok?
    ensures Deframed(segments).value.samples == m * segments[0].samples
  {
    var L := segments[0].samples;
    var q := L / 4;
    DeframedLength(segments);
    Quarters(L);
    assert (2 * m - 3) * (2 * q) == 4 * m * q - 6 * q;
    assert m * L == 4 * m * q;
  }

  /** The kept slices appear in segment order: sample `t` of the part kept from
      segment `i` is sample `OutputStart(L, i) + t` of the deframed clip. */
  lemma {:induction false} DeframedAt<T>(segments: seq<Waveform<T>>, i: nat, c: nat, t: nat)
    requires IsStack(segments) && |segments| >= 2 && segments[0].samples % 4 == 0
    requires i < |segments| && c < |segments[0].channels|
    requires KeepFrom(segments[0].samples, i) + t < KeepTo(|segments|, segments[0].samples, i)
    ensures Deframed(segments).Ok?
    ensures var out := Deframed(segments).value;
            var L := segments[0].samples;
            OutputStart(L, i) + t < out.samples &&
            out.channels[c][OutputStart(L, i) + t] == segments[i].channels[c][KeepFrom(L, i) + t]
  {
    var ps := KeptPieces(segments);
    var L := segments[0].samples;
    Quarters(L);
    JoinAllAt(ps, i, c, t);
    assert ps[i].channels[c][t] == segments[i].channels[c][KeepFrom(L, i) + t];
    if i == 0 {
      assert ps[..0] == [];
    } else {
      KeptPrefixSamples(segments, i);
      MulPred(i, L / 2);
    }
  }

  /** The part deframing keeps of interior window `i` is the clip's samples
      `[i*L/2 + L/4, i*L/2 + 3L/4)`. */
  lemma {:induction false} InteriorPiece<T>(x: Waveform<T>, segmentSamples: nat, i: nat)
    requires x.Valid() && segmentSamples >= 4 && segmentSamples % 4 == 0
    requires 1 <= i && FrameFits(x.samples, segmentSamples, i + 1)
    ensures IsStack(Frames(x, segmentSamples)) && i + 1 < |Frames(x, segmentSamples)|
    ensures i * (segmentSamples / 2) + 3 * (segmentSamples / 4) <= x.samples
    ensures KeptPieces(Frames(x, segmentSamples))[i]
              == Slice(x, i * (segmentSamples / 2) + segmentSamples / 4,
                          i * (segmentSamples / 2) + 3 * (segmentSamples / 4))
  {
    var L := segmentSamples;
    var frames := Frames(x, L);
    FramesStack(x, L);
    assert FrameFits(x.samples, L, i + 1);
    MulPred(i + 1, Hop(L));
    assert FrameFits(x.samples, L, i);
    var s := i * Hop(L);
    assert frames[i] == Slice(x, s, s + L);
    assert KeptPieces(frames)[i] == Slice(frames[i], L / 4, 3 * (L / 4));
    SliceOfSlice(x, s, s + L, L / 4, 3 * (L / 4));
  }

  /** The part deframing keeps of the first window is the clip's samples `[0, 3L/4)`. */
  lemma {:induction false} FirstPiece<T>(x: Waveform<T>, segmentSamples: nat)
    requires x.Valid() && segmentSamples >= 4 && segmentSamples % 4 == 0
    requires FrameFits(x.samples, segmentSamples, 1)
    ensures IsStack(Frames(x, segmentSamples)) && 1 < |Frames(x, segmentSamples)|
    ensures KeptPieces(Frames(x, segmentSamples))[0] == Slice(x, 0, 3 * (segmentSamples / 4))
  {
    var L := segmentSamples;
    var frames := Frames(x, L);
    FramesStack(x, L);
    assert FrameFits(x.samples, L, 1);
    assert frames[0] == Slice(x, 0, L);
    assert KeptPieces(frames)[0] == Slice(frames[0], 0, 3 * (L / 4));
    SliceOfSlice(x, 0, L, 0, 3 * (L / 4));
  }

  /** The last window of a clip of `m >= 2` segments ends at the clip's end, and
      deframing keeps the last `3L/4` samples of the clip from it. */
  lemma {:induction false} LastPiece<T>(x: Waveform<T>, segmentSamples: nat, m: nat)
    requires x.Valid() && segmentSamples >= 4 && segmentSamples % 4 == 0
    requires m >= 2 && x.samples == m * segmentSamples
    ensures IsStack(Frames(x, segmentSamples)) && |Frames(x, segmentSamples)| == 2 * m - 1
    ensures FrameFits(x.samples, segmentSamples, 2 * m - 2)
    ensures (2 * m - 2) * (segmentSamples / 2) + segmentSamples == x.samples
    ensures KeptPieces(Frames(x, segmentSamples))[2 * m - 2]
              == Slice(x, x.samples - 3 * (segmentSamples / 4), x.samples)
  {
    var L := segmentSamples;
    var h := L / 2;
    FramesStack(x, L);
    FrameCountOfMultiple(L, m);
    var frames := Frames(x, L);
    var n := 2 * m - 1;
    assert (n - 1) * h == (m - 1) * (2 * h);
    MulPred(m, L);
    var s := (n - 1) * h;
    assert s + L == x.samples;
    assert FrameFits(x.samples, L, n - 1);
    assert frames[n - 1] == Slice(x, s, s + L);
    assert KeptPieces(frames)[n - 1] == Slice(frames[n - 1], L / 4, L);
    SliceOfSlice(x, s, s + L, L / 4, L);
  }

  /** Where deframing cuts a clip of `m >= 2` segments: the kept part of
      window `i` is the clip's samples from `OutputStart(L, i)` up to the next
      window's start, or up to the clip's end for the last window. */
  function ClipCut(samples: nat, segmentSamples: nat, n: nat, i: nat): nat {
    if i < n then OutputStart(segmentSamples, i) else samples
  }

  /** The kept part of each window of a clip of `m >= 2` segments is the clip
      between two consecutive cuts. */
  lemma {:induction false} KeptPieceCut<T>(x: Waveform<T>, segmentSamples: nat, m: nat, i: nat)
    requires x.Valid() && segmentSamples >= 4 && segmentSamples % 4 == 0
    requires m >= 2 && x.samples == m * segmentSamples && i < 2 * m - 1
    ensures IsStack(Frames(x, segmentSamples)) && |Frames(x, segmentSamples)| == 2 * m - 1
    ensures var lo := ClipCut(x.samples, segmentSamples, 2 * m - 1, i);
            var hi := ClipCut(x.samples, segmentSamples, 2 * m - 1, i + 1);
            lo <= hi <= x.samples &&
            KeptPieces(Frames(x, segmentSamples))[i] == Slice(x, lo, hi)
  {
    var L := segmentSamples;
    Quarters(L);
    FramesStack(x, L);
    FrameCountOfMultiple(L, m);
    if i == 0 {
      assert FrameFits(x.samples, L, 1);
      FirstPiece(x, L);
    } else if i < 2 * m - 2 {
      InteriorPiece(x, L, i);
      MulPred(i + 1, L / 2);
    } else {
      LastPiece(x, L, m);
    }
  }

  /** All the cuts of a clip of `n` windows, from its start to its end. */
  function ClipCuts(samples: nat, segmentSamples: nat, n: nat): (r: seq<nat>)
    ensures |r| == n + 1
    ensures forall i | 0 <= i <= n :: r[i] == ClipCut(samples, segmentSamples, n, i)
  {
    seq(n + 1, i requires 0 <= i <= n => ClipCut(samples, segmentSamples, n, i))
  }

  /** The kept pieces of a clip of `m >= 2` segments tile it at its cuts. */
  lemma {:induction false} KeptPiecesTile<T>(x: Waveform<T>, segmentSamples: nat, m: nat)
    requires x.Valid() && segmentSamples >= 4 && segmentSamples % 4 == 0
    requires m >= 2 && x.samples == m * segmentSamples
    ensures IsStack(Frames(x, segmentSamples)) && |Frames(x, segmentSamples)| == 2 * m - 1
    ensures Tiles(KeptPieces(Frames(x, segmentSamples)), x, ClipCuts(x.samples, segmentSamples, 2 * m - 1))
  {
    var L, n := segmentSamples, 2 * m - 1;
    var frames := Frames(x, L);
    assert IsStack(frames) && |frames| == n && frames[0].samples == L by {
      KeptPieceCut(x, L, m, 0);
    }
    var ps := KeptPieces(frames);
    var cuts := ClipCuts(x.samples, L, n);
    forall i {:trigger ps[i]} | 0 <= i < n
      ensures cuts[i] <= cuts[i + 1] <= x.samples && ps[i] == Slice(x, cuts[i], cuts[i + 1])
    {
      KeptPieceTiles(x, L, m, i);
    }
  }

  /** Window `i`'s kept part, stated against the whole list of cuts. */
  lemma {:induction false} KeptPieceTiles<T>(x: Waveform<T>, segmentSamples: nat, m: nat, i: nat)
    requires x.Valid() && segmentSamples >= 4 && segmentSamples % 4 == 0
    requires m >= 2 && x.samples == m * segmentSamples && i < 2 * m - 1
    ensures IsStack(Frames(x, segmentSamples)) && |Frames(x, segmentSamples)| == 2 * m - 1
    ensures var cuts := ClipCuts(x.samples, segmentSamples, 2 * m - 1);
            cuts[i] <= cuts[i + 1] <= x.samples &&
            KeptPieces(Frames(x, segmentSamples))[i] == Slice(x, cuts[i], cuts[i + 1])
  {
    KeptPieceCut(x, segmentSamples, m, i);
  }

  /** Two or more windows: the kept pieces tile the clip, so they concatenate to it. */
  lemma {:induction false} DeframeEnframeMany<T>(x: Waveform<T>, segmentSamples: nat, m: nat)
    requires x.Valid() && segmentSamples >= 4 && segmentSamples % 4 == 0
    requires m >= 2 && x.samples == m * segmentSamples
    ensures IsStack(Frames(x, segmentSamples))
    ensures Deframed(Frames(x, segmentSamples)) == Ok(x)
  {
    var L := segmentSamples;
    var n := 2 * m - 1;
    LastPiece(x, L, m);
    var ps := KeptPieces(Frames(x, L));
    var cuts := ClipCuts(x.samples, L, n);
    KeptPiecesTile(x, L, m);
    assert JoinAll(ps) == x by {
      JoinAllTiles(ps, x, cuts);
    }
  }

  /** Deframing the windows of a padded clip gives the clip back: the kept
      quarter regions tile it without gap or overlap. A single window needs no
      quarter points; two or more need a segment length divisible by four. */
  lemma {:induction false} DeframeEnframe<T>(x: Waveform<T>, segmentSamples: nat)
    requires x.Valid() && segmentSamples >= 2
    requires x.samples > 0 && x.samples % segmentSamples == 0
    requires segmentSamples % 4 == 0 || x.samples == segmentSamples
    ensures IsStack(Frames(x, segmentSamples))
    ensures Deframed(Frames(x, segmentSamples)) == Ok(x)
  {
    var L := segmentSamples;
    FramesStack(x, L);
    var m := x.samples / L;
    DivMod(x.samples, L);
    if m == 1 {
      assert FrameFits(x.samples, L, 0) && !FrameFits(x.samples, L, 1);
      SliceWhole(x);
    } else {
      DeframeEnframeMany(x, L, m);
    }
  }
}
