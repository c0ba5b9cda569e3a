/** Multichannel audio buffers of shape (channels, samples), and the two numpy
    operations the framer uses on them: slicing the sample axis and
    concatenating along it. */
module Waveforms {

  /** `channels[c]` is channel `c`. The sample count is kept on its own so that a
      buffer with no channels still has a length, as an array of shape (0, S) does. */
  datatype Waveform<T> = Waveform(samples: nat, channels: seq<seq<T>>)
  {
    /** Every channel holds exactly `samples` samples. */
    predicate Valid() {
      forall c | 0 <= c < |channels| :: |channels[c]| == samples
    }
  }

  /** `n` copies of the zero sample: the body of `np.zeros`. */
  function Zeros<T>(n: nat, zero: T): (r: seq<T>)
    ensures |r| == n
    ensures forall t | 0 <= t < n :: r[t] == zero
  {
    seq(n, _ => zero)
  }

  /** `w[:, lo:hi]`. */
  function Slice<T>(w: Waveform<T>, lo: nat, hi: nat): (r: Waveform<T>)
    requires w.Valid() && lo <= hi <= w.samples
    ensures r.Valid() && r.samples == hi - lo && |r.channels| == |w.channels|
    ensures forall c | 0 <= c < |w.channels| :: r.channels[c] == w.channels[c][lo..hi]
  {
    Waveform(hi - lo, seq(|w.channels|, c requires 0 <= c < |w.channels| => w.channels[c][lo..hi]))
  }

  /** `np.concatenate((a, b), axis=-1)`. */
  function Join<T>(a: Waveform<T>, b: Waveform<T>): (r: Waveform<T>)
    requires a.Valid() && b.Valid() && |a.channels| == |b.channels|
    ensures r.Valid() && r.samples == a.samples + b.samples && |r.channels| == |a.channels|
    ensures forall c | 0 <= c < |a.channels| :: r.channels[c] == a.channels[c] + b.channels[c]
  {
    Waveform(a.samples + b.samples,
             seq(|a.channels|, c requires 0 <= c < |a.channels| => a.channels[c] + b.channels[c]))
  }

  /** All pieces are buffers with `channels` channels. */
  predicate SameChannels<T>(pieces: seq<Waveform<T>>, channels: nat) {
    forall i | 0 <= i < |pieces| :: pieces[i].Valid() && |pieces[i].channels| == channels
  }

  /** The sum of the pieces' sample counts. */
  function TotalSamples<T>(pieces: seq<Waveform<T>>): nat {
    if pieces == [] then 0 else TotalSamples(pieces[..|pieces| - 1]) + pieces[|pieces| - 1].samples
  }

  /** `np.concatenate(pieces, axis=-1)` for a non-empty list of pieces. */
  function JoinAll<T>(pieces: seq<Waveform<T>>): (r: Waveform<T>)
    requires |pieces| >= 1 && SameChannels(pieces, |pieces[0].channels|)
    ensures r.Valid() && |r.channels| == |pieces[0].channels|
    ensures r.samples == TotalSamples(pieces)
  {
    if |pieces| == 1 then
      pieces[0]
    else
      Join(JoinAll(pieces[..|pieces| - 1]), pieces[|pieces| - 1])
  }

  /** Slicing a slice is slicing the original at shifted bounds. */
  lemma {:induction false} SliceOfSlice<T>(w: Waveform<T>, lo: nat, hi: nat, lo': nat, hi': nat)
    requires w.Valid() && lo <= hi <= w.samples && lo' <= hi' <= hi - lo
    ensures Slice(Slice(w, lo, hi), lo', hi') == Slice(w, lo + lo', lo + hi')
  {
    var a := Slice(Slice(w, lo, hi), lo', hi');
    var b := Slice(w, lo + lo', lo + hi');
    forall c | 0 <= c < |w.channels|
      ensures a.channels[c] == b.channels[c]
    {
      assert w.channels[c][lo..hi][lo'..hi'] == w.channels[c][lo + lo'..lo + hi'];
    }
  }

  /** Two adjacent slices concatenate to the slice spanning both. */
  lemma {:induction false} JoinAdjacent<T>(w: Waveform<T>, lo: nat, mid: nat, hi: nat)
    requires w.Valid() && lo <= mid <= hi <= w.samples
    ensures Join(Slice(w, lo, mid), Slice(w, mid, hi)) == Slice(w, lo, hi)
  {
    var a := Join(Slice(w, lo, mid), Slice(w, mid, hi));
    var b := Slice(w, lo, hi);
    forall c | 0 <= c < |w.channels|
      ensures a.channels[c] == b.channels[c]
    {
      assert w.channels[c][lo..mid] + w.channels[c][mid..hi] == w.channels[c][lo..hi];
    }
  }

  /** The slice over the whole sample axis is the buffer itself. */
  lemma {:induction false} SliceWhole<T>(w: Waveform<T>)
    requires w.Valid()
    ensures Slice(w, 0, w.samples) == w
  {
    var b := Slice(w, 0, w.samples);
    forall c | 0 <= c < |w.channels|
      ensures b.channels[c] == w.channels[c]
    {
      assert w.channels[c][0..w.samples] == w.channels[c];
    }
  }

  /** Sample `t` of piece `i` sits, in the concatenation, after all samples of
      the pieces before it. */
  lemma {:induction false} JoinAllAt<T>(pieces: seq<Waveform<T>>, i: nat, c: nat, t: nat)
    requires |pieces| >= 1 && SameChannels(pieces, |pieces[0].channels|)
    requires i < |pieces| && c < |pieces[0].channels| && t < pieces[i].samples
    ensures TotalSamples(pieces[..i]) + t < JoinAll(pieces).samples
    ensures JoinAll(pieces).channels[c][TotalSamples(pieces[..i]) + t] == pieces[i].channels[c][t]
  {
    var n := |pieces|;
    if n == 1 {
      assert pieces[..i] == [];
    } else {
      var init := pieces[..n - 1];
      var whole := JoinAll(pieces);
      assert whole == Join(JoinAll(init), pieces[n - 1]);
      assert whole.channels[c] == JoinAll(init).channels[c] + pieces[n - 1].channels[c];
      if i < n - 1 {
        assert init[..i] == pieces[..i];
        JoinAllAt(init, i, c, t);
      } else {
        assert pieces[..i] == init;
      }
    }
  }

  /** The samples of the first `k + 1` pieces are those of the first `k` and then piece `k`'s. */
  lemma {:induction false} TotalSamplesNext<T>(pieces: seq<Waveform<T>>, k: nat)
    requires k < |pieces|
    ensures TotalSamples(pieces[..k + 1]) == TotalSamples(pieces[..k]) + pieces[k].samples
  {
    assert pieces[..k + 1][..k] == pieces[..k];
  }

  /** Extending a concatenation that rebuilds `w[:, 0:a]` by the piece `w[:, a:b]`
      rebuilds `w[:, 0:b]`. */
  lemma {:induction false} JoinAllNext<T>(pieces: seq<Waveform<T>>, k: nat, w: Waveform<T>, a: nat, b: nat)
    requires w.Valid() && SameChannels(pieces, |w.channels|) && 1 <= k < |pieces|
    requires a <= b <= w.samples
    requires JoinAll(pieces[..k]) == Slice(w, 0, a) && pieces[k] == Slice(w, a, b)
    ensures JoinAll(pieces[..k + 1]) == Slice(w, 0, b)
  {
    assert pieces[..k + 1][..k] == pieces[..k];
    JoinAdjacent(w, 0, a, b);
  }

  /** The pieces cut `w` at the ascending `cuts`: piece `i` is `w[:, cuts[i]:cuts[i+1]]`. */
  ghost predicate Tiles<T>(pieces: seq<Waveform<T>>, w: Waveform<T>, cuts: seq<nat>) {
    w.Valid() && |cuts| == |pieces| + 1 &&
    forall i {:trigger pieces[i]} | 0 <= i < |pieces| ::
      cuts[i] <= cuts[i + 1] <= w.samples && pieces[i] == Slice(w, cuts[i], cuts[i + 1])
  }

  /** The first `k` pieces of a tiling from sample 0 concatenate to `w[:, 0:cuts[k]]`. */
  lemma {:induction false} JoinAllTilesPrefix<T>(pieces: seq<Waveform<T>>, w: Waveform<T>, cuts: seq<nat>, k: nat)
    requires Tiles(pieces, w, cuts) && cuts[0] == 0 && 1 <= k <= |pieces|
    ensures SameChannels(pieces, |w.channels|)
    ensures JoinAll(pieces[..k]) == Slice(w, 0, cuts[k])
  {
    forall i | 0 <= i < |pieces|
      ensures pieces[i].Valid() && |pieces[i].channels| == |w.channels|
    {
      var piece := pieces[i];
      assert piece == Slice(w, cuts[i], cuts[i + 1]);
    }
    if k == 1 {
      assert pieces[..1] == [pieces[0]];
      assert JoinAll(pieces[..1]) == pieces[0];
    } else {
      JoinAllTilesPrefix(pieces, w, cuts, k - 1);
      var last := pieces[k - 1];
      JoinAllNext(pieces, k - 1, w, cuts[k - 1], cuts[k]);
    }
  }

  /** Pieces that tile `w` from its first sample to its last concatenate to `w`. */
  lemma {:induction false} JoinAllTiles<T>(pieces: seq<Waveform<T>>, w: Waveform<T>, cuts: seq<nat>)
    requires Tiles(pieces, w, cuts) && |pieces| >= 1 && cuts[0] == 0 && cuts[|pieces|] == w.samples
    ensures SameChannels(pieces, |w.channels|) && JoinAll(pieces) == w
  {
    JoinAllTilesPrefix(pieces, w, cuts, |pieces|);
    assert pieces[..|pieces|] == pieces;
    SliceWhole(w);
  }
}
