/** `Subband` (music_source_separation/models/pytorch_modules.py): splits the
    frequency axis of a (batch, channels, time, frequency) spectrogram into
    `k` equal bands stacked along the channel axis, and stitches them back. */
module Subbands {
  import opened Arith
  import opened Results
  import opened Tensors

  /** Splitting or merging axis 1 by `k` in a five-axis shape keeps the element count. */
  lemma {:induction false} RegroupCount(a: nat, b: nat, c: nat, k: nat, g: nat)
    ensures Product([a, b, c, k, g]) == Product([a, b * k, c, g])
    ensures Product([a, b, k, c, g]) == Product([a, b * k, c, g])
  {
    Product5(a, b, c, k, g);
    Product5(a, b, k, c, g);
    Product4(a, b * k, c, g);
    assert a * b * c * k * g == a * (b * k) * c * g;
    assert a * b * k * c * g == a * (b * k) * c * g;
  }

  /** The first reshape of `analysis` keeps the element count exactly when
      `k` divides `f` or the other axes hold no element. */
  lemma {:induction false} SplitCount(a: nat, b: nat, c: nat, k: nat, f: nat)
    requires k > 0
    ensures Product([a, b, c, k, f / k]) == Product([a, b, c, f]) <==> f % k == 0 || a * b * c == 0
  {
    var p := a * b * c;
    assert Product([a, b, c, k, f / k]) == p * (k * (f / k)) by {
      Product5(a, b, c, k, f / k);
    }
    assert Product([a, b, c, f]) == p * f by {
      Product4(a, b, c, f);
    }
    ScaledDivExact(p, f, k);
  }

  /** The last reshape of `synthesis` keeps the element count. */
  lemma {:induction false} FreqCount(a: nat, b: nat, c: nat, k: nat, f: nat)
    ensures Product([a, b, c, k, f]) == Product([a, b, c, f * k])
  {
    Product5(a, b, c, k, f);
    Product4(a, b, c, f * k);
    assert a * b * c * k * f == a * b * c * (f * k);
  }

  /** A subband transform with `subbandsNum` bands (`Subband.__init__`). */
  datatype Subband = Subband(subbandsNum: int)
  {
    /** `Subband.analysis`: a (B, C, T, F) tensor becomes (B, C*k, T, F/k).
        The first reshape needs the element counts to agree, which holds when
        `k` divides `F` or the tensor is empty; a band count that is not
        positive divides by zero or makes a negative axis. */
    function Analysis<T>(x: Tensor<T>): (r: Result<Tensor<T>>)
      requires x.Valid()
      ensures |x.shape| != 4 ==> r == Err(WrongRank)
      ensures |x.shape| == 4 && subbandsNum <= 0 ==> r == Err(InvalidSubbands)
      ensures |x.shape| == 4 && subbandsNum > 0 ==>
                (r.Ok? <==> x.shape[3] % subbandsNum == 0 || x.shape[0] * x.shape[1] * x.shape[2] == 0)
      ensures r.Ok? ==>
                r.value.Valid() &&
                r.value.shape == [x.shape[0], x.shape[1] * subbandsNum as nat, x.shape[2], x.shape[3] / subbandsNum as nat]
    {
      if |x.shape| != 4 then
        Err(WrongRank)
      else if subbandsNum <= 0 then
        Err(InvalidSubbands)
      else
        var k := subbandsNum as nat;
        var batch, channels, time, freq := x.shape[0], x.shape[1], x.shape[2], x.shape[3];
        assert x.shape == [batch, channels, time, freq];
        SplitCount(batch, channels, time, k, freq);
        RegroupCount(batch, channels, time, k, freq / k);
        var split :- Reshape(x, [batch, channels, time, k, freq / k]);
        var swapped := SwapAxes23(split);
        Reshape(swapped, [batch, channels * k, time, freq / k])
    }

    /** `Subband.synthesis`: a (B, C', T, F') tensor becomes (B, C'/k, T, F'*k).
        The first reshape needs the element counts to agree, which holds when
        `k` divides `C'` or the tensor is empty. */
    function Synthesis<T>(x: Tensor<T>): (r: Result<Tensor<T>>)
      requires x.Valid()
      ensures |x.shape| != 4 ==> r == Err(WrongRank)
      ensures |x.shape| == 4 && subbandsNum <= 0 ==> r == Err(InvalidSubbands)
      ensures |x.shape| == 4 && subbandsNum > 0 ==>
                (r.Ok? <==> x.shape[1] % subbandsNum == 0 || x.shape[0] * x.shape[2] * x.shape[3] == 0)
      ensures r.Ok? ==>
                r.value.Valid() &&
                r.value.shape == [x.shape[0], x.shape[1] / subbandsNum as nat, x.shape[2], x.shape[3] * subbandsNum as nat]
    {
      if |x.shape| != 4 then
        Err(WrongRank)
      else if subbandsNum <= 0 then
        Err(InvalidSubbands)
      else
        var k := subbandsNum as nat;
        var batch, subbandChannels, time, subbandFreq := x.shape[0], x.shape[1], x.shape[2], x.shape[3];
        var channels := subbandChannels / k;
        var freq := subbandFreq * k;
        assert x.shape == [batch, subbandChannels, time, subbandFreq];
        PairDecode(subbandFreq, 0, k);
        MergeCount(batch, subbandChannels, time, subbandFreq, k);
        FreqCount(batch, channels, time, k, subbandFreq);
        var split :- Reshape(x, [batch, channels, k, time, freq / k]);
        var swapped := SwapAxes23(split);
        Reshape(swapped, [batch, channels, time, freq])
    }
  }

  /** The first reshape of `synthesis` keeps the element count exactly when
      `k` divides `b` or the other axes hold no element. */
  lemma {:induction false} MergeCount(a: nat, b: nat, c: nat, f: nat, k: nat)
    requires k > 0
    ensures Product([a, b / k, k, c, f]) == Product([a, b, c, f]) <==> b % k == 0 || a * c * f == 0
  {
    var p := a * c * f;
    assert Product([a, b / k, k, c, f]) == p * (k * (b / k)) by {
      Product5(a, b / k, k, c, f);
      assert a * (b / k) * k * c * f == p * (k * (b / k));
    }
    assert Product([a, b, c, f]) == p * b by {
      Product4(a, b, c, f);
      assert a * b * c * f == p * b;
    }
    ScaledDivExact(p, b, k);
  }
  // ---------------------------------------------------------------- properties

  /** A successful `analysis` of a (B, C, T, F) tensor is the transpose of its
      (B, C, T, k, F/k) view, read under the output shape. */
  lemma {:induction false} AnalysisSteps<E>(k: nat, x: Tensor<E>, nb: nat, nc: nat, nt: nat, nf: nat)
    requires k > 0 && x.Valid() && x.shape == [nb, nc, nt, nf] && Subband(k).Analysis(x).Ok?
    ensures var split := Tensor([nb, nc, nt, k, nf / k], x.data);
            split.Valid() &&
            Subband(k).Analysis(x).value == Tensor([nb, nc * k, nt, nf / k], SwapAxes23(split).data)
  {
    SplitCount(nb, nc, nt, k, nf);
  }

  /** A successful `synthesis` of a (B, C', T, F') tensor is the transpose of
      its (B, C'/k, k, T, F') view, read under the output shape. */
  lemma {:induction false} SynthesisSteps<E>(k: nat, y: Tensor<E>, nb: nat, nc: nat, nt: nat, nf: nat)
    requires k > 0 && y.Valid() && y.shape == [nb, nc, nt, nf] && Subband(k).Synthesis(y).Ok?
    ensures var split := Tensor([nb, nc / k, k, nt, nf], y.data);
            split.Valid() &&
            Subband(k).Synthesis(y).value == Tensor([nb, nc / k, nt, nf * k], SwapAxes23(split).data)
  {
    PairDecode(nf, 0, k);
    MergeCount(nb, nc, nt, nf, k);
  }

  /** `analysis` puts band `s` of channel `c` on channel `c*k + s`: its element
      at frequency `f` is the input's at frequency `s*(F/k) + f` (both
      written as digit pairs). A non-empty
      tensor is only accepted when `k` divides `F`. */
  lemma {:induction false} AnalysisAt<E>(k: nat, x: Tensor<E>, nb: nat, nc: nat, nt: nat, nf: nat,
                                         b: nat, c: nat, s: nat, t: nat, f: nat)
    requires k > 0 && x.Valid() && x.shape == [nb, nc, nt, nf] && Subband(k).Analysis(x).Ok?
    requires b < nb && c < nc && s < k && t < nt && f < nf / k
    ensures nf % k == 0
    ensures Digits(c, s, k) < nc * k && Digits(s, f, nf / k) < nf
    ensures At4(Subband(k).Analysis(x).value, b, Digits(c, s, k), t, f) == At4(x, b, c, t, Digits(s, f, nf / k))
  {
    var g := nf / k;
    AnalysisDivides(k, x, nb, nc, nt, nf);
    assert nf == k * g by {
      DivExact(nf, k);
    }
    AnalysisSteps(k, x, nb, nc, nt, nf);
    PairBound(c, s, nc, k);
    PairBound(s, f, k, g);
    SwapAtMerged12(Tensor([nb, nc, nt, k, g], x.data), nb, nc, nt, k, g, b, c, t, s, f);
    At4Data(Subband(k).Analysis(x).value, nb, nc * k, nt, g, b, Digits(c, s, k), t, f);
    At4Data(x, nb, nc, nt, k * g, b, c, t, Digits(s, f, g));
  }

  /** A successful `analysis` of a non-empty tensor had `k` dividing its frequency axis. */
  lemma {:induction false} AnalysisDivides<E>(k: nat, x: Tensor<E>, nb: nat, nc: nat, nt: nat, nf: nat)
    requires k > 0 && x.Valid() && x.shape == [nb, nc, nt, nf] && Subband(k).Analysis(x).Ok?
    requires nb > 0 && nc > 0 && nt > 0
    ensures nf % k == 0
  {
    assert nb * nc * nt > 0;
  }

  /** `synthesis` puts channel `c*k + s` back as band `s` of channel `c`: the
      output's element at frequency `s*F' + f` is the input's at `(c*k + s, f)`.
      A non-empty tensor is only accepted when `k` divides `C'`. */
  lemma {:induction false} SynthesisAt<E>(k: nat, y: Tensor<E>, nb: nat, nc: nat, nt: nat, nf: nat,
                                          b: nat, c: nat, s: nat, t: nat, f: nat)
    requires k > 0 && y.Valid() && y.shape == [nb, nc, nt, nf] && Subband(k).Synthesis(y).Ok?
    requires b < nb && c < nc / k && s < k && t < nt && f < nf
    ensures nc % k == 0
    ensures Digits(c, s, k) < nc && Digits(s, f, nf) < nf * k
    ensures At4(Subband(k).Synthesis(y).value, b, c, t, Digits(s, f, nf)) == At4(y, b, Digits(c, s, k), t, f)
  {
    var q := nc / k;
    SynthesisDivides(k, y, nb, nc, nt, nf);
    assert nc == q * k by {
      DivExact(nc, k);
    }
    SynthesisSteps(k, y, nb, nc, nt, nf);
    SynthesisDataAt(k, y, nb, q, nt, nf, b, c, s, t, f);
  }

  /** A successful `synthesis` of a non-empty tensor had `k` dividing its channel axis. */
  lemma {:induction false} SynthesisDivides<E>(k: nat, y: Tensor<E>, nb: nat, nc: nat, nt: nat, nf: nat)
    requires k > 0 && y.Valid() && y.shape == [nb, nc, nt, nf] && Subband(k).Synthesis(y).Ok?
    requires nb > 0 && nt > 0 && nf > 0
    ensures nc % k == 0
  {
    assert nb * nt * nf > 0;
  }

  /** The element move of `SynthesisAt` on the data, with `C' = q*k`. */
  lemma {:induction false} SynthesisDataAt<E>(k: nat, y: Tensor<E>, nb: nat, q: nat, nt: nat, nf: nat,
                                              b: nat, c: nat, s: nat, t: nat, f: nat)
    requires k > 0 && y.Valid() && y.shape == [nb, q * k, nt, nf]
    requires b < nb && c < q && s < k && t < nt && f < nf
    ensures var split := Tensor([nb, q, k, nt, nf], y.data);
            split.Valid() &&
            var out := Tensor([nb, q, nt, nf * k], SwapAxes23(split).data);
            out.Valid() && Digits(c, s, k) < q * k && Digits(s, f, nf) < nf * k &&
            At4(out, b, c, t, Digits(s, f, nf)) == At4(y, b, Digits(c, s, k), t, f)
  {
    RegroupCount(nb, q, nt, k, nf);
    FreqCount(nb, q, nt, k, nf);
    var split := Tensor([nb, q, k, nt, nf], y.data);
    var out := Tensor([nb, q, nt, nf * k], SwapAxes23(split).data);
    PairBound(c, s, q, k);
    PairBound(s, f, k, nf);
    SwapAtMerged34(split, nb, q, k, nt, nf, b, c, s, t, f);
    At4Data(out, nb, q, nt, k * nf, b, c, t, Digits(s, f, nf));
    At4Data(y, nb, q * k, nt, nf, b, Digits(c, s, k), t, f);
  }

  /** `synthesis` undoes `analysis` whenever `k` divides the frequency axis. */
  lemma {:induction false} SynthesisAnalysis<E>(k: nat, x: Tensor<E>, nb: nat, nc: nat, nt: nat, nf: nat)
    requires k > 0 && x.Valid() && x.shape == [nb, nc, nt, nf] && nf % k == 0
    ensures Subband(k).Analysis(x).Ok?
    ensures Subband(k).Synthesis(Subband(k).Analysis(x).value) == Ok(x)
  {
    var g := nf / k;
    var split := Tensor([nb, nc, nt, k, g], x.data);
    var y := Subband(k).Analysis(x).value;
    assert y == Tensor([nb, nc * k, nt, g], SwapAxes23(split).data) && y.shape[1] % k == 0 by {
      AnalysisSteps(k, x, nb, nc, nt, nf);
      PairDecode(nc, 0, k);
    }
    assert Subband(k).Synthesis(y) == Ok(x) by {
      SynthesisSteps(k, y, nb, nc * k, nt, g);
      PairDecode(nc, 0, k);
      assert Tensor([nb, nc, k, nt, g], y.data) == SwapAxes23(split);
      SwapTwice(split);
      assert nf == g * k by {
        DivExact(nf, k);
      }
    }
  }

  /** `analysis` undoes `synthesis` whenever `k` divides the channel axis. */
  lemma {:induction false} AnalysisSynthesis<E>(k: nat, y: Tensor<E>, nb: nat, nc: nat, nt: nat, nf: nat)
    requires k > 0 && y.Valid() && y.shape == [nb, nc, nt, nf] && nc % k == 0
    ensures Subband(k).Synthesis(y).Ok?
    ensures Subband(k).Analysis(Subband(k).Synthesis(y).value) == Ok(y)
  {
    var q := nc / k;
    var split := Tensor([nb, q, k, nt, nf], y.data);
    var x := Subband(k).Synthesis(y).value;
    assert x == Tensor([nb, q, nt, nf * k], SwapAxes23(split).data) && x.shape[3] % k == 0 by {
      SynthesisSteps(k, y, nb, nc, nt, nf);
      PairDecode(nf, 0, k);
    }
    assert Subband(k).Analysis(x) == Ok(y) by {
      AnalysisSteps(k, x, nb, q, nt, nf * k);
      PairDecode(nf, 0, k);
      assert Tensor([nb, q, nt, k, nf], x.data) == SwapAxes23(split);
      SwapTwice(split);
      assert nc == q * k by {
        DivExact(nc, k);
      }
    }
  }

  /** On an empty tensor whose frequency axis `k` does not divide, `analysis`
      still succeeds (the reshape only compares element counts) but drops the
      last `F % k` frequencies from the shape, so `synthesis` does not give the
      input's shape back. */
  lemma {:induction false} EmptyRoundTripShape<E>(k: nat, x: Tensor<E>, nb: nat, nc: nat, nt: nat, nf: nat)
    requires k > 0 && x.Valid() && x.shape == [nb, nc, nt, nf]
    requires nb * nc * nt == 0 && nf % k != 0
    ensures Subband(k).Analysis(x).Ok?
    ensures Subband(k).Synthesis(Subband(k).Analysis(x).value).Ok?
    ensures Subband(k).Synthesis(Subband(k).Analysis(x).value).value.shape[3] < nf
  {
    var y := Subband(k).Analysis(x).value;
    assert y.shape == [nb, nc * k, nt, nf / k];
    assert y.shape[1] % k == 0 by {
      PairDecode(nc, 0, k);
    }
    assert (nf / k) * k < nf by {
      DivExact(nf, k);
    }
  }

  /** `analysis` moves elements and computes none: the output holds the
      input's elements, each as often. */
  lemma {:induction false} AnalysisPermutes<E>(k: nat, x: Tensor<E>, nb: nat, nc: nat, nt: nat, nf: nat)
    requires k > 0 && x.Valid() && x.shape == [nb, nc, nt, nf] && Subband(k).Analysis(x).Ok?
    ensures multiset(Subband(k).Analysis(x).value.data) == multiset(x.data)
  {
    AnalysisSteps(k, x, nb, nc, nt, nf);
    SwapMultiset(Tensor([nb, nc, nt, k, nf / k], x.data));
  }

  /** `synthesis` moves elements and computes none. */
  lemma {:induction false} SynthesisPermutes<E>(k: nat, y: Tensor<E>, nb: nat, nc: nat, nt: nat, nf: nat)
    requires k > 0 && y.Valid() && y.shape == [nb, nc, nt, nf] && Subband(k).Synthesis(y).Ok?
    ensures multiset(Subband(k).Synthesis(y).value.data) == multiset(y.data)
  {
    SynthesisSteps(k, y, nb, nc, nt, nf);
    SwapMultiset(Tensor([nb, nc / k, k, nt, nf], y.data));
  }
}
