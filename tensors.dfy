/** Row-major tensors as torch stores them: a shape and the elements in
    row-major order. Only the two operations the subband transform uses are
    modelled: `reshape`, which keeps the elements in place, and
    `transpose(2, 3)` of a five-axis tensor, which moves them. */
module Tensors {
  import opened Arith
  import opened Results

  /** The number of elements of a tensor of this shape. */
  function Product(shape: seq<nat>): nat {
    if shape == [] then 1 else Product(shape[..|shape| - 1]) * shape[|shape| - 1]
  }

  lemma {:induction false} Product4(a: nat, b: nat, c: nat, d: nat)
    ensures Product([a, b, c, d]) == a * b * c * d
  {
    assert [a][..0] == [];
    assert Product([a]) == a;
    assert [a, b][..1] == [a];
    assert Product([a, b]) == a * b;
    assert [a, b, c][..2] == [a, b];
    assert Product([a, b, c]) == a * b * c;
    assert [a, b, c, d][..3] == [a, b, c];
  }

  lemma {:induction false} Product5(a: nat, b: nat, c: nat, d: nat, e: nat)
    ensures Product([a, b, c, d, e]) == a * b * c * d * e
  {
    assert [a, b, c, d, e][..4] == [a, b, c, d];
    Product4(a, b, c, d);
  }

  /** Five axes regroup into `a * b` outer blocks of `c * d * e` elements,
      whichever of the middle axes comes first. */
  lemma {:induction false} Regroup5(a: nat, b: nat, c: nat, d: nat, e: nat)
    ensures a * b * c * d * e == (a * b) * (c * d * e)
    ensures c * d * e == d * c * e
  {
  }

  /** The data of a valid five-axis tensor is `a * b` blocks of `c * d * e` elements. */
  lemma {:induction false} Size5<T>(x: Tensor<T>)
    requires x.Valid() && |x.shape| == 5
    ensures |x.data| == (x.shape[0] * x.shape[1]) * (x.shape[2] * x.shape[3] * x.shape[4])
  {
    var s := x.shape;
    assert s == [s[0], s[1], s[2], s[3], s[4]];
    Product5(s[0], s[1], s[2], s[3], s[4]);
    Regroup5(s[0], s[1], s[2], s[3], s[4]);
  }

  /** `data[o]` is the element at row-major offset `o`. */
  datatype Tensor<T> = Tensor(shape: seq<nat>, data: seq<T>)
  {
    /** The data holds one element per index of the shape. */
    predicate Valid() {
      |data| == Product(shape)
    }
  }

  /** `x.reshape(shape)`: the same elements in the same row-major order under a
      new shape, refused when the element counts differ. */
  function Reshape<T>(x: Tensor<T>, shape: seq<nat>): (r: Result<Tensor<T>>)
    requires x.Valid()
    ensures r.Ok? <==> Product(shape) == Product(x.shape)
    ensures r.Err? ==> r.error == ShapeMismatch
    ensures r.Ok? ==> r.value.Valid() && r.value.shape == shape && r.value.data == x.data
  {
    if Product(shape) == Product(x.shape) then Ok(Tensor(shape, x.data)) else Err(ShapeMismatch)
  }

  /** The row-major offset of index `(i, j, k, l)` in a shape `(_, d1, d2, d3)`. */
  function Offset4(d1: nat, d2: nat, d3: nat, i: nat, j: nat, k: nat, l: nat): nat {
    ((i * d1 + j) * d2 + k) * d3 + l
  }

  /** The row-major offset of index `(i, j, k, l, m)` in a shape `(_, d1, d2, d3, d4)`. */
  function Offset5(d1: nat, d2: nat, d3: nat, d4: nat, i: nat, j: nat, k: nat, l: nat, m: nat): nat {
    (((i * d1 + j) * d2 + k) * d3 + l) * d4 + m
  }

  /** An index inside the shape has an offset inside the data. */
  lemma {:induction false} Offset4Bound(d0: nat, d1: nat, d2: nat, d3: nat, i: nat, j: nat, k: nat, l: nat)
    requires i < d0 && j < d1 && k < d2 && l < d3
    ensures Offset4(d1, d2, d3, i, j, k, l) < d0 * d1 * d2 * d3
  {
    PairBound(i, j, d0, d1);
    PairBound(i * d1 + j, k, d0 * d1, d2);
    PairBound((i * d1 + j) * d2 + k, l, d0 * d1 * d2, d3);
  }

  /** `x[i, j, k, l]` of a four-axis tensor. */
  function At4<T>(x: Tensor<T>, i: nat, j: nat, k: nat, l: nat): T
    requires x.Valid() && |x.shape| == 4
    requires i < x.shape[0] && j < x.shape[1] && k < x.shape[2] && l < x.shape[3]
  {
    assert x.shape == [x.shape[0], x.shape[1], x.shape[2], x.shape[3]];
    Product4(x.shape[0], x.shape[1], x.shape[2], x.shape[3]);
    Offset4Bound(x.shape[0], x.shape[1], x.shape[2], x.shape[3], i, j, k, l);
    x.data[Offset4(x.shape[1], x.shape[2], x.shape[3], i, j, k, l)]
  }

  /** `x[i, j, k, l]` read off the data, for a shape given by its four lengths. */
  lemma {:induction false} At4Data<T>(x: Tensor<T>, d0: nat, d1: nat, d2: nat, d3: nat, i: nat, j: nat, k: nat, l: nat)
    requires x.Valid() && x.shape == [d0, d1, d2, d3]
    requires i < d0 && j < d1 && k < d2 && l < d3
    ensures Offset4(d1, d2, d3, i, j, k, l) < |x.data|
    ensures At4(x, i, j, k, l) == x.data[Offset4(d1, d2, d3, i, j, k, l)]
  {
    Product4(d0, d1, d2, d3);
    Offset4Bound(d0, d1, d2, d3, i, j, k, l);
  }

  /** Within one block of shape `(d, c, e)` of the transposed tensor, offset
      `r` holds the element at this offset of the original `(c, d, e)` block:
      index `(l, k, m)` comes from index `(k, l, m)`. */
  function SwapInner(c: nat, d: nat, e: nat, r: nat): (s: nat)
    requires r < c * d * e
    ensures s < c * d * e
  {
    assert r < d * c * e;
    PairSplit(r, d * c, e);
    PairSplit(r / e, d, c);
    var l: nat, k: nat, m: nat := r / e / c, r / e % c, r % e;
    PairBound(k, l, c, d);
    PairBound(k * d + l, m, c * d, e);
    (k * d + l) * e + m
  }

  /** Offset `o` of the transposed tensor holds the element at this offset of
      the original: the `n` outer blocks stay where they are and each block is
      transposed. */
  function SwapSource(n: nat, c: nat, d: nat, e: nat, o: nat): (s: nat)
    requires o < n * (c * d * e)
    ensures s < n * (c * d * e)
  {
    var z := c * d * e;
    assert z > 0 && o / z < n && o % z < z by {
      PairSplit(o, n, z);
    }
    var q: nat, r: nat := o / z, o % z;
    var inner := SwapInner(c, d, e, r);
    assert q * z + inner < n * z by {
      PairBound(q, inner, n, z);
    }
    q * z + inner
  }

  /** `x.transpose(2, 3)` of a tensor of shape `(a, b, c, d, e)`: the result
      has shape `(a, b, d, c, e)`, and its element at `(i, j, l, k, m)` is the
      original's at `(i, j, k, l, m)` (see `SwapAt`). */
  function SwapAxes23<T>(x: Tensor<T>): (r: Tensor<T>)
    requires x.Valid() && |x.shape| == 5
    ensures r.Valid() && |r.data| == |x.data|
    ensures r.shape == [x.shape[0], x.shape[1], x.shape[3], x.shape[2], x.shape[4]]
  {
    var a, b, c, d, e := x.shape[0], x.shape[1], x.shape[2], x.shape[3], x.shape[4];
    Size5(x);
    Product5(a, b, d, c, e);
    Regroup5(a, b, d, c, e);
    Regroup5(a, b, c, d, e);
    Tensor([a, b, d, c, e],
           seq(|x.data|, o requires 0 <= o < |x.data| => x.data[SwapSource(a * b, c, d, e, o)]))
  }

  // ---------------------------------------------------------------- properties

  /** In digits: the transposed block's offset of `(l, k, m)` holds the
      original block's element at `(k, l, m)`. */
  lemma {:induction false} SwapInnerDigits(c: nat, d: nat, e: nat, l: nat, k: nat, m: nat)
    requires l < d && k < c && m < e
    ensures (l * c + k) * e + m < c * d * e
    ensures SwapInner(c, d, e, (l * c + k) * e + m) == (k * d + l) * e + m
  {
    PairBound(l, k, d, c);
    PairBound(l * c + k, m, d * c, e);
    assert c * d * e == d * c * e;
    PairDecode(l * c + k, m, e);
    PairDecode(l, k, c);
  }

  /** Swapping back within a block undoes the swap. */
  lemma {:induction false} SwapInnerInverse(c: nat, d: nat, e: nat, r: nat)
    requires r < c * d * e
    ensures SwapInner(d, c, e, r) < d * c * e
    ensures SwapInner(c, d, e, SwapInner(d, c, e, r)) == r
  {
    PairSplit(r, c * d, e);
    PairSplit(r / e, c, d);
    var l: nat, k: nat, m: nat := r / e / d, r / e % d, r % e;
    assert r == (l * d + k) * e + m;
    SwapInnerDigits(d, c, e, l, k, m);
    SwapInnerDigits(c, d, e, k, l, m);
  }

  /** Transposing back undoes the transpose, offset by offset. */
  lemma {:induction false} SwapSourceInverse(n: nat, c: nat, d: nat, e: nat, o: nat)
    requires o < n * (c * d * e)
    ensures SwapSource(n, d, c, e, o) < n * (c * d * e)
    ensures SwapSource(n, c, d, e, SwapSource(n, d, c, e, o)) == o
  {
    assert c * d * e == d * c * e;
    PairSplit(o, n, c * d * e);
    var q: nat, r: nat := o / (c * d * e), o % (c * d * e);
    SwapInnerInverse(c, d, e, r);
    var s := SwapInner(d, c, e, r);
    assert SwapSource(n, d, c, e, o) == q * (c * d * e) + s;
    PairDecode(q, s, c * d * e);
  }

  /** Transposing axes 2 and 3 twice gives the tensor back. */
  lemma {:induction false} SwapTwice<T>(x: Tensor<T>)
    requires x.Valid() && |x.shape| == 5
    ensures SwapAxes23(SwapAxes23(x)) == x
  {
    var a, b, c, d, e := x.shape[0], x.shape[1], x.shape[2], x.shape[3], x.shape[4];
    var y := SwapAxes23(x);
    var z := SwapAxes23(y);
    Size5(x);
    Regroup5(a, b, c, d, e);
    assert z.shape == x.shape;
    forall o | 0 <= o < |x.data|
      ensures z.data[o] == x.data[o]
    {
      SwapSourceInverse(a * b, c, d, e, o);
    }
  }

  /** `((q*d + l)*c + k)*e + m` splits into block `q` of size `d*c*e` and the
      offset `(l*c + k)*e + m` inside it. */
  lemma {:induction false} BlockOffset(q: nat, d: nat, c: nat, e: nat, l: nat, k: nat, m: nat)
    ensures ((q * d + l) * c + k) * e + m == q * (d * c * e) + ((l * c + k) * e + m)
  {
    calc {
      ((q * d + l) * c + k) * e + m;
      (q * d * c + l * c + k) * e + m;
      q * d * c * e + (l * c + k) * e + m;
    }
  }

  /** The transpose moves the element at `(i, j, k, l, m)` to `(i, j, l, k, m)`. */
  lemma {:induction false} SwapAt<T>(x: Tensor<T>, i: nat, j: nat, k: nat, l: nat, m: nat)
    requires x.Valid() && |x.shape| == 5
    requires i < x.shape[0] && j < x.shape[1] && k < x.shape[2] && l < x.shape[3] && m < x.shape[4]
    ensures var s := x.shape;
            Offset5(s[1], s[3], s[2], s[4], i, j, l, k, m) < |x.data| &&
            Offset5(s[1], s[2], s[3], s[4], i, j, k, l, m) < |x.data| &&
            SwapAxes23(x).data[Offset5(s[1], s[3], s[2], s[4], i, j, l, k, m)]
              == x.data[Offset5(s[1], s[2], s[3], s[4], i, j, k, l, m)]
  {
    var a, b, c, d, e := x.shape[0], x.shape[1], x.shape[2], x.shape[3], x.shape[4];
    var q: nat := i * b + j;
    var r: nat := (l * c + k) * e + m;
    Size5(x);
    Regroup5(a, b, c, d, e);
    PairBound(i, j, a, b);
    SwapInnerDigits(c, d, e, l, k, m);
    BlockOffset(q, d, c, e, l, k, m);
    BlockOffset(q, c, d, e, k, l, m);
    var o := Offset5(b, d, c, e, i, j, l, k, m);
    assert o == q * (c * d * e) + r;
    PairBound(q, r, a * b, c * d * e);
    PairDecode(q, r, c * d * e);
    var src := q * (c * d * e) + ((k * d + l) * e + m);
    assert SwapSource(a * b, c, d, e, o) == src;
    assert Offset5(b, c, d, e, i, j, k, l, m) == src;
  }

  /** Reading a sequence through an injective index map onto its own index
      range rearranges it: the result holds the same elements, each as often. */
  lemma {:induction false} PermutedMultiset<T>(a: seq<T>, p: seq<nat>)
    requires |p| == |a|
    requires forall i | 0 <= i < |p| :: p[i] < |a|
    requires forall i, j | 0 <= i < j < |p| :: p[i] != p[j]
    ensures multiset(seq(|p|, i requires 0 <= i < |p| => a[p[i]])) == multiset(a)
    decreases |p|
  {
    var n := |p|;
    var b := seq(n, i requires 0 <= i < n => a[p[i]]);
    if n > 0 {
      var j := p[n - 1];
      var rest := a[j := a[n - 1]][..n - 1];
      var p' := seq(n - 1, i requires 0 <= i < n - 1 => if p[i] == n - 1 then j else p[i]);
      forall i | 0 <= i < n - 1
        ensures p'[i] < n - 1 && rest[p'[i]] == a[p[i]]
      {
        assert p[i] != j;
      }
      forall i, i' | 0 <= i < i' < n - 1
        ensures p'[i] != p'[i']
      {
        assert p[i] != j && p[i'] != j;
      }
      PermutedMultiset(rest, p');
      var b' := seq(n - 1, i requires 0 <= i < n - 1 => rest[p'[i]]);
      assert b == b' + [a[j]];
      MultisetMoveLast(a, j);
    }
  }

  /** Moving the last element into slot `j` and dropping the last slot removes
      one copy of `a[j]` and nothing else. */
  lemma {:induction false} MultisetMoveLast<T>(a: seq<T>, j: nat)
    requires j < |a|
    ensures multiset(a[j := a[|a| - 1]][..|a| - 1]) + multiset{a[j]} == multiset(a)
  {
    var n := |a|;
    var rest := a[j := a[n - 1]][..n - 1];
    if j == n - 1 {
      assert rest == a[..n - 1];
      assert a == a[..n - 1] + [a[j]];
    } else {
      assert rest == a[..j] + [a[n - 1]] + a[j + 1..n - 1];
      assert a == a[..j] + [a[j]] + a[j + 1..n - 1] + [a[n - 1]];
    }
  }

  /** The transpose only moves elements: it keeps every element, as often as it occurs. */
  lemma {:induction false} SwapMultiset<T>(x: Tensor<T>)
    requires x.Valid() && |x.shape| == 5
    ensures multiset(SwapAxes23(x).data) == multiset(x.data)
  {
    var a, b, c, d, e := x.shape[0], x.shape[1], x.shape[2], x.shape[3], x.shape[4];
    Size5(x);
    Regroup5(a, b, c, d, e);
    var n := |x.data|;
    var p := seq(n, o requires 0 <= o < n => SwapSource(a * b, c, d, e, o));
    forall o, o' | 0 <= o < o' < n
      ensures p[o] != p[o']
    {
      SwapSourceInverse(a * b, d, c, e, o);
      SwapSourceInverse(a * b, d, c, e, o');
    }
    PermutedMultiset(x.data, p);
    assert SwapAxes23(x).data == seq(n, o requires 0 <= o < n => x.data[p[o]]);
  }

  /** Merging axes 1 and 2 of a five-axis shape into one axis keeps every offset. */
  lemma {:induction false} MergeAxes12(d1: nat, d2: nat, d3: nat, d4: nat, i: nat, j: nat, k: nat, l: nat, m: nat)
    ensures Offset4(d1 * d2, d3, d4, i, Digits(j, k, d2), l, m) == Offset5(d1, d2, d3, d4, i, j, k, l, m)
  {
    assert i * (d1 * d2) + (j * d2 + k) == (i * d1 + j) * d2 + k;
  }

  /** Merging axes 3 and 4 of a five-axis shape into one axis keeps every offset. */
  lemma {:induction false} MergeAxes34(d1: nat, d2: nat, d3: nat, d4: nat, i: nat, j: nat, k: nat, l: nat, m: nat)
    ensures Offset4(d1, d2, d3 * d4, i, j, k, Digits(l, m, d4)) == Offset5(d1, d2, d3, d4, i, j, k, l, m)
  {
    var p := (i * d1 + j) * d2 + k;
    assert p * (d3 * d4) + (l * d4 + m) == (p * d3 + l) * d4 + m;
  }

  /** The transpose seen through four-axis views: merging axes 3 and 4 of the
      original and axes 1 and 2 of the transposed tensor, the element at
      `(i, j, k, Digits(l, m, e))` moves to `(i, Digits(j, l, d), k, m)`. */
  lemma {:induction false} SwapAtMerged12<T>(x: Tensor<T>, a: nat, b: nat, c: nat, d: nat, e: nat,
                                           i: nat, j: nat, k: nat, l: nat, m: nat)
    requires x.Valid() && x.shape == [a, b, c, d, e]
    requires i < a && j < b && k < c && l < d && m < e
    ensures Offset4(b * d, c, e, i, Digits(j, l, d), k, m) < |x.data|
    ensures Offset4(b, c, d * e, i, j, k, Digits(l, m, e)) < |x.data|
    ensures SwapAxes23(x).data[Offset4(b * d, c, e, i, Digits(j, l, d), k, m)]
              == x.data[Offset4(b, c, d * e, i, j, k, Digits(l, m, e))]
  {
    SwapAt(x, i, j, k, l, m);
    MergeAxes12(b, d, c, e, i, j, l, k, m);
    MergeAxes34(b, c, d, e, i, j, k, l, m);
  }

  /** The transpose seen through the other pair of four-axis views: merging
      axes 1 and 2 of the original and axes 3 and 4 of the transposed tensor,
      the element at `(i, Digits(j, k, c), l, m)` moves to `(i, j, l, Digits(k, m, e))`. */
  lemma {:induction false} SwapAtMerged34<T>(x: Tensor<T>, a: nat, b: nat, c: nat, d: nat, e: nat,
                                             i: nat, j: nat, k: nat, l: nat, m: nat)
    requires x.Valid() && x.shape == [a, b, c, d, e]
    requires i < a && j < b && k < c && l < d && m < e
    ensures Offset4(b, d, c * e, i, j, l, Digits(k, m, e)) < |x.data|
    ensures Offset4(b * c, d, e, i, Digits(j, k, c), l, m) < |x.data|
    ensures SwapAxes23(x).data[Offset4(b, d, c * e, i, j, l, Digits(k, m, e))]
              == x.data[Offset4(b * c, d, e, i, Digits(j, k, c), l, m)]
  {
    SwapAt(x, i, j, k, l, m);
    MergeAxes34(b, d, c, e, i, j, l, k, m);
    MergeAxes12(b, c, d, e, i, j, k, l, m);
  }
}
