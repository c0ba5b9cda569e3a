/** Facts about Euclidean division on natural numbers that the index
    arithmetic of the framer, the mini-batch loop and the tensor reshapes rely on. */
module Arith {

  /** `int(np.ceil(a / b))` for a non-negative `a` and a positive `b`:
      the least number of blocks of size `b` that cover `a` items. */
  function CeilDiv(a: nat, b: nat): (r: nat)
    requires b > 0
    ensures r * b >= a
    ensures r > 0 ==> (r - 1) * b < a
  {
    DivMod(a + b - 1, b);
    (a + b - 1) / b
  }

  lemma {:induction false} DivMod(a: nat, b: nat)
    requires b > 0
    ensures a == (a / b) * b + a % b
    ensures 0 <= a % b < b
  {
  }

  /** `c` blocks of size `b` cover `a` items exactly when `c` is at least `CeilDiv(a, b)`. */
  lemma {:induction false} CeilDivLeast(a: nat, b: nat, c: nat)
    requires b > 0
    ensures c * b >= a <==> c >= CeilDiv(a, b)
  {
    var r := CeilDiv(a, b);
    if c >= r {
      MulMono(r, c, b);
    } else {
      MulMono(c, r - 1, b);
    }
  }

  /** One more block of `b` items takes one more block. */
  lemma {:induction false} CeilDivStep(a: nat, b: nat)
    requires b > 0
    ensures CeilDiv(a + b, b) == CeilDiv(a, b) + 1
  {
    var q, r := (a + b - 1) / b, (a + b - 1) % b;
    DivMod(a + b - 1, b);
    MulPred(q + 1, b);
    assert (q + 1) * b + r == a + b + b - 1;
    PairDecode(q + 1, r, b);
  }

  /** Between one and `b` items take exactly one block of `b`. */
  lemma {:induction false} CeilDivOne(a: nat, b: nat)
    requires 0 < a <= b
    ensures CeilDiv(a, b) == 1
  {
    PairDecode(1, a - 1, b);
  }

  lemma {:induction false} MulMono(x: nat, y: nat, b: nat)
    requires x <= y
    ensures x * b <= y * b
  {
  }

  /** `i * h <= a` holds exactly for the `i` that do not exceed `a / h`. */
  lemma {:induction false} MulLeIffLeDiv(i: nat, h: nat, a: nat)
    requires h > 0
    ensures i * h <= a <==> i <= a / h
  {
    DivMod(a, h);
    if i <= a / h {
      MulMono(i, a / h, h);
    } else {
      MulMono(a / h + 1, i, h);
    }
  }

  /** An index inside the block `[c*b, c*b + b)` belongs to block `c`, at offset `j - c*b`. */
  lemma {:induction false} InBlock(j: nat, b: nat, c: nat)
    requires b > 0
    requires c * b <= j < c * b + b
    ensures j / b == c && j % b == j - c * b
  {
    DivMod(j, b);
    var q := j / b;
    if q < c {
      MulMono(q + 1, c, b);
    } else if q > c {
      MulMono(c + 1, q, b);
    }
  }

  /** Mixed-radix encoding of a digit pair: `q` in `[0, a)`, `r` in `[0, b)`. */
  lemma {:induction false} PairBound(q: nat, r: nat, a: nat, b: nat)
    requires q < a && r < b
    ensures q * b + r < a * b
  {
    MulMono(q + 1, a, b);
  }

  /** The mixed-radix number with high digit `q` and low digit `r` in base `b`. */
  function Digits(q: nat, r: nat, b: nat): nat {
    q * b + r
  }

  /** Decoding a mixed-radix digit pair undoes its encoding. */
  lemma {:induction false} PairDecode(q: nat, r: nat, b: nat)
    requires r < b
    ensures (q * b + r) / b == q && (q * b + r) % b == r
  {
    InBlock(q * b + r, b, q);
  }

  /** An index below `a * b` splits into a digit pair below `(a, b)`. */
  lemma {:induction false} PairSplit(i: nat, a: nat, b: nat)
    requires i < a * b
    ensures b > 0 && i / b < a && i % b < b && i == (i / b) * b + i % b
  {
    assert b > 0 by {
      if b == 0 {
        assert false;
      }
    }
    DivMod(i, b);
    if i / b >= a {
      MulMono(a, i / b, b);
    }
  }

  /** The smaller of two naturals. */
  function Min(a: nat, b: nat): (r: nat)
    ensures r <= a && r <= b && (r == a || r == b)
  {
    if a <= b then a else b
  }

  lemma {:induction false} MulPred(a: nat, b: nat)
    requires a >= 1
    ensures (a - 1) * b + b == a * b
  {
  }

  /** The quarter and half points of a length divisible by four. */
  lemma {:induction false} Quarters(n: nat)
    requires n % 4 == 0
    ensures n == 4 * (n / 4) && n / 2 == 2 * (n / 4)
  {
  }

  /** A positive factor cancels. */
  lemma {:induction false} MulCancel(p: nat, x: nat, y: nat)
    requires p > 0
    ensures p * x == p * y <==> x == y
  {
    if x < y {
      MulMono(x + 1, y, p);
    } else if y < x {
      MulMono(y + 1, x, p);
    }
  }

  /** `b * (a / b)` is `a` exactly when `b` divides `a`. */
  lemma {:induction false} DivExact(a: nat, b: nat)
    requires b > 0
    ensures b * (a / b) <= a
    ensures b * (a / b) == a <==> a % b == 0
  {
    DivMod(a, b);
  }

  /** Scaling by `p` keeps `k * (b / k)` apart from `b` exactly when `k` does
      not divide `b` and `p` is positive. */
  lemma {:induction false} ScaledDivExact(p: nat, b: nat, k: nat)
    requires k > 0
    ensures p * (k * (b / k)) == p * b <==> b % k == 0 || p == 0
  {
    DivExact(b, k);
    if p > 0 {
      MulCancel(p, k * (b / k), b);
    }
  }
}
