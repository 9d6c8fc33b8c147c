/** APR_ALIGN on unsigned integers of any width w: (size + (boundary - 1)) & ~(boundary - 1). */
module Alignment {

  function Pow2(k: nat): (r: nat)
    ensures r >= 1
  {
    if k == 0 then 1 else 2 * Pow2(k - 1)
  }

  // Bitwise "and" of two natural numbers, bit by bit.
  function And(x: nat, y: nat): nat
    decreases x
  {
    if x == 0 then 0 else (if x % 2 == 1 && y % 2 == 1 then 1 else 0) + 2 * And(x / 2, y / 2)
  }

  // The complement and the sum of w-bit words.
  function Complement(w: nat, x: nat): nat
    requires x < Pow2(w)
  {
    Pow2(w) - 1 - x
  }

  function WrappingSum(w: nat, x: nat, y: nat): nat {
    (x + y) % Pow2(w)
  }

  lemma {:induction false} PowMonotone(k: nat, w: nat)
    requires k <= w
    ensures Pow2(k) <= Pow2(w)
  {
    if k < w { PowMonotone(k, w - 1); }
  }

  // The macro, for the boundary 2^k.
  function Align(w: nat, size: nat, k: nat): nat
    requires size < Pow2(w) && k <= w
  {
    PowMonotone(k, w);
    And(WrappingSum(w, size, Pow2(k) - 1), Complement(w, Pow2(k) - 1))
  }

  lemma {:induction false} AndAllOnes(w: nat, x: nat)
    requires x < Pow2(w)
    ensures And(x, Pow2(w) - 1) == x
  {
    if x != 0 {
      assert (Pow2(w) - 1) / 2 == Pow2(w - 1) - 1;
      AndAllOnes(w - 1, x / 2);
    }
  }

  lemma NextMultiple(a: int, b: int, m: nat)
    requires a < b
    ensures a * m + m <= b * m
  {
    assert (b - a - 1) * m >= 0;
    assert (b - a - 1) * m == b * m - a * m - m;
  }

  lemma ModUnique(x: nat, m: nat, q: nat, r: nat)
    requires m >= 1 && r < m && x == q * m + r
    ensures x % m == r && x / m == q
  {
    var d, e := x / m, x % m;
    if d < q {
      NextMultiple(d, q, m);
    } else if q < d {
      NextMultiple(q, d, m);
    }
  }

  lemma DoubleMod(x: nat, m: nat)
    requires m >= 1
    ensures x % (2 * m) == x % 2 + 2 * ((x / 2) % m)
  {
    var h := x / 2;
    var q, r := h / m, h % m;
    assert q * (2 * m) == 2 * (q * m);
    ModUnique(x, 2 * m, q, 2 * r + x % 2);
  }

  // Clearing the low k bits.
  function ClearLow(x: nat, k: nat): nat
    decreases k
  {
    if k == 0 then x else 2 * ClearLow(x / 2, k - 1)
  }

  lemma {:induction false} ClearLowIsRounding(x: nat, k: nat)
    ensures ClearLow(x, k) == x - x % Pow2(k)
    decreases k
  {
    if k > 0 {
      ClearLowIsRounding(x / 2, k - 1);
      DoubleMod(x, Pow2(k - 1));
    }
  }

  lemma {:induction false} MaskClears(w: nat, x: nat, k: nat)
    requires k <= w && x < Pow2(w)
    ensures Pow2(k) <= Pow2(w) && And(x, Pow2(w) - Pow2(k)) == ClearLow(x, k)
    decreases k
  {
    if k == 0 {
      AndAllOnes(w, x);
    } else {
      MaskClears(w - 1, x / 2, k - 1);
      assert (Pow2(w) - Pow2(k)) / 2 == Pow2(w - 1) - Pow2(k - 1);
    }
  }

  ghost predicate LeastMultipleFrom(b: nat, size: nat, r: nat)
    requires b >= 1
  {
    r % b == 0 && r >= size && forall m: nat :: m % b == 0 && m >= size ==> r <= m
  }

  lemma MultiplesApart(b: nat, r: nat, m: nat)
    requires b >= 1 && r % b == 0 && m % b == 0 && m < r
    ensures m + b <= r
  {
    if m / b < r / b {
      NextMultiple(m / b, r / b, b);
    } else if r / b < m / b {
      NextMultiple(r / b, m / b, b);
    }
  }

  // Rounding x = size + (b - 1) down to a multiple of b rounds size up.
  lemma RoundUp(b: nat, size: nat, x: nat, r: nat)
    requires b >= 1 && x == size + (b - 1) && r == x - x % b
    ensures LeastMultipleFrom(b, size, r)
  {
    var q := x / b;
    assert r == q * b;
    ModUnique(r, b, q, 0);
    forall m: nat | m % b == 0 && m >= size ensures r <= m {
      if m < r { MultiplesApart(b, r, m); }
    }
  }

  lemma PowersDivide(k: nat, w: nat)
    requires k <= w
    ensures Pow2(w) % Pow2(k) == 0
    decreases w
  {
    if k < w {
      PowersDivide(k, w - 1);
      var q := Pow2(w - 1) / Pow2(k);
      assert Pow2(w) == (2 * q) * Pow2(k) + 0;
      ModUnique(Pow2(w), Pow2(k), 2 * q, 0);
    } else {
      ModUnique(Pow2(w), Pow2(k), 1, 0);
    }
  }

  lemma WordFits(w: nat, x: nat)
    requires x < Pow2(w)
    ensures x % Pow2(w) == x
  {
    ModUnique(x, Pow2(w), 0, x);
  }

  lemma AlignValue(w: nat, size: nat, k: nat)
    requires k <= w && size + (Pow2(k) - 1) < Pow2(w)
    ensures Align(w, size, k) == ClearLow(size + (Pow2(k) - 1), k)
  {
    WordFits(w, size + (Pow2(k) - 1));
    MaskClears(w, size + (Pow2(k) - 1), k);
  }

  // As long as the addition does not wrap, the macro gives the least multiple not below size.
  lemma AlignNoWrap(w: nat, size: nat, k: nat)
    requires k <= w && size + Pow2(k) <= Pow2(w)
    ensures LeastMultipleFrom(Pow2(k), size, Align(w, size, k))
  {
    AlignValue(w, size, k);
    var x := size + (Pow2(k) - 1);
    ClearLowIsRounding(x, k);
    RoundUp(Pow2(k), size, x, Align(w, size, k));
  }

  lemma WordWraps(w: nat, x: nat)
    requires Pow2(w) <= x < 2 * Pow2(w)
    ensures x % Pow2(w) == x - Pow2(w)
  {
    ModUnique(x, Pow2(w), 1, x - Pow2(w));
  }

  lemma {:induction false} ClearLowSmall(x: nat, k: nat)
    requires x < Pow2(k)
    ensures ClearLow(x, k) == 0
    decreases k
  {
    if k > 0 { ClearLowSmall(x / 2, k - 1); }
  }

  // Once it wraps, the result is 0, below every size that gets there.
  lemma AlignWraps(w: nat, size: nat, k: nat)
    requires k <= w && size < Pow2(w) < size + Pow2(k)
    ensures Align(w, size, k) == 0
  {
    PowMonotone(k, w);
    var x := size + (Pow2(k) - 1);
    WordWraps(w, x);
    MaskClears(w, x - Pow2(w), k);
    ClearLowSmall(x - Pow2(w), k);
  }

  // The macro aligns exactly the sizes for which the addition does not wrap.
  lemma AlignCorrectIff(w: nat, size: nat, k: nat)
    requires k <= w && size < Pow2(w)
    ensures LeastMultipleFrom(Pow2(k), size, Align(w, size, k)) <==> size + Pow2(k) <= Pow2(w)
  {
    if size + Pow2(k) <= Pow2(w) {
      AlignNoWrap(w, size, k);
    } else {
      AlignWraps(w, size, k);
      PowMonotone(k, w);
    }
  }

  lemma TopMultiple(k: nat, w: nat)
    requires k <= w
    ensures Pow2(k) <= Pow2(w) && (Pow2(w) - Pow2(k)) % Pow2(k) == 0
  {
    PowMonotone(k, w);
    PowersDivide(k, w);
    var b, q := Pow2(k), Pow2(w) / Pow2(k);
    assert (q - 1) * b == q * b - b;
    ModUnique(Pow2(w) - b, b, q - 1, 0);
  }

  lemma AlignTwiceNoWrap(w: nat, size: nat, k: nat)
    requires k <= w && size + Pow2(k) <= Pow2(w)
    ensures Align(w, size, k) < Pow2(w)
    ensures Align(w, Align(w, size, k), k) == Align(w, size, k)
  {
    AlignNoWrap(w, size, k);
    PowMonotone(k, w);
    TopMultiple(k, w);
    AlignNoWrap(w, Align(w, size, k), k);
  }

  lemma AlignZero(w: nat, k: nat)
    requires k <= w
    ensures Align(w, 0, k) == 0
  {
    PowMonotone(k, w);
    AlignValue(w, 0, k);
    ClearLowSmall(Pow2(k) - 1, k);
  }

  // Aligning twice changes nothing, for every size: a wrapped result is 0, which is aligned.
  lemma AlignIdempotent(w: nat, size: nat, k: nat)
    requires k <= w && size < Pow2(w)
    ensures Align(w, size, k) < Pow2(w)
    ensures Align(w, Align(w, size, k), k) == Align(w, size, k)
  {
    if size + Pow2(k) <= Pow2(w) {
      AlignTwiceNoWrap(w, size, k);
    } else {
      AlignWraps(w, size, k);
      AlignZero(w, k);
    }
  }

  lemma AlignMonotone(w: nat, size: nat, larger: nat, k: nat)
    requires k <= w && size <= larger && larger + Pow2(k) <= Pow2(w)
    ensures Align(w, size, k) <= Align(w, larger, k)
  {
    AlignNoWrap(w, size, k);
    AlignNoWrap(w, larger, k);
  }
}
