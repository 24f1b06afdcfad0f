/** Division of positive integers as binary64 arithmetic does it: the nearest number with a 53-bit significand. */
module Doubles {

  function Pow2(k: nat): (p: nat)
    ensures p > 0
  {
    if k == 0 then 1 else 2 * Pow2(k - 1)
  }

  const FULL := 0x10_0000_0000_0000

  /** The value mantissa / scale; the scale is a power of two. */
  datatype Double = Double(mantissa: nat, scale: nat)

  /** The first doubling of p that gives the quotient a full significand. */
  function Scale(num: nat, den: nat, p: nat): (s: nat)
    requires num > 0 && p > 0
    ensures s >= p && num * s >= FULL * den
    decreases FULL * den - num * p
  {
    if num * p >= FULL * den then p
    else
      MoreIsMore(num, p);
      Scale(num, den, 2 * p)
  }

  lemma MoreIsMore(num: nat, p: nat)
    requires num > 0 && p > 0
    ensures num * (2 * p) > num * p
  {
  }

  lemma Product(a: nat, b: nat, den: nat)
    requires a <= b
    ensures a * den <= b * den
  {
  }

  /** The nearest integer to num / den, the even one of two. */
  function RoundHalfEven(num: nat, den: nat): (m: nat)
    requires den > 0
  {
    var q, r := num / den, num % den;
    if 2 * r < den || (2 * r == den && q % 2 == 0) then q else q + 1
  }

  lemma Nearest(num: nat, den: nat)
    requires den > 0
    ensures var m := RoundHalfEven(num, den); 2 * (m * den) <= 2 * num + den && 2 * num <= 2 * (m * den) + den
  {
    var q, r := num / den, num % den;
    assert num == q * den + r;
    assert (q + 1) * den == q * den + den;
  }

  /** num / den, for quotients below 2^53. */
  function Quotient(num: nat, den: nat): (d: Double)
    requires num > 0 && den > 0
    ensures d.scale > 0 && d.mantissa >= FULL
  {
    var s := Scale(num, den, 1);
    assert num * s >= FULL * den;
    FullSignificand(num * s, den);
    Double(RoundHalfEven(num * s, den), s)
  }

  lemma FullSignificand(num: nat, den: nat)
    requires den > 0 && num >= FULL * den
    ensures RoundHalfEven(num, den) >= FULL
  {
    var q := num / den;
    assert num == q * den + num % den;
    assert (q + 1) * den == q * den + den;
    if q < FULL {
      Product(q + 1, FULL, den);
      assert false;
    }
  }

  /** Rounding goes above an even number exactly when more than half of one is left over. */
  lemma RoundsAbove(num: nat, den: nat, base: nat)
    requires den > 0 && base % 2 == 0
    ensures RoundHalfEven(num, den) > base <==> 2 * (num - base * den) > den
  {
    var q, r := num / den, num % den;
    assert num == q * den + r;
    if q < base {
      Product(q + 1, base, den);
      assert (q + 1) * den == q * den + den;
    } else if q > base {
      Product(base + 1, q, den);
      assert (base + 1) * den == base * den + den;
    }
  }

  lemma RoundsWithin(num: nat, den: nat, bound: nat)
    requires den > 0
    ensures num <= bound * den ==> RoundHalfEven(num, den) <= bound
    ensures num >= bound * den ==> RoundHalfEven(num, den) >= bound
  {
    var q, r := num / den, num % den;
    assert num == q * den + r;
    assert (q + 1) * den == q * den + den;
    if num <= bound * den && q >= bound {
      Product(bound, q, den);
    }
    if num >= bound * den && q < bound {
      Product(q + 1, bound, den);
      assert false;
    }
  }

  function Ceil(d: Double): int
    requires d.scale > 0
  {
    (d.mantissa + d.scale - 1) / d.scale
  }

  /** Which power of two the scale is. */
  lemma {:induction false} ScaleFound(num: nat, den: nat, p: nat, k: nat)
    requires num > 0 && p > 0
    requires num * (p * Pow2(k)) >= FULL * den
    requires k > 0 ==> num * (p * Pow2(k - 1)) < FULL * den
    ensures Scale(num, den, p) == p * Pow2(k)
    decreases k
  {
    if k > 0 {
      assert p * Pow2(k) == (2 * p) * Pow2(k - 1);
      assert p <= p * Pow2(k - 1);
      assert num * p <= num * (p * Pow2(k - 1));
      if k > 1 {
        assert p * Pow2(k - 1) == (2 * p) * Pow2(k - 2);
      }
      ScaleFound(num, den, 2 * p, k - 1);
    }
  }
}
