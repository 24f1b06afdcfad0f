/** The expiry the limiter's script sends: seventy seconds by design, computed in binary64. */
module Expiry {
  import opened Doubles

  /** ceil(capacity / refill_per_second) + 10, with refill_per_second = limit / 60.0, all in binary64. */
  function ExpireSeconds(limit: nat): int
    requires limit > 0
  {
    var refill := Quotient(limit, 60);
    Ceil(Quotient(limit * refill.scale, refill.mantissa)) + 10
  }

  const TWO_TO_47 := 0x8000_0000_0000

  /** How much of the exact refill rate its rounding to binary64 lost, in sixtieths of the last place. */
  function Lost(limit: nat): int
    requires limit > 0
  {
    var refill := Quotient(limit, 60);
    limit * refill.scale - 60 * refill.mantissa
  }

  lemma LostIsSmall(limit: nat)
    requires limit > 0
    ensures -30 <= Lost(limit) <= 30
  {
    var refill := Quotient(limit, 60);
    Nearest(limit * refill.scale, 60);
  }

  lemma {:induction false} PowSum(a: nat, b: nat)
    ensures Pow2(a + b) == Pow2(a) * Pow2(b)
  {
    if a > 0 {
      PowSum(a - 1, b);
    }
  }

  lemma PowersOfTwo()
    ensures Pow2(46) == 0x4000_0000_0000 && Pow2(47) == TWO_TO_47
    ensures Pow2(51) == 0x8_0000_0000_0000 && Pow2(52) == FULL
    ensures Pow2(54) == 4 * FULL && Pow2(55) == 8 * FULL
  {
    assert Pow2(6) == 64 && Pow2(10) == 1024;
    PowSum(10, 10);
    PowSum(20, 20);
    PowSum(40, 6);
    PowSum(46, 1);
    PowSum(46, 5);
    PowSum(46, 6);
    PowSum(46, 8);
    PowSum(46, 9);
  }

  lemma ScaleOfSixty(num: nat, den: nat)
    requires den >= FULL && 60 * den - 30 <= num <= 60 * den + 30
    ensures Scale(num, den, 1) == TWO_TO_47
  {
    PowersOfTwo();
    ScaleFound(num, den, 1, 47);
  }

  /** The time to fill an empty bucket rounds to 60 seconds, or just above. */
  lemma FillExact(num: nat, den: nat)
    requires den >= FULL && 60 * den - 30 <= num <= 60 * den + 30
    ensures Ceil(Quotient(num, den)) == if 2 * TWO_TO_47 * (num - 60 * den) > den then 61 else 60
  {
    var m := RoundHalfEven(num * TWO_TO_47, den);
    ScaleOfSixty(num, den);
    RoundsAbove(num * TWO_TO_47, den, 60 * TWO_TO_47);
    RoundsWithin(num * TWO_TO_47, den, 61 * TWO_TO_47);
    RoundsWithin(num * TWO_TO_47, den, 59 * TWO_TO_47 + 1);
  }

  /** The rounded refill rate lost so much that the quotient rounds up. */
  predicate RoundsUp(limit: nat)
    requires limit > 0
  {
    2 * TWO_TO_47 * Lost(limit) > Quotient(limit, 60).mantissa
  }

  /** The script sends 70 seconds, or 71 exactly when rounding lets the quotient exceed sixty. */
  lemma ExpireExact(limit: nat)
    requires limit > 0
    ensures ExpireSeconds(limit) == if RoundsUp(limit) then 71 else 70
  {
    var refill := Quotient(limit, 60);
    LostIsSmall(limit);
    FillExact(limit * refill.scale, refill.mantissa);
  }

  lemma RefillOfDefault()
    ensures Quotient(100, 60) == Double(7505999378950827, FULL)
  {
    PowersOfTwo();
    ScaleFound(100, 60, 1, 52);
  }

  lemma RefillOfEleven()
    ensures Quotient(11, 60) == Double(6605279453476727, 8 * FULL)
  {
    PowersOfTwo();
    ScaleFound(11, 60, 1, 55);
  }

  /** The configured default of 100 requests gives 70 seconds, 11 requests give 71. */
  lemma BothExpiriesOccur()
    ensures ExpireSeconds(100) == 70 && ExpireSeconds(11) == 71
  {
    RefillOfDefault();
    RefillOfEleven();
    ExpireExact(100);
    ExpireExact(11);
  }
}
