/** The exponentiation operator of NASL, over unbounded integers. */
module Exponent {

  function Power(x: int, n: nat): int { if n == 0 then 1 else x * Power(x, n - 1) }

  /** expo: repeated squaring. */
  function Expo(x: int, y: int): int
    decreases if y < 0 then 0 else y
  {
    if y == 0 then 1
    else if y < 0 then if x == 1 then 1 else 0
    else if y == 1 then x
    else
      var z := Expo(x, y / 2);
      if y % 2 == 0 then z * z else x * z * z
  }

  lemma {:induction false} PowerSum(x: int, m: nat, n: nat)
    ensures Power(x, m + n) == Power(x, m) * Power(x, n)
  {
    if m > 0 {
      PowerSum(x, m - 1, n);
      assert Power(x, m) * Power(x, n) == x * (Power(x, m - 1) * Power(x, n));
    }
  }

  /** Squaring computes the power. */
  lemma {:induction false} ExpoIsPower(x: int, y: nat)
    ensures Expo(x, y) == Power(x, y)
  {
    if y > 1 {
      var h := y / 2;
      ExpoIsPower(x, h);
      PowerSum(x, h, h);
      if y % 2 == 1 { assert Power(x, y) == x * Power(x, h + h); }
    }
  }

  /** The reciprocal, cut off towards zero. */
  function Reciprocal(p: int): int
    requires p != 0
  {
    if p == 1 || p == -1 then p else 0
  }

  lemma {:induction false} PowerSize(x: int, n: nat)
    requires x != 0
    ensures Power(x, n) != 0
    ensures x == 1 ==> Power(x, n) == 1
    ensures x == -1 ==> Power(x, n) == 1 || Power(x, n) == -1
    ensures n > 0 && (x > 1 || x < -1) ==> Power(x, n) > 1 || Power(x, n) < -1
  {
    if n > 0 {
      PowerSize(x, n - 1);
      var p := Power(x, n - 1);
      if x > 1 && p > 0 { assert x * p >= x; }
      if x > 1 && p < 0 { assert x * p <= -x; }
      if x < -1 && p > 0 { assert x * p <= x; }
      if x < -1 && p < 0 { assert x * p >= -x; }
    }
  }

  /** A negative exponent gives the truncated reciprocal, except for the base -1. */
  lemma NegativeExponent(x: int, y: int)
    requires y < 0 && x != 0
    ensures Power(x, -y) != 0
    ensures Expo(x, y) == Reciprocal(Power(x, -y)) <==> x != -1
  {
    PowerSize(x, -y);
  }
}
