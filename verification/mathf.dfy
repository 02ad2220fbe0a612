/**
 Scalar helpers with the semantics of the engine's `Mathf` routines, stated over
 exact reals instead of single-precision floats.
 */
module Mathf {

  function Max(a: real, b: real): (r: real)
    ensures r >= a && r >= b
    ensures r == a || r == b
  {
    if a > b then a else b
  }

  function Min(a: real, b: real): (r: real)
    ensures r <= a && r <= b
    ensures r == a || r == b
  {
    if a < b then a else b
  }

  /** `Mathf.Max` on integers. */
  function MaxInt(a: int, b: int): (r: int)
    ensures r >= a && r >= b
    ensures r == a || r == b
  {
    if a > b then a else b
  }

  function Sq(a: real): (r: real)
    ensures r >= 0.0
  {
    a * a
  }

  /** Squaring is monotone on non-negative numbers, strictly so for strict inequalities. */
  lemma SqMonotone(a: real, b: real)
    requires 0.0 <= a <= b
    ensures Sq(a) <= Sq(b)
    ensures a < b ==> Sq(a) < Sq(b)
  {
    calc {
      a * a;
    <= a * b;
    <= b * b;
    }
    if a < b {
      calc {
        a * a;
      <= a * b;
      <  b * b;
      }
    }
  }

  /** A non-zero number has a positive square. */
  lemma SqPositive(a: real)
    requires a != 0.0
    ensures Sq(a) > 0.0
  {
    if a > 0.0 { SqMonotone(0.0, a); } else { assert Sq(a) == Sq(-a); SqMonotone(0.0, -a); }
  }

  lemma NonNegativeProduct(a: real, b: real)
    requires a >= 0.0 && b >= 0.0
    ensures a * b >= 0.0
  {
  }

  /** `y == -v * k` with `k >= 0` never has the sign of `v`. */
  lemma OpposingProduct(v: real, k: real, y: real)
    requires k >= 0.0 && y == -v * k
    ensures v >= 0.0 ==> y <= 0.0
    ensures v <= 0.0 ==> y >= 0.0
  {
  }

  function Abs(a: real): (r: real)
    ensures r >= 0.0
    ensures r == a || r == -a
  {
    if a < 0.0 then -a else a
  }

  /** `Mathf.Sign`: 1 for zero and positive values, -1 otherwise. */
  function Sign(a: real): (r: real)
    ensures r == 1.0 || r == -1.0
    ensures r * a == Abs(a)
  {
    if a >= 0.0 then 1.0 else -1.0
  }

  /** `Mathf.Clamp(value, lo, hi)`: checks the lower bound first. */
  function Clamp(value: real, lo: real, hi: real): (r: real)
    ensures lo <= hi ==> lo <= r <= hi
    ensures lo <= value <= hi ==> r == value
    ensures value < lo ==> r == lo
    ensures lo <= value && hi < value ==> r == hi
  {
    if value < lo then lo else if value > hi then hi else value
  }

  function Clamp01(t: real): (r: real)
    ensures 0.0 <= r <= 1.0
    ensures 0.0 <= t <= 1.0 ==> r == t
    ensures t <= 0.0 ==> r == 0.0
    ensures t >= 1.0 ==> r == 1.0
  {
    Clamp(t, 0.0, 1.0)
  }

  /** `Mathf.Lerp(a, b, t)`: the interpolation parameter is clamped to [0, 1]. */
  function Lerp(a: real, b: real, t: real): (r: real)
    ensures t <= 0.0 ==> r == a
    ensures t >= 1.0 ==> r == b
    ensures a <= b ==> a <= r <= b
    ensures b <= a ==> b <= r <= a
    ensures 0.0 <= t <= 1.0 ==> r == a + (b - a) * t
  {
    // a + (b - a) * s, with the two end points written out for the prover
    var s := Clamp01(t);
    if s == 0.0 then a
    else if s == 1.0 then b
    else
      var d := b - a;
      FractionBetween(d, s);
      a + d * s
  }

  /** Interpolating toward zero scales by the complement of the clamped parameter. */
  lemma LerpToZero(a: real, t: real)
    ensures Lerp(a, 0.0, t) == a * (1.0 - Clamp01(t))
  {
  }

  /** A fraction `s` of `d` lies between 0 and `d`. */
  lemma FractionBetween(d: real, s: real)
    requires 0.0 <= s <= 1.0
    ensures d >= 0.0 ==> 0.0 <= d * s <= d
    ensures d <= 0.0 ==> d <= d * s <= 0.0
  {
    if d >= 0.0 {
      assert d * s <= d * 1.0;
    } else {
      assert d * s >= d * 1.0;
    }
  }

  /** `Mathf.MoveTowards`: jump to the target when it is within `maxDelta`,
      otherwise take a step of exactly `maxDelta` in its direction. */
  function MoveTowards(current: real, target: real, maxDelta: real): (r: real)
    ensures Abs(target - current) <= maxDelta ==> r == target
    ensures maxDelta >= 0.0 ==> Abs(r - current) <= maxDelta
    ensures maxDelta >= 0.0 && current <= target ==> current <= r <= target
    ensures maxDelta >= 0.0 && target <= current ==> target <= r <= current
    ensures Abs(target - current) > maxDelta ==> Abs(r - current) == Abs(maxDelta)
  {
    if Abs(target - current) <= maxDelta then target
    else current + Sign(target - current) * maxDelta
  }
}
