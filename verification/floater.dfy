/**
 The rigid-body floater rules shared by BoatController.cs and SimpleSwimming.cs:
 velocity attenuation in the body frame (written back, not a force), and the
 post-step speed cap.
 */
module Floater {
  import opened Mathf
  import opened Vectors

  /**
   Expresses `v` in the body frame, scales its local x by `sideFactor` and its local
   z by `forwardFactor`, keeps local y, and converts back to world space.
   */
  function DirectionalDrag(f: Frame, v: Vec3, sideFactor: real, forwardFactor: real): (r: Vec3)
    ensures Orthonormal(f) ==> ToLocal(f, r) == Vec3(ToLocal(f, v).x * sideFactor, ToLocal(f, v).y, ToLocal(f, v).z * forwardFactor)
  {
    var l := ToLocal(f, v);
    var scaled := Vec3(l.x * sideFactor, l.y, l.z * forwardFactor);
    RoundTripWhenOrthonormal(f, scaled);
    ToWorld(f, scaled)
  }

  /**
   Expresses angular velocity `w` in the body frame, scales the local x, y and z
   components by their own factors, and converts back.
   */
  function AxisDamping(f: Frame, w: Vec3, kx: real, ky: real, kz: real): (r: Vec3)
    ensures Orthonormal(f) ==> ToLocal(f, r) == Vec3(ToLocal(f, w).x * kx, ToLocal(f, w).y * ky, ToLocal(f, w).z * kz)
  {
    var l := ToLocal(f, w);
    var scaled := Vec3(l.x * kx, l.y * ky, l.z * kz);
    RoundTripWhenOrthonormal(f, scaled);
    ToWorld(f, scaled)
  }

  /** Factors of exactly 1 leave the vector untouched whatever the rotation. */
  lemma UnitFactorsAreIdentity(f: Frame, v: Vec3)
    requires Orthonormal(f)
    ensures DirectionalDrag(f, v, 1.0, 1.0) == v
    ensures AxisDamping(f, v, 1.0, 1.0, 1.0) == v
  {
    WorldOfLocal(f, v);
  }

  /** Factors in [-1, 1] never increase the speed. */
  lemma DragNeverSpeedsUp(f: Frame, v: Vec3, sideFactor: real, forwardFactor: real)
    requires Orthonormal(f)
    requires -1.0 <= sideFactor <= 1.0 && -1.0 <= forwardFactor <= 1.0
    ensures SqrMagnitude(DirectionalDrag(f, v, sideFactor, forwardFactor)) <= SqrMagnitude(v)
  {
    var l := ToLocal(f, v);
    var scaled := Vec3(l.x * sideFactor, l.y, l.z * forwardFactor);
    calc {
      SqrMagnitude(DirectionalDrag(f, v, sideFactor, forwardFactor));
      { DragUnfold(f, v, sideFactor, forwardFactor); }
      SqrMagnitude(ToWorld(f, scaled));
      { ToWorldSqrMagnitude(f, scaled); }
      SqrMagnitude(scaled);
    <= { LocalScalingShrinks(l, sideFactor, forwardFactor); }
      SqrMagnitude(l);
      { ToWorldSqrMagnitude(f, l); }
      SqrMagnitude(ToWorld(f, l));
      { WorldOfLocal(f, v); }
      SqrMagnitude(v);
    }
  }

  lemma DragUnfold(f: Frame, v: Vec3, sideFactor: real, forwardFactor: real)
    ensures DirectionalDrag(f, v, sideFactor, forwardFactor)
         == ToWorld(f, Vec3(ToLocal(f, v).x * sideFactor, ToLocal(f, v).y, ToLocal(f, v).z * forwardFactor))
  {
  }

  lemma LocalScalingShrinks(l: Vec3, a: real, b: real)
    requires -1.0 <= a <= 1.0 && -1.0 <= b <= 1.0
    ensures SqrMagnitude(Vec3(l.x * a, l.y, l.z * b)) <= SqrMagnitude(l)
  {
    var m := Vec3(l.x * a, l.y, l.z * b);
    FactorShrinksSquare(l.x, a);
    FactorShrinksSquare(l.z, b);
    assert SqrMagnitude(m) == Sq(l.x * a) + Sq(l.y) + Sq(l.z * b);
  }

  lemma FactorShrinksSquare(a: real, k: real)
    requires -1.0 <= k <= 1.0
    ensures Sq(a * k) <= Sq(a)
  {
    SqProduct(a, k);
    SqMonotone(0.0, Abs(k));
    SqMonotone(Abs(k), 1.0);
    assert Sq(k) == Sq(Abs(k));
    assert Sq(k) * Sq(a) <= 1.0 * Sq(a);
  }

  /**
   `if (v.magnitude > maxSpeed) v = v.normalized * maxSpeed`, given `n == v.magnitude`.
   */
  function ClampVelocity(v: Vec3, n: real, maxSpeed: real): (r: Vec3)
    requires IsNorm(n, v)
    ensures n <= maxSpeed ==> r == v
    ensures maxSpeed >= 0.0 ==> SqrMagnitude(r) <= Sq(maxSpeed)
    ensures maxSpeed >= 0.0 ==> SameDirection(r, v)
    ensures maxSpeed >= 0.0 && n > maxSpeed && n > NormalizeEpsilon ==> SqrMagnitude(r) == Sq(maxSpeed)
  {
    if n > maxSpeed then
      RescaledToCap(v, n, maxSpeed);
      Scale(Normalized(v, n), maxSpeed)
    else
      WithinCap(v, n, maxSpeed);
      v
  }

  /** The factor `ClampVelocity` scales by: 1 within the cap, `maxSpeed / n` above it. */
  function ClampFactor(n: real, maxSpeed: real): (k: real)
    ensures n <= maxSpeed ==> k == 1.0
    ensures maxSpeed >= 0.0 ==> k >= 0.0
  {
    if n <= maxSpeed then 1.0
    else if n > NormalizeEpsilon then maxSpeed / n
    else 0.0
  }

  /** The capped velocity is the input scaled by `ClampFactor`. */
  lemma {:induction false} ClampIsScaling(v: Vec3, n: real, maxSpeed: real)
    requires IsNorm(n, v)
    ensures ClampVelocity(v, n, maxSpeed) == Scale(v, ClampFactor(n, maxSpeed))
  {
    if n <= maxSpeed {
      assert Scale(v, 1.0) == v;
    } else if n > NormalizeEpsilon {
      ScaleOfScale(v, 1.0 / n, maxSpeed);
      assert (1.0 / n) * maxSpeed == maxSpeed / n;
    } else {
      assert Scale(Zero, maxSpeed) == Zero;
      assert Scale(v, 0.0) == Zero;
    }
  }

  lemma RescaledToCap(v: Vec3, n: real, maxSpeed: real)
    requires IsNorm(n, v) && n > maxSpeed
    ensures maxSpeed >= 0.0 ==> SqrMagnitude(Scale(Normalized(v, n), maxSpeed)) <= Sq(maxSpeed)
    ensures maxSpeed >= 0.0 ==> SameDirection(Scale(Normalized(v, n), maxSpeed), v)
    ensures maxSpeed >= 0.0 && n > NormalizeEpsilon ==> SqrMagnitude(Scale(Normalized(v, n), maxSpeed)) == Sq(maxSpeed)
  {
    var u := Normalized(v, n);
    if n > NormalizeEpsilon {
      ScaledUnit(u, maxSpeed);
    } else {
      assert Scale(u, maxSpeed) == Zero;
    }
    if maxSpeed >= 0.0 {
      ScaledSameDirection(u, v, maxSpeed);
    }
  }

  lemma ScaledUnit(u: Vec3, k: real)
    requires SqrMagnitude(u) == 1.0
    ensures SqrMagnitude(Scale(u, k)) == Sq(k)
  {
    ScaleSqrMagnitude(u, k);
    MulUnit(Sq(k), SqrMagnitude(u));
  }

  lemma MulUnit(a: real, b: real)
    requires b == 1.0
    ensures a * b == a
  {
  }

  lemma WithinCap(v: Vec3, n: real, maxSpeed: real)
    requires IsNorm(n, v) && n <= maxSpeed
    ensures SqrMagnitude(v) <= Sq(maxSpeed)
    ensures SameDirection(v, v)
  {
    SqMonotone(n, maxSpeed);
    ScaleSameDirection(v, 1.0);
    assert Scale(v, 1.0) == v;
  }

  /** Scaling by a non-negative factor keeps a vector pointing the way it did. */
  lemma ScaledSameDirection(u: Vec3, v: Vec3, k: real)
    requires SameDirection(u, v) && k >= 0.0
    ensures SameDirection(Scale(u, k), v)
  {
    assert Cross(Scale(u, k), v) == Scale(Cross(u, v), k);
    assert Dot(Scale(u, k), v) == k * Dot(u, v);
  }
}
