/**
 Three-component vectors over reals with the engine's `Vector3` operations, and
 body frames standing in for `TransformDirection` / `InverseTransformDirection`.

 Dafny has no square root over reals, so a magnitude is never computed here: a
 comparison against a magnitude is stated on squared magnitudes, and where the
 engine divides by a magnitude the caller supplies the norm `n` with `IsNorm(n, v)`.
 */
module Vectors {
  import opened Mathf

  datatype Vec3 = Vec3(x: real, y: real, z: real)

  const Zero := Vec3(0.0, 0.0, 0.0)
  const Up := Vec3(0.0, 1.0, 0.0)

  function Add(a: Vec3, b: Vec3): Vec3 {
    Vec3(a.x + b.x, a.y + b.y, a.z + b.z)
  }

  function Sub(a: Vec3, b: Vec3): Vec3 {
    Vec3(a.x - b.x, a.y - b.y, a.z - b.z)
  }

  function Neg(a: Vec3): Vec3 {
    Vec3(-a.x, -a.y, -a.z)
  }

  function Scale(a: Vec3, k: real): Vec3 {
    Vec3(a.x * k, a.y * k, a.z * k)
  }

  /** `a / k`: each component divided by `k`. */
  function Div(a: Vec3, k: real): (r: Vec3)
    requires k != 0.0
    ensures Scale(r, k) == a
  {
    Vec3(a.x / k, a.y / k, a.z / k)
  }

  function Dot(a: Vec3, b: Vec3): real {
    a.x * b.x + a.y * b.y + a.z * b.z
  }

  function Cross(a: Vec3, b: Vec3): Vec3 {
    Vec3(a.y * b.z - a.z * b.y, a.z * b.x - a.x * b.z, a.x * b.y - a.y * b.x)
  }

  /** `sqrMagnitude` */
  function SqrMagnitude(a: Vec3): (r: real)
    ensures r >= 0.0
    ensures a == Zero ==> r == 0.0
  {
    Sq(a.x) + Sq(a.y) + Sq(a.z)
  }

  /** `n` is the Euclidean length (`magnitude`) of `v`. */
  predicate IsNorm(n: real, v: Vec3) {
    n >= 0.0 && Sq(n) == SqrMagnitude(v)
  }

  /** `v.magnitude > bound`, decided without a square root. */
  predicate MagnitudeExceeds(v: Vec3, bound: real) {
    bound < 0.0 || SqrMagnitude(v) > Sq(bound)
  }

  /** `v.magnitude < bound`, decided without a square root. */
  predicate MagnitudeBelow(v: Vec3, bound: real) {
    bound > 0.0 && SqrMagnitude(v) < Sq(bound)
  }

  /** `a` points the same way as `b` (or one of them is zero). */
  predicate SameDirection(a: Vec3, b: Vec3) {
    Cross(a, b) == Zero && Dot(a, b) >= 0.0
  }

  lemma NormComparison(n: real, v: Vec3, bound: real)
    requires IsNorm(n, v)
    ensures n > bound <==> MagnitudeExceeds(v, bound)
    ensures n < bound <==> MagnitudeBelow(v, bound)
  {
    if bound >= 0.0 {
      if n > bound { SqMonotone(bound, n); } else { SqMonotone(n, bound); }
      if n < bound { SqMonotone(n, bound); } else { SqMonotone(bound, n); }
    }
  }

  lemma ScaleSqrMagnitude(v: Vec3, k: real)
    ensures SqrMagnitude(Scale(v, k)) == Sq(k) * SqrMagnitude(v)
  {
    SqProduct(v.x, k);
    SqProduct(v.y, k);
    SqProduct(v.z, k);
  }

  lemma SqProduct(a: real, k: real)
    ensures Sq(a * k) == Sq(k) * Sq(a)
  {
  }

  lemma SqrMagnitudeIsDot(a: Vec3)
    ensures SqrMagnitude(a) == Dot(a, a)
  {
  }

  lemma ScaleSameDirection(v: Vec3, k: real)
    requires k >= 0.0
    ensures SameDirection(Scale(v, k), v)
  {
    assert (v.y * k) * v.z == (v.z * k) * v.y;
    assert (v.z * k) * v.x == (v.x * k) * v.z;
    assert (v.x * k) * v.y == (v.y * k) * v.x;
    SqrMagnitudeIsDot(v);
    assert Dot(Scale(v, k), v) == k * Dot(v, v);
  }

  /** A norm is unique. */
  lemma NormUnique(n: real, m: real, v: Vec3)
    requires IsNorm(n, v) && IsNorm(m, v)
    ensures n == m
  {
    if n < m { SqMonotone(n, m); } else if m < n { SqMonotone(m, n); }
  }

  /** Scaling twice is scaling by the product. */
  lemma ScaleOfScale(v: Vec3, a: real, b: real)
    ensures Scale(Scale(v, a), b) == Scale(v, a * b)
  {
    assert (v.x * a) * b == v.x * (a * b);
    assert (v.y * a) * b == v.y * (a * b);
    assert (v.z * a) * b == v.z * (a * b);
  }

  lemma ScaleZero(k: real)
    ensures Scale(Zero, k) == Zero
  {
    assert 0.0 * k == 0.0;
  }

  /**
   The average velocity of a point that moved from `last` to `now` in `dt`: the
   displacement divided by the time step (`(now - last) / dt`).
   */
  function Velocity(last: Vec3, now: Vec3, dt: real): (v: Vec3)
    requires dt > 0.0
    ensures Scale(v, dt) == Sub(now, last)
  {
    Div(Sub(now, last), dt)
  }

  /** A point that did not move has zero velocity over any time step. */
  lemma NoDisplacementNoVelocity(p: Vec3, dt: real)
    requires dt > 0.0
    ensures Velocity(p, p, dt) == Zero
  {
  }

  /** The engine's `normalized` threshold (`Vector3.kEpsilon`). */
  const NormalizeEpsilon := 0.00001

  /** `v.normalized`, given `n == v.magnitude`: the zero vector at or below the threshold. */
  function Normalized(v: Vec3, n: real): (r: Vec3)
    requires IsNorm(n, v)
    ensures n > NormalizeEpsilon ==> SqrMagnitude(r) == 1.0
    ensures n <= NormalizeEpsilon ==> r == Zero
    ensures SameDirection(r, v)
  {
    if n > NormalizeEpsilon then
      ScaleSqrMagnitude(v, 1.0 / n);
      ScaleSameDirection(v, 1.0 / n);
      assert Sq(1.0 / n) * Sq(n) == 1.0;
      Scale(v, 1.0 / n)
    else
      Zero
  }

  /** `Vector3.Lerp(a, b, t)`: the interpolation parameter is clamped to [0, 1]. */
  function Lerp(a: Vec3, b: Vec3, t: real): (r: Vec3)
    ensures t <= 0.0 ==> r == a
    ensures t >= 1.0 ==> r == b
    ensures 0.0 <= t <= 1.0 ==> r == Add(a, Scale(Sub(b, a), t))
  {
    Vec3(Mathf.Lerp(a.x, b.x, t), Mathf.Lerp(a.y, b.y, t), Mathf.Lerp(a.z, b.z, t))
  }

  /** Interpolating away from the zero vector is scaling, for a parameter in [0, 1]. */
  lemma LerpFromZero(b: Vec3, t: real)
    requires 0.0 <= t <= 1.0
    ensures Lerp(Zero, b, t) == Scale(b, t)
  {
    assert Sub(b, Zero) == b;
    assert Add(Zero, Scale(b, t)) == Scale(b, t);
  }

  /** Interpolating toward the zero vector shrinks by the complement of the clamped parameter. */
  lemma LerpToZero(a: Vec3, t: real)
    ensures Lerp(a, Zero, t) == Scale(a, 1.0 - Clamp01(t))
  {
    Mathf.LerpToZero(a.x, t);
    Mathf.LerpToZero(a.y, t);
    Mathf.LerpToZero(a.z, t);
  }

  /**
   A body's rotation, given by the world-space directions of its local x (`right`),
   y (`up`) and z (`forward`) axes.
   */
  datatype Frame = Frame(right: Vec3, up: Vec3, forward: Vec3)

  const Identity := Frame(Vec3(1.0, 0.0, 0.0), Up, Vec3(0.0, 0.0, 1.0))

  /** `InverseTransformDirection`: world direction to body-local coordinates. */
  function ToLocal(f: Frame, v: Vec3): Vec3 {
    Vec3(Dot(v, f.right), Dot(v, f.up), Dot(v, f.forward))
  }

  /** `TransformDirection`: body-local coordinates to a world direction. */
  function ToWorld(f: Frame, l: Vec3): Vec3 {
    Add(Add(Scale(f.right, l.x), Scale(f.up, l.y)), Scale(f.forward, l.z))
  }

  /** The axes are unit length and pairwise orthogonal, and so are the matrix rows. */
  predicate Orthonormal(f: Frame) {
    && Dot(f.right, f.right) == 1.0 && Dot(f.up, f.up) == 1.0 && Dot(f.forward, f.forward) == 1.0
    && Dot(f.right, f.up) == 0.0 && Dot(f.right, f.forward) == 0.0 && Dot(f.up, f.forward) == 0.0
    && RowsOrthonormal(f)
  }

  predicate RowsOrthonormal(f: Frame) {
    var r0 := Vec3(f.right.x, f.up.x, f.forward.x);
    var r1 := Vec3(f.right.y, f.up.y, f.forward.y);
    var r2 := Vec3(f.right.z, f.up.z, f.forward.z);
    && Dot(r0, r0) == 1.0 && Dot(r1, r1) == 1.0 && Dot(r2, r2) == 1.0
    && Dot(r0, r1) == 0.0 && Dot(r0, r2) == 0.0 && Dot(r1, r2) == 0.0
  }

  lemma IdentityOrthonormal()
    ensures Orthonormal(Identity)
  {
  }

  /** A dot product is linear in its first argument. */
  lemma DotLinear(a: Vec3, b: Vec3, c: Vec3, q: Vec3, x: real, y: real, z: real)
    ensures Dot(Add(Add(Scale(a, x), Scale(b, y)), Scale(c, z)), q)
         == x * Dot(a, q) + y * Dot(b, q) + z * Dot(c, q)
  {
    assert (a.x * x + b.x * y + c.x * z) * q.x == x * (a.x * q.x) + y * (b.x * q.x) + z * (c.x * q.x);
    assert (a.y * x + b.y * y + c.y * z) * q.y == x * (a.y * q.y) + y * (b.y * q.y) + z * (c.y * q.y);
    assert (a.z * x + b.z * y + c.z * z) * q.z == x * (a.z * q.z) + y * (b.z * q.z) + z * (c.z * q.z);
  }

  /** Expressing a local vector in world space and back is the identity. */
  lemma LocalOfWorld(f: Frame, l: Vec3)
    requires Orthonormal(f)
    ensures ToLocal(f, ToWorld(f, l)) == l
  {
    DotLinear(f.right, f.up, f.forward, f.right, l.x, l.y, l.z);
    DotLinear(f.right, f.up, f.forward, f.up, l.x, l.y, l.z);
    DotLinear(f.right, f.up, f.forward, f.forward, l.x, l.y, l.z);
  }

  /** The local round trip, stated for any frame. */
  lemma RoundTripWhenOrthonormal(f: Frame, l: Vec3)
    ensures Orthonormal(f) ==> ToLocal(f, ToWorld(f, l)) == l
  {
    if Orthonormal(f) {
      LocalOfWorld(f, l);
    }
  }

  /** Expressing a world vector in local space and back is the identity. */
  lemma WorldOfLocal(f: Frame, v: Vec3)
    requires Orthonormal(f)
    ensures ToWorld(f, ToLocal(f, v)) == v
  {
    // the transpose of the frame matrix, whose rows are the frame's axes
    var t := Frame(Vec3(f.right.x, f.up.x, f.forward.x),
                   Vec3(f.right.y, f.up.y, f.forward.y),
                   Vec3(f.right.z, f.up.z, f.forward.z));
    var w := ToWorld(f, ToLocal(f, v));
    var s := Add(Add(Scale(t.right, v.x), Scale(t.up, v.y)), Scale(t.forward, v.z));
    assert s == ToLocal(f, v);
    assert w.x == v.x by {
      assert w.x == Dot(s, t.right);
      DotLinear(t.right, t.up, t.forward, t.right, v.x, v.y, v.z);
    }
    assert w.y == v.y by {
      assert w.y == Dot(s, t.up);
      DotLinear(t.right, t.up, t.forward, t.up, v.x, v.y, v.z);
    }
    assert w.z == v.z by {
      assert w.z == Dot(s, t.forward);
      DotLinear(t.right, t.up, t.forward, t.forward, v.x, v.y, v.z);
    }
  }

  /** A rotation preserves lengths. */
  lemma ToWorldSqrMagnitude(f: Frame, l: Vec3)
    requires Orthonormal(f)
    ensures SqrMagnitude(ToWorld(f, l)) == SqrMagnitude(l)
  {
    var w := ToWorld(f, l);
    SqrMagnitudeIsDot(w);
    SqrMagnitudeIsDot(l);
    DotLinear(f.right, f.up, f.forward, w, l.x, l.y, l.z);
    LocalOfWorld(f, l);
    assert Dot(w, f.right) == l.x && Dot(w, f.up) == l.y && Dot(w, f.forward) == l.z;
    assert Dot(f.right, w) == Dot(w, f.right) && Dot(f.up, w) == Dot(w, f.up) && Dot(f.forward, w) == Dot(w, f.forward);
  }

  /** Expressing a vector in an orthonormal body frame keeps its length. */
  lemma ToLocalSqrMagnitude(f: Frame, v: Vec3)
    requires Orthonormal(f)
    ensures SqrMagnitude(ToLocal(f, v)) == SqrMagnitude(v)
  {
    WorldOfLocal(f, v);
    ToWorldSqrMagnitude(f, ToLocal(f, v));
  }

  /** `TransformDirection` commutes with scaling. */
  lemma ToWorldScale(f: Frame, l: Vec3, k: real)
    ensures ToWorld(f, Scale(l, k)) == Scale(ToWorld(f, l), k)
  {
    var r, u, w := Scale(f.right, l.x), Scale(f.up, l.y), Scale(f.forward, l.z);
    ScaleOfScale(f.right, l.x, k);
    ScaleOfScale(f.up, l.y, k);
    ScaleOfScale(f.forward, l.z, k);
    var x, y, z := l.x * k, l.y * k, l.z * k;
    assert Scale(l, k) == Vec3(x, y, z);
    assert ToWorld(f, Vec3(x, y, z)) == Add(Add(Scale(f.right, x), Scale(f.up, y)), Scale(f.forward, z));
    ScaleAdd(r, u, k);
    ScaleAdd(Add(r, u), w, k);
  }

  /** Scaling distributes over addition. */
  lemma ScaleAdd(a: Vec3, b: Vec3, k: real)
    ensures Add(Scale(a, k), Scale(b, k)) == Scale(Add(a, b), k)
  {
    assert a.x * k + b.x * k == (a.x + b.x) * k;
    assert a.y * k + b.y * k == (a.y + b.y) * k;
    assert a.z * k + b.z * k == (a.z + b.z) * k;
  }
}
