/**
 VrSwimmings.cs: buoyancy driven by a smoothed "wetness" in [0, 1] that eases
 toward the water probe's raw in-water flag, fading in faster than it fades out.
 Wetness blends the linear drag between air and water, scales a constant upward
 force, and sets a vertical damping that is strongest at the surface; an optional
 clamp limits the rise speed.
 */
module VrSwimmings {
  import opened Mathf
  import opened Vectors
  import opened Engine

  datatype Config = Config(
    upwardForce: real,
    enterBlendTime: real,
    exitBlendTime: real,
    verticalDampingPerKg: real,
    surfaceDampingBoost: real,
    maxRiseSpeed: real,
    waterDrag: real,
    airDrag: real)

  /** The inspector defaults. */
  const Defaults := Config(100.0, 0.2, 0.4, 12.0, 2.0, 1.5, 2.0, 0.0)

  /** The smallest blend time used: `0.0001` seconds. */
  const MinBlendTime := 0.0001

  /**
   `Awake`: the mass-scaled damping coefficient, `mass * max(0, verticalDampingPerKg)`;
   it stays 0 when there is no rigid body.
   */
  function BaseDamping(c: Config, mass: Option<real>): (d: real)
    ensures mass.None? ==> d == 0.0
    ensures mass.Some? && mass.value >= 0.0 ==> d >= 0.0
    ensures mass.Some? && c.verticalDampingPerKg <= 0.0 ==> d == 0.0
    ensures mass.Some? && c.verticalDampingPerKg > 0.0 ==> d == mass.value * c.verticalDampingPerKg
  {
    if mass.None? then 0.0 else mass.value * Max(0.0, c.verticalDampingPerKg)
  }

  /** Full wetness in water, none out of it. */
  function Target(rawInWater: bool): real {
    if rawInWater then 1.0 else 0.0
  }

  /** The time constant: the enter blend time in water, the exit one outside, floored at `MinBlendTime`. */
  function BlendTime(c: Config, rawInWater: bool): (tau: real)
    ensures tau >= MinBlendTime
    ensures tau == Max(MinBlendTime, if rawInWater then c.enterBlendTime else c.exitBlendTime)
  {
    if rawInWater then Max(MinBlendTime, c.enterBlendTime) else Max(MinBlendTime, c.exitBlendTime)
  }

  /** The most wetness may change in one step. */
  function MaxChange(c: Config, rawInWater: bool, dt: real): real {
    dt / BlendTime(c, rawInWater)
  }

  /**
   One step of wetness: `MoveTowards(wetness, target, dt / tau)`. It stays in [0, 1],
   moves toward the target by at most `dt / tau` and never past it.
   */
  function StepWetness(c: Config, wetness: real, rawInWater: bool, dt: real): (w: real)
    requires dt >= 0.0
    ensures 0.0 <= wetness <= 1.0 ==> 0.0 <= w <= 1.0
    ensures Abs(w - wetness) <= MaxChange(c, rawInWater, dt)
    ensures rawInWater ==> (wetness <= 1.0 ==> wetness <= w <= 1.0)
    ensures !rawInWater ==> (wetness >= 0.0 ==> 0.0 <= w <= wetness)
    ensures Abs(Target(rawInWater) - wetness) <= MaxChange(c, rawInWater, dt) ==> w == Target(rawInWater)
  {
    var delta := MaxChange(c, rawInWater, dt);
    NonNegativeQuotient(dt, BlendTime(c, rawInWater));
    MoveTowards(wetness, Target(rawInWater), delta)
  }

  lemma NonNegativeQuotient(a: real, b: real)
    requires a >= 0.0 && b > 0.0
    ensures a / b >= 0.0
  {
  }

  /** `n` steps with the same raw flag. */
  function Iterate(c: Config, wetness: real, rawInWater: bool, dt: real, n: nat): real
    requires dt >= 0.0
    decreases n
  {
    if n == 0 then wetness else Iterate(c, StepWetness(c, wetness, rawInWater, dt), rawInWater, dt, n - 1)
  }

  /** Once at its target, wetness stays there. */
  lemma {:induction false} TargetIsFixed(c: Config, rawInWater: bool, dt: real, n: nat)
    requires dt >= 0.0
    ensures Iterate(c, Target(rawInWater), rawInWater, dt, n) == Target(rawInWater)
    decreases n
  {
    if n > 0 {
      assert StepWetness(c, Target(rawInWater), rawInWater, dt) == Target(rawInWater);
      TargetIsFixed(c, rawInWater, dt, n - 1);
    }
  }

  /**
   Staying in water, wetness reaches 1 after any number of steps whose total
   allowance `n * dt / tau` covers the remaining distance.
   */
  lemma {:induction false} FadeInCompletes(c: Config, wetness: real, dt: real, n: nat)
    requires dt >= 0.0 && 0.0 <= wetness <= 1.0
    requires wetness + (n as real) * MaxChange(c, true, dt) >= 1.0
    ensures Iterate(c, wetness, true, dt, n) == 1.0
    decreases n
  {
    var delta := MaxChange(c, true, dt);
    if n > 0 {
      var next := StepWetness(c, wetness, true, dt);
      if 1.0 - wetness <= delta {
        assert next == 1.0;
        TargetIsFixed(c, true, dt, n - 1);
      } else {
        assert next == wetness + delta;
        OneStepFewer(n, delta);
        FadeInCompletes(c, next, dt, n - 1);
      }
    }
  }

  lemma OneStepFewer(n: nat, delta: real)
    requires n > 0
    ensures ((n - 1) as real) * delta == (n as real) * delta - delta
  {
  }

  /** Out of water, wetness reaches 0 once the total allowance covers it. */
  lemma {:induction false} FadeOutCompletes(c: Config, wetness: real, dt: real, n: nat)
    requires dt >= 0.0 && 0.0 <= wetness <= 1.0
    requires wetness <= (n as real) * MaxChange(c, false, dt)
    ensures Iterate(c, wetness, false, dt, n) == 0.0
    decreases n
  {
    var delta := MaxChange(c, false, dt);
    if n > 0 {
      var next := StepWetness(c, wetness, false, dt);
      if wetness <= delta {
        assert next == 0.0;
        TargetIsFixed(c, false, dt, n - 1);
      } else {
        assert next == wetness - delta;
        OneStepFewer(n, delta);
        FadeOutCompletes(c, next, dt, n - 1);
      }
    }
  }

  /** The linear damping for a wetness: `Lerp(airDrag, waterDrag, wetness)`. */
  function BlendedDrag(c: Config, wetness: real): (d: real)
    ensures wetness <= 0.0 ==> d == c.airDrag
    ensures wetness >= 1.0 ==> d == c.waterDrag
    ensures c.airDrag <= c.waterDrag ==> c.airDrag <= d <= c.waterDrag
    ensures c.waterDrag <= c.airDrag ==> c.waterDrag <= d <= c.airDrag
    ensures 0.0 <= wetness <= 1.0 ==> d == c.airDrag + (c.waterDrag - c.airDrag) * wetness
  {
    Mathf.Lerp(c.airDrag, c.waterDrag, wetness)
  }

  /**
   A wetter body is never less damped while the water drag is the larger one: the
   blend moves monotonically from `airDrag` to `waterDrag`.
   */
  lemma WetterIsDraggier(c: Config, w1: real, w2: real)
    requires w1 <= w2 && c.airDrag <= c.waterDrag
    ensures BlendedDrag(c, w1) <= BlendedDrag(c, w2)
  {
    var s1, s2 := Clamp01(w1), Clamp01(w2);
    ClampedBlend(c, w1);
    ClampedBlend(c, w2);
    NonNegativeProduct(c.waterDrag - c.airDrag, s2 - s1);
    assert (c.waterDrag - c.airDrag) * s2 - (c.waterDrag - c.airDrag) * s1 == (c.waterDrag - c.airDrag) * (s2 - s1);
  }

  lemma ClampedBlend(c: Config, w: real)
    ensures BlendedDrag(c, w) == c.airDrag + (c.waterDrag - c.airDrag) * Clamp01(w)
  {
  }

  /** The surface bell curve `w * (1 - w) * 4`. */
  function SurfaceBlend(w: real): real {
    w * (1.0 - w) * 4.0
  }

  /** The bell curve stays in [0, 1] on [0, 1], vanishes at both ends and peaks at one half. */
  lemma SurfaceBlendShape(w: real)
    ensures 0.0 <= w <= 1.0 ==> 0.0 <= SurfaceBlend(w) <= 1.0
    ensures SurfaceBlend(0.0) == 0.0 && SurfaceBlend(1.0) == 0.0 && SurfaceBlend(0.5) == 1.0
  {
    var d := 2.0 * w - 1.0;
    assert SurfaceBlend(w) == 1.0 - Sq(d);
    if 0.0 <= w <= 1.0 {
      SqMonotone(Abs(d), 1.0);
      assert Sq(d) == Sq(Abs(d));
      NonNegativeProduct(w, 1.0 - w);
    }
  }

  /** The vertical damping coefficient: base damping boosted near the surface. */
  function DampingCoefficient(c: Config, base: real, w: real): real {
    base * (1.0 + c.surfaceDampingBoost * SurfaceBlend(w))
  }

  /** With a non-negative base and a boost no lower than -1, the coefficient is non-negative. */
  lemma DampingCoefficientNonNegative(c: Config, base: real, w: real)
    requires base >= 0.0 && c.surfaceDampingBoost >= -1.0 && 0.0 <= w <= 1.0
    ensures DampingCoefficient(c, base, w) >= 0.0
  {
    var b := SurfaceBlend(w);
    SurfaceBlendShape(w);
    BoostedFactor(c.surfaceDampingBoost, b);
    NonNegativeProduct(base, 1.0 + c.surfaceDampingBoost * b);
  }

  lemma BoostedFactor(boost: real, b: real)
    requires boost >= -1.0 && 0.0 <= b <= 1.0
    ensures 1.0 + boost * b >= 0.0
  {
    if boost >= 0.0 {
      NonNegativeProduct(boost, b);
    } else {
      assert boost * b >= boost * 1.0;
    }
  }

  /** The rise clamp: with `maxRiseSpeed > 0`, a vertical speed above it is cut to it; x and z are kept. */
  function ClampRise(c: Config, v: Vec3): (r: Vec3)
    ensures r.x == v.x && r.z == v.z
    ensures c.maxRiseSpeed > 0.0 && v.y > c.maxRiseSpeed ==> r.y == c.maxRiseSpeed
    ensures !(c.maxRiseSpeed > 0.0 && v.y > c.maxRiseSpeed) ==> r == v
    ensures c.maxRiseSpeed > 0.0 ==> r.y <= c.maxRiseSpeed || r.y == v.y
    ensures r.y <= v.y
  {
    if c.maxRiseSpeed > 0.0 && v.y > c.maxRiseSpeed then v.(y := c.maxRiseSpeed) else v
  }

  /** The state the component keeps. */
  datatype Swimmer = Swimmer(wetness: real, baseDamping: real)

  /**
   What one step leaves: the state, the linear damping written to the body (`None`
   when the step returned early), the submitted forces, and the body's velocity.
   */
  datatype Tick = Tick(state: Swimmer, linearDamping: Option<real>, forces: seq<AppliedForce>, velocity: Vec3)

  /**
   One `FixedUpdate`. Without a rigid body or a probe, or with a kinematic body,
   nothing happens. Otherwise wetness steps toward the probe's flag and the drag is
   blended; a dry body gets nothing more, a wet one gets `WetForces` and the rise
   clamp.
   */
  function FixedUpdate(c: Config, s: Swimmer, hasBody: bool, hasProbe: bool, isKinematic: bool,
                       rawInWater: bool, velocity: Vec3, dt: real): (r: Tick)
    requires dt >= 0.0
    ensures !hasBody || !hasProbe || isKinematic ==> r == Tick(s, None, [], velocity)
    ensures hasBody && hasProbe && !isKinematic ==>
              && r.state.wetness == StepWetness(c, s.wetness, rawInWater, dt)
              && r.state.baseDamping == s.baseDamping
              && r.linearDamping == Some(BlendedDrag(c, r.state.wetness))
    ensures r.state.wetness <= 0.0 ==> r.forces == [] && r.velocity == velocity
    ensures r.forces != [] ==>
              && r.state.wetness > 0.0
              && r.forces == WetForces(c, s.baseDamping, r.state.wetness, velocity.y)
              && r.velocity == ClampRise(c, velocity)
    ensures hasBody && hasProbe && !isKinematic && r.state.wetness > 0.0 ==>
              && r.forces == WetForces(c, s.baseDamping, r.state.wetness, velocity.y)
              && r.velocity == ClampRise(c, velocity)
    ensures r.velocity.x == velocity.x && r.velocity.z == velocity.z
  {
    if !hasBody || !hasProbe || isKinematic then Tick(s, None, [], velocity)
    else
      var w := StepWetness(c, s.wetness, rawInWater, dt);
      var t := s.(wetness := w);
      if w <= 0.0 then Tick(t, Some(BlendedDrag(c, w)), [], velocity)
      else Tick(t, Some(BlendedDrag(c, w)), WetForces(c, s.baseDamping, w, velocity.y), ClampRise(c, velocity))
  }

  /**
   The forces on a wet body: `upwardForce * wetness` up, and `-coefficient * vy`
   vertically, where `vy` is `Dot(velocity, Vector3.up)`.
   */
  function WetForces(c: Config, base: real, w: real, vy: real): (forces: seq<AppliedForce>)
    ensures |forces| == 2
    ensures forall i :: 0 <= i < 2 ==> Vertical(forces[i]) && forces[i].at.None? && forces[i].mode == Force
    ensures forces[0].vector.y == c.upwardForce * w
    ensures forces[1].vector.y == -DampingCoefficient(c, base, w) * vy
  {
    [AppliedForce(Vec3(0.0, c.upwardForce * w, 0.0), None, Force),
     AppliedForce(Vec3(0.0, -DampingCoefficient(c, base, w) * vy, 0.0), None, Force)]
  }

  /** The damping force never pushes along the vertical motion when the coefficient is non-negative. */
  lemma DampingOpposesVerticalMotion(c: Config, s: Swimmer, rawInWater: bool, velocity: Vec3, dt: real)
    requires dt >= 0.0
    requires s.baseDamping >= 0.0 && c.surfaceDampingBoost >= -1.0 && 0.0 <= s.wetness <= 1.0
    ensures var r := FixedUpdate(c, s, true, true, false, rawInWater, velocity, dt);
            r.forces != [] ==>
              && (velocity.y >= 0.0 ==> r.forces[1].vector.y <= 0.0)
              && (velocity.y <= 0.0 ==> r.forces[1].vector.y >= 0.0)
  {
    var r := FixedUpdate(c, s, true, true, false, rawInWater, velocity, dt);
    var w := r.state.wetness;
    if r.forces != [] {
      var k := DampingCoefficient(c, s.baseDamping, w);
      assert r.forces == WetForces(c, s.baseDamping, w, velocity.y);
      DampingCoefficientNonNegative(c, s.baseDamping, w);
      OpposingProduct(velocity.y, k, r.forces[1].vector.y);
    }
  }

  /** The dot product with the up axis that the damping reads is the vertical component. */
  lemma VerticalSpeedIsDotUp(v: Vec3)
    ensures Dot(v, Up) == v.y
  {
  }
}
