/**
 SimpleSwimming.cs: a swimmer's body floated at its centre of mass. Each physics
 step applies one drag coefficient to horizontal motion and to all rotation, lifts
 the body by its depth, caps its speed, and for each pressed swim button turns the
 hand's motion relative to the water into an opposite acceleration.
 */
module SimpleSwimming {
  import opened Mathf
  import opened Vectors
  import opened Engine
  import opened WaterVolume
  import Floater

  /** `angularDamping` is declared in the component but never read by it. */
  datatype Config = Config(
    floatForce: real,
    drag: real,
    angularDamping: real,
    maxSpeed: real,
    thrustPerMS: real,
    maxThrust: real,
    minHandSpeed: real,
    horizontalOnly: bool)

  /** The inspector defaults. */
  const Defaults := Config(15.0, 2.0, 1.0, 10.0, 3.0, 50.0, 0.2, false)

  /** A tracked hand: its transform's position and its rigid body's velocity. */
  datatype Hand = Hand(position: Vec3, velocity: Vec3)

  /** The body state one step reads. */
  datatype Body = Body(frame: Frame, velocity: Vec3, angularVelocity: Vec3, centerOfMass: Vec3)

  /**
   One swim button: whether it is pressed, the hand it drives (`None` when its
   transform or rigid body is unassigned), the body's velocity at the hand's
   position, and the magnitude of that hand's unclamped acceleration.
   */
  datatype Stroke = Stroke(pressed: bool, hand: Option<Hand>, bodyVelocityAtHand: Vec3, accelNorm: real)

  datatype Step = Step(velocity: Vec3, angularVelocity: Vec3, forces: seq<AppliedForce>)

  /** The drag factor applied per step to local x and z and to all three angular axes. */
  function DragFactor(c: Config, dt: real): real {
    1.0 - c.drag * dt
  }

  /** Local x and z are scaled by the same factor; local y is kept. */
  function ApplyDirectionalDrag(c: Config, f: Frame, v: Vec3, dt: real): (r: Vec3)
    ensures Orthonormal(f) ==> ToLocal(f, r) == Vec3(ToLocal(f, v).x * DragFactor(c, dt), ToLocal(f, v).y, ToLocal(f, v).z * DragFactor(c, dt))
  {
    Floater.DirectionalDrag(f, v, DragFactor(c, dt), DragFactor(c, dt))
  }

  /** All three local angular axes are scaled by the drag factor. */
  function ApplyAngularDamping(c: Config, f: Frame, w: Vec3, dt: real): (r: Vec3)
    ensures Orthonormal(f) ==> ToLocal(f, r) == Vec3(ToLocal(f, w).x * DragFactor(c, dt), ToLocal(f, w).y * DragFactor(c, dt), ToLocal(f, w).z * DragFactor(c, dt))
  {
    Floater.AxisDamping(f, w, DragFactor(c, dt), DragFactor(c, dt), DragFactor(c, dt))
  }

  /** With `drag * dt` in [0, 2] the drag never speeds the swimmer up. */
  lemma DirectionalDragBounded(c: Config, f: Frame, v: Vec3, dt: real)
    requires Orthonormal(f)
    requires 0.0 <= c.drag * dt <= 2.0
    ensures SqrMagnitude(ApplyDirectionalDrag(c, f, v, dt)) <= SqrMagnitude(v)
  {
    var k := DragFactor(c, dt);
    assert -1.0 <= k <= 1.0;
    assert ApplyDirectionalDrag(c, f, v, dt) == Floater.DirectionalDrag(f, v, k, k);
    Floater.DragNeverSpeedsUp(f, v, k, k);
  }

  /**
   The submersion of the body's centre of mass: dry when the body or the water is
   unassigned, otherwise the water box's depth query.
   */
  function RigidbodyInsideWater(water: Option<Bounds>, centerOfMass: Option<Vec3>): (s: Submersion)
    ensures water.None? || centerOfMass.None? ==> s == Dry
    ensures s.depth >= 0.0
    ensures water.Some? && centerOfMass.Some? && Contains(water.value, centerOfMass.value)
            ==> s.depth == Top(water.value) - centerOfMass.value.y && s.depth <= Height(water.value)
    ensures s.submerged <==> water.Some? && centerOfMass.Some? && Contains(water.value, centerOfMass.value) && s.depth > SubmergedEpsilon
  {
    if water.None? || centerOfMass.None? then Dry else DepthAt(water.value, centerOfMass.value)
  }

  /**
   The lift and vertical damping at the centre of mass: none unless it is
   submerged; otherwise `floatForce * depth` up and `-velocity.y * drag` vertically,
   both applied at the centre of mass.
   */
  function ApplyBuoyancyAtPoint(c: Config, water: Option<Bounds>, centerOfMass: Option<Vec3>, velocity: Vec3): (forces: seq<AppliedForce>)
    ensures forces != [] <==> RigidbodyInsideWater(water, centerOfMass).submerged
    ensures forces == [] || |forces| == 2
    ensures forall i :: 0 <= i < |forces| ==> Vertical(forces[i]) && forces[i].at.None? && forces[i].mode == Force
    ensures forces != [] ==> forces[0].vector.y == c.floatForce * RigidbodyInsideWater(water, centerOfMass).depth
    ensures forces != [] ==> forces[1].vector.y == -velocity.y * c.drag
  {
    var s := RigidbodyInsideWater(water, centerOfMass);
    if s.submerged then
      // Vector3.up * floatForce * depth and -Vector3.up * velocity.y * Drag
      [AppliedForce(Vec3(0.0, c.floatForce * s.depth, 0.0), None, Force),
       AppliedForce(Vec3(0.0, -velocity.y * c.drag, 0.0), None, Force)]
    else []
  }

  /** The hand's velocity through the water, with y dropped when `horizontalOnly`. */
  function RelativeHandVelocity(c: Config, handVelocity: Vec3, bodyVelocityAtHand: Vec3): (rel: Vec3)
    ensures !c.horizontalOnly ==> Add(bodyVelocityAtHand, rel) == handVelocity
    ensures c.horizontalOnly ==> rel.y == 0.0
    ensures rel.x == handVelocity.x - bodyVelocityAtHand.x && rel.z == handVelocity.z - bodyVelocityAtHand.z
  {
    var rel := Sub(handVelocity, bodyVelocityAtHand);
    if c.horizontalOnly then Vec3(rel.x, 0.0, rel.z) else rel
  }

  /** `relVel.sqrMagnitude < minHandSpeed * minHandSpeed`: too slow to count as a stroke. */
  predicate InDeadzone(c: Config, rel: Vec3) {
    SqrMagnitude(rel) < Sq(c.minHandSpeed)
  }

  /** The acceleration before the clamp: opposite the relative velocity, `thrustPerMS` per m/s. */
  function RawThrust(c: Config, rel: Vec3): Vec3 {
    Scale(Neg(rel), c.thrustPerMS)
  }

  /**
   `if (a.sqrMagnitude > maxThrust * maxThrust) a = a.normalized * maxThrust`, given
   `n == a.magnitude`.
   */
  function ClampThrust(a: Vec3, n: real, maxThrust: real): (r: Vec3)
    requires IsNorm(n, a)
    ensures SqrMagnitude(a) <= Sq(maxThrust) ==> r == a
    ensures a.y == 0.0 ==> r.y == 0.0
  {
    if SqrMagnitude(a) > Sq(maxThrust) then Scale(Normalized(a, n), maxThrust) else a
  }

  /** For a non-negative cap the thrust clamp is the speed cap of `Floater`. */
  lemma ClampThrustIsSpeedCap(a: Vec3, n: real, maxThrust: real)
    requires IsNorm(n, a) && maxThrust >= 0.0
    ensures ClampThrust(a, n, maxThrust) == Floater.ClampVelocity(a, n, maxThrust)
  {
    NormComparison(n, a, maxThrust);
  }

  /**
   The acceleration one hand adds, or `None`: no hand, or a relative speed under
   `minHandSpeed` (the deadzone). The acceleration opposes the relative velocity,
   is capped at `maxThrust`, has no vertical part under `horizontalOnly`, and is
   applied at the centre of mass in `Acceleration` mode.
   */
  function HandleHandSwim(c: Config, hand: Option<Hand>, bodyVelocityAtHand: Vec3, accelNorm: real): (r: Option<AppliedForce>)
    requires hand.Some? ==> IsNorm(accelNorm, RawThrust(c, RelativeHandVelocity(c, hand.value.velocity, bodyVelocityAtHand)))
    ensures hand.None? ==> r.None?
    ensures hand.Some? ==> (r.None? <==> InDeadzone(c, RelativeHandVelocity(c, hand.value.velocity, bodyVelocityAtHand)))
    ensures r.Some? ==> r.value.at.None? && r.value.mode == Acceleration
    ensures r.Some? && c.maxThrust >= 0.0 ==> SqrMagnitude(r.value.vector) <= Sq(c.maxThrust)
    ensures r.Some? && c.horizontalOnly ==> r.value.vector.y == 0.0
    ensures r.Some? && accelNorm <= c.maxThrust ==> r.value.vector == RawThrust(c, RelativeHandVelocity(c, hand.value.velocity, bodyVelocityAtHand))
    ensures r.Some? && c.thrustPerMS >= 0.0 && c.maxThrust >= 0.0 ==>
              SameDirection(r.value.vector, Neg(RelativeHandVelocity(c, hand.value.velocity, bodyVelocityAtHand)))
    ensures r.Some? && c.maxThrust >= 0.0 && accelNorm > c.maxThrust ==>
              r.value.vector == Scale(Normalized(RawThrust(c, RelativeHandVelocity(c, hand.value.velocity, bodyVelocityAtHand)), accelNorm), c.maxThrust)
    ensures r.Some? && c.maxThrust >= 0.0 && accelNorm > c.maxThrust && accelNorm > NormalizeEpsilon ==>
              SqrMagnitude(r.value.vector) == Sq(c.maxThrust)
  {
    if hand.None? then None
    else
      var rel := RelativeHandVelocity(c, hand.value.velocity, bodyVelocityAtHand);
      if InDeadzone(c, rel) then None
      else
        var accel := RawThrust(c, rel);
        ThrustOpposesStroke(c, rel, accelNorm);
        ThrustWithinCap(accel, accelNorm, c.maxThrust);
        UnclampedThrust(accel, accelNorm, c.maxThrust);
        ClampedThrust(accel, accelNorm, c.maxThrust);
        CappedThrustMagnitude(accel, accelNorm, c.maxThrust);
        Some(AppliedForce(ClampThrust(accel, accelNorm, c.maxThrust), None, Acceleration))
  }

  /** A non-negative cap bounds the clamped thrust. */
  lemma ThrustWithinCap(a: Vec3, n: real, maxThrust: real)
    requires IsNorm(n, a)
    ensures maxThrust >= 0.0 ==> SqrMagnitude(ClampThrust(a, n, maxThrust)) <= Sq(maxThrust)
  {
    if maxThrust >= 0.0 {
      ClampThrustIsSpeedCap(a, n, maxThrust);
    }
  }

  /** A thrust already within the cap passes through unchanged. */
  lemma UnclampedThrust(a: Vec3, n: real, maxThrust: real)
    requires IsNorm(n, a)
    ensures n <= maxThrust ==> ClampThrust(a, n, maxThrust) == a
  {
    if n <= maxThrust {
      SqMonotone(n, maxThrust);
    }
  }

  /** A thrust above a non-negative cap is rescaled to the cap along its own direction. */
  lemma ClampedThrust(a: Vec3, n: real, maxThrust: real)
    requires IsNorm(n, a)
    ensures maxThrust >= 0.0 && n > maxThrust ==> ClampThrust(a, n, maxThrust) == Scale(Normalized(a, n), maxThrust)
  {
    if maxThrust >= 0.0 && n > maxThrust {
      NormComparison(n, a, maxThrust);
    }
  }

  /** Above a non-negative cap (and the normalise threshold) the thrust is exactly the cap. */
  lemma CappedThrustMagnitude(a: Vec3, n: real, maxThrust: real)
    requires IsNorm(n, a)
    ensures maxThrust >= 0.0 && n > maxThrust && n > NormalizeEpsilon ==> SqrMagnitude(ClampThrust(a, n, maxThrust)) == Sq(maxThrust)
  {
    if maxThrust >= 0.0 && n > maxThrust && n > NormalizeEpsilon {
      ClampThrustIsSpeedCap(a, n, maxThrust);
    }
  }

  /** The capped thrust is a non-negative multiple of the reversed relative velocity. */
  lemma ThrustOpposesStroke(c: Config, rel: Vec3, n: real)
    requires IsNorm(n, RawThrust(c, rel))
    ensures c.thrustPerMS >= 0.0 && c.maxThrust >= 0.0 ==> SameDirection(ClampThrust(RawThrust(c, rel), n, c.maxThrust), Neg(rel))
    ensures rel.y == 0.0 ==> ClampThrust(RawThrust(c, rel), n, c.maxThrust).y == 0.0
  {
    if c.thrustPerMS >= 0.0 && c.maxThrust >= 0.0 {
      CappedThrustDirection(c, rel, n);
    }
    if rel.y == 0.0 {
      assert RawThrust(c, rel).y == 0.0;
    }
  }

  lemma CappedThrustDirection(c: Config, rel: Vec3, n: real)
    requires IsNorm(n, RawThrust(c, rel))
    requires c.thrustPerMS >= 0.0 && c.maxThrust >= 0.0
    ensures SameDirection(ClampThrust(RawThrust(c, rel), n, c.maxThrust), Neg(rel))
  {
    var a := RawThrust(c, rel);
    var k := Floater.ClampFactor(n, c.maxThrust);
    calc {
      ClampThrust(a, n, c.maxThrust);
      { ClampThrustIsSpeedCap(a, n, c.maxThrust); }
      Floater.ClampVelocity(a, n, c.maxThrust);
      { Floater.ClampIsScaling(a, n, c.maxThrust); }
      Scale(Scale(Neg(rel), c.thrustPerMS), k);
      { ScaleOfScale(Neg(rel), c.thrustPerMS, k); }
      Scale(Neg(rel), c.thrustPerMS * k);
    }
    NonNegativeProduct(c.thrustPerMS, k);
    ScaleSameDirection(Neg(rel), c.thrustPerMS * k);
  }

  /** A hand carried along with the body makes no thrust unless the deadzone is zero. */
  lemma HandMovingWithBodyGivesNoThrust(c: Config, hand: Hand)
    requires c.minHandSpeed != 0.0
    ensures RelativeHandVelocity(c, hand.velocity, hand.velocity) == Zero
    ensures IsNorm(0.0, RawThrust(c, RelativeHandVelocity(c, hand.velocity, hand.velocity)))
    ensures HandleHandSwim(c, Some(hand), hand.velocity, 0.0).None?
  {
    var rel := RelativeHandVelocity(c, hand.velocity, hand.velocity);
    assert rel == Zero;
    NoRelativeMotionNoThrust(c);
    SqPositive(c.minHandSpeed);
    ZeroInDeadzone(c);
  }

  lemma ZeroInDeadzone(c: Config)
    requires Sq(c.minHandSpeed) > 0.0
    ensures InDeadzone(c, Zero)
  {
  }

  lemma NoRelativeMotionNoThrust(c: Config)
    ensures RawThrust(c, Zero) == Zero
    ensures IsNorm(0.0, Zero)
  {
    assert Neg(Zero) == Zero;
    assert 0.0 * c.thrustPerMS == 0.0;
  }

  /** The thrust of one swim button: nothing unless it is pressed. */
  function StrokeForces(c: Config, s: Stroke): (forces: seq<AppliedForce>)
    requires s.hand.Some? ==> IsNorm(s.accelNorm, RawThrust(c, RelativeHandVelocity(c, s.hand.value.velocity, s.bodyVelocityAtHand)))
    ensures !s.pressed ==> forces == []
    ensures s.pressed && HandleHandSwim(c, s.hand, s.bodyVelocityAtHand, s.accelNorm).Some? ==>
              forces == [HandleHandSwim(c, s.hand, s.bodyVelocityAtHand, s.accelNorm).value]
    ensures HandleHandSwim(c, s.hand, s.bodyVelocityAtHand, s.accelNorm).None? ==> forces == []
    ensures |forces| <= 1
    ensures forall i :: 0 <= i < |forces| ==> forces[i].mode == Acceleration && forces[i].at.None?
    ensures c.maxThrust >= 0.0 ==> forall i :: 0 <= i < |forces| ==> SqrMagnitude(forces[i].vector) <= Sq(c.maxThrust)
  {
    if !s.pressed then []
    else
      match HandleHandSwim(c, s.hand, s.bodyVelocityAtHand, s.accelNorm)
      case None => []
      case Some(a) => [a]
  }

  /** Whether `StrokeForces` may be asked about this button. */
  predicate ValidStroke(c: Config, s: Stroke) {
    s.hand.Some? ==> IsNorm(s.accelNorm, RawThrust(c, RelativeHandVelocity(c, s.hand.value.velocity, s.bodyVelocityAtHand)))
  }

  /**
   One `FixedUpdate`: drag is written to the velocity, the centre-of-mass forces use
   that dragged velocity, rotation is damped, the dragged velocity is capped at
   `maxSpeed` (`draggedSpeed` is its magnitude), then the left and the right swim
   buttons add their thrust.
   */
  function FixedUpdate(c: Config, water: Option<Bounds>, body: Body, dt: real, draggedSpeed: real, left: Stroke, right: Stroke): (r: Step)
    requires IsNorm(draggedSpeed, ApplyDirectionalDrag(c, body.frame, body.velocity, dt))
    requires ValidStroke(c, left) && ValidStroke(c, right)
    ensures c.maxSpeed >= 0.0 ==> SqrMagnitude(r.velocity) <= Sq(c.maxSpeed)
    ensures c.maxSpeed >= 0.0 ==> SameDirection(r.velocity, ApplyDirectionalDrag(c, body.frame, body.velocity, dt))
    ensures draggedSpeed <= c.maxSpeed ==> r.velocity == ApplyDirectionalDrag(c, body.frame, body.velocity, dt)
    ensures draggedSpeed > c.maxSpeed ==>
              r.velocity == Scale(Normalized(ApplyDirectionalDrag(c, body.frame, body.velocity, dt), draggedSpeed), c.maxSpeed)
    ensures r.angularVelocity == ApplyAngularDamping(c, body.frame, body.angularVelocity, dt)
    ensures r.forces == ApplyBuoyancyAtPoint(c, water, Some(body.centerOfMass), ApplyDirectionalDrag(c, body.frame, body.velocity, dt))
                        + StrokeForces(c, left) + StrokeForces(c, right)
    ensures |r.forces| <= 4
  {
    var dragged := ApplyDirectionalDrag(c, body.frame, body.velocity, dt);
    var buoyancy := ApplyBuoyancyAtPoint(c, water, Some(body.centerOfMass), dragged);
    var angular := ApplyAngularDamping(c, body.frame, body.angularVelocity, dt);
    var velocity := Floater.ClampVelocity(dragged, draggedSpeed, c.maxSpeed);
    Step(velocity, angular, buoyancy + StrokeForces(c, left) + StrokeForces(c, right))
  }
}
