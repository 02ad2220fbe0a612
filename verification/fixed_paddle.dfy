/**
 FixedPaddle.cs: a grabbable paddle that pushes the boat while its blade tip is
 below a flat water level. The push is opposite to the blade's velocity; a blade
 that is barely moving also drags against the boat's own motion at the tip.
 */
module FixedPaddle {
  import opened Mathf
  import opened Vectors
  import opened Engine

  datatype Config = Config(waterLevel: real, strokeForce: real, dragForce: real)

  /** The inspector defaults. */
  const Defaults := Config(0.0, 200.0, 50.0)

  /** Below this blade speed the counter-drag is added. */
  const SlowBladeSpeed := 0.05

  /** The component's private fields. */
  datatype State = State(isGrabbed: bool, lastBladePos: Vec3)

  const Initial := State(false, Zero)

  /** What one step leaves behind and the `AddForceAtPosition` calls it makes, in order. */
  datatype Outcome = Outcome(state: State, forces: seq<AppliedForce>)

  /** `OnGrab`: grabbed, and the blade's current position becomes the reference. */
  function OnGrab(s: State, blade: Vec3): (r: State)
    ensures r.isGrabbed && r.lastBladePos == blade
  {
    State(true, blade)
  }

  /** `OnRelease`: only the flag changes. */
  function OnRelease(s: State): (r: State)
    ensures !r.isGrabbed && r.lastBladePos == s.lastBladePos
  {
    s.(isGrabbed := false)
  }

  /** The forces of a blade under water: propulsion, then the counter-drag when the blade is slow. */
  function InWaterForces(c: Config, blade: Vec3, bladeVelocity: Vec3, pointVelocity: Vec3): (forces: seq<AppliedForce>)
    ensures 1 <= |forces| <= 2
    ensures |forces| == 2 <==> MagnitudeBelow(bladeVelocity, SlowBladeSpeed)
    ensures forall i :: 0 <= i < |forces| ==> forces[i].at == Some(blade) && forces[i].mode == Force
    ensures forces[0].vector == Scale(Neg(bladeVelocity), c.strokeForce)
    ensures |forces| == 2 ==> forces[1].vector == Scale(Neg(pointVelocity), c.dragForce)
  {
    var propulsion := AppliedForce(Scale(Neg(bladeVelocity), c.strokeForce), Some(blade), Force);
    if MagnitudeBelow(bladeVelocity, SlowBladeSpeed) then
      [propulsion, AppliedForce(Scale(Neg(pointVelocity), c.dragForce), Some(blade), Force)]
    else [propulsion]
  }

  /**
   One `FixedUpdate`. Released, or without a boat body, nothing happens at all.
   Otherwise the blade position is remembered and, while the blade is strictly
   below the water level, its forces are applied. `pointVelocity` is the boat's
   velocity at the blade tip (`GetPointVelocity`).
   */
  function FixedUpdate(c: Config, s: State, hasBoat: bool, blade: Vec3, pointVelocity: Vec3, dt: real): (r: Outcome)
    requires dt > 0.0
    ensures !s.isGrabbed || !hasBoat ==> r == Outcome(s, [])
    ensures s.isGrabbed && hasBoat ==> r.state == State(true, blade)
    ensures r.forces != [] <==> s.isGrabbed && hasBoat && blade.y < c.waterLevel
    ensures r.forces != [] ==>
              r.forces == InWaterForces(c, blade, Velocity(s.lastBladePos, blade, dt), pointVelocity)
  {
    if !s.isGrabbed || !hasBoat then Outcome(s, [])
    else
      var v := Velocity(s.lastBladePos, blade, dt);
      var t := s.(lastBladePos := blade);
      if blade.y < c.waterLevel then Outcome(t, InWaterForces(c, blade, v, pointVelocity))
      else Outcome(t, [])
  }

  /** With a non-negative stroke force the propulsion points against the blade's displacement. */
  lemma PropulsionOpposesStroke(c: Config, s: State, hasBoat: bool, blade: Vec3, pointVelocity: Vec3, dt: real)
    requires dt > 0.0 && c.strokeForce >= 0.0
    requires FixedUpdate(c, s, hasBoat, blade, pointVelocity, dt).forces != []
    ensures SameDirection(FixedUpdate(c, s, hasBoat, blade, pointVelocity, dt).forces[0].vector,
                          Sub(s.lastBladePos, blade))
  {
    var r := FixedUpdate(c, s, hasBoat, blade, pointVelocity, dt);
    assert r.forces[0].vector == Scale(Neg(Velocity(s.lastBladePos, blade, dt)), c.strokeForce);
    QuotientDirection(Sub(blade, s.lastBladePos), dt, c.strokeForce);
    assert Neg(Sub(blade, s.lastBladePos)) == Sub(s.lastBladePos, blade);
  }

  /** Reversing `d / dt` and scaling it by `k >= 0` points along `-d`. */
  lemma QuotientDirection(d: Vec3, dt: real, k: real)
    requires dt > 0.0 && k >= 0.0
    ensures SameDirection(Scale(Neg(Div(d, dt)), k), Neg(d))
  {
    var u := Scale(Neg(d), 1.0 / dt);
    NegatedQuotient(d, dt);
    assert Scale(Neg(Div(d, dt)), k) == Scale(u, k);
    ScaleOfScale(Neg(d), 1.0 / dt, k);
    NonNegativeProduct(1.0 / dt, k);
    ScaleSameDirection(Neg(d), (1.0 / dt) * k);
  }

  lemma NegatedQuotient(d: Vec3, dt: real)
    requires dt > 0.0
    ensures Neg(Div(d, dt)) == Scale(Neg(d), 1.0 / dt)
  {
    NegatedQuotientScalar(d.x, dt);
    NegatedQuotientScalar(d.y, dt);
    NegatedQuotientScalar(d.z, dt);
  }

  lemma NegatedQuotientScalar(a: real, dt: real)
    requires dt > 0.0
    ensures -(a / dt) == -a * (1.0 / dt)
  {
  }

  /** With a non-negative drag force the counter-drag points against the boat's motion at the tip. */
  lemma CounterDragOpposesBoatMotion(c: Config, s: State, hasBoat: bool, blade: Vec3, pointVelocity: Vec3, dt: real)
    requires dt > 0.0 && c.dragForce >= 0.0
    requires |FixedUpdate(c, s, hasBoat, blade, pointVelocity, dt).forces| == 2
    ensures SameDirection(FixedUpdate(c, s, hasBoat, blade, pointVelocity, dt).forces[1].vector, Neg(pointVelocity))
  {
    ScaleSameDirection(Neg(pointVelocity), c.dragForce);
  }

  /**
   Right after a grab a blade that has not moved has zero velocity: under water it
   gets no propulsion and only the counter-drag.
   */
  lemma {:induction false} StillBladeAfterGrab(c: Config, s: State, blade: Vec3, pointVelocity: Vec3, dt: real)
    requires dt > 0.0 && blade.y < c.waterLevel
    ensures var forces := FixedUpdate(c, OnGrab(s, blade), true, blade, pointVelocity, dt).forces;
            && |forces| == 2
            && forces[0].vector == Zero
            && forces[1].vector == Scale(Neg(pointVelocity), c.dragForce)
  {
    var v := Velocity(blade, blade, dt);
    assert v == Zero by {
      NoDisplacementNoVelocity(blade, dt);
    }
    var forces := FixedUpdate(c, OnGrab(s, blade), true, blade, pointVelocity, dt).forces;
    assert forces == InWaterForces(c, blade, Zero, pointVelocity);
    ZeroIsSlow();
    ReversedZero(v, c.strokeForce);
  }

  lemma ZeroIsSlow()
    ensures MagnitudeBelow(Zero, SlowBladeSpeed)
  {
  }

  lemma ReversedZero(v: Vec3, k: real)
    requires v == Zero
    ensures Scale(Neg(v), k) == Zero
  {
  }

  /** After a release every step is a no-op, whatever the blade does. */
  lemma ReleasedIsInert(c: Config, s: State, hasBoat: bool, blade: Vec3, pointVelocity: Vec3, dt: real)
    requires dt > 0.0
    ensures FixedUpdate(c, OnRelease(s), hasBoat, blade, pointVelocity, dt) == Outcome(OnRelease(s), [])
  {
  }
}
