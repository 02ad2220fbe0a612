/**
 Swimmer.cs: breast-stroke locomotion. With both swim buttons held and the stroke
 cooldown elapsed, the reversed sum of the two hand velocities, flattened in the
 head's frame, becomes a velocity-change impulse if it is strong enough; the
 cooldown restarts only when an impulse is applied. Independently, a spinning body
 gets a linear drag.
 */
module Swimmer {
  import opened Mathf
  import opened Vectors
  import opened Engine

  datatype Config = Config(swimForce: real, dragForce: real, minForce: real, minTimeBetweenStrokes: real)

  /** The inspector defaults; the two unset fields are zero. */
  const Defaults := Config(7.0, 5.0, 0.0, 0.0)

  /** The drag is applied only while the squared angular speed exceeds this. */
  const SpinThreshold := 0.01

  /** The controller inputs read in one step. */
  datatype Hands = Hands(leftPressed: bool, rightPressed: bool, leftVelocity: Vec3, rightVelocity: Vec3)

  /** What one step leaves in `_cooldownTimer` and the `AddForce` calls it makes, in order. */
  datatype Outcome = Outcome(cooldownTimer: real, forces: seq<AppliedForce>)

  /** `-(left + right)`: the body is pushed against the hands' motion. */
  function Stroke(h: Hands): (s: Vec3)
    ensures Add(s, Add(h.leftVelocity, h.rightVelocity)) == Zero
  {
    Neg(Add(h.leftVelocity, h.rightVelocity))
  }

  /**
   The stroke with its vertical part removed: in the head's frame when a tracking
   reference is assigned, in world space otherwise.
   */
  function Flatten(head: Option<Frame>, s: Vec3): (w: Vec3)
    ensures head.None? ==> w == Vec3(s.x, 0.0, s.z)
    ensures head.Some? && Orthonormal(head.value) ==> ToLocal(head.value, w) == ToLocal(head.value, s).(y := 0.0)
  {
    if head.Some? then
      var local := ToLocal(head.value, s).(y := 0.0);
      RoundTripWhenOrthonormal(head.value, local);
      ToWorld(head.value, local)
    else Vec3(s.x, 0.0, s.z)
  }

  /** Flattening is a projection: flattening twice is flattening once. */
  lemma FlattenIdempotent(head: Option<Frame>, s: Vec3)
    requires head.Some? ==> Orthonormal(head.value)
    ensures Flatten(head, Flatten(head, s)) == Flatten(head, s)
  {
    if head.Some? {
      var w := Flatten(head, s);
      assert ToLocal(head.value, w).(y := 0.0) == ToLocal(head.value, w);
    }
  }

  /** Flattening never makes the stroke longer. */
  lemma {:induction false} FlattenShrinks(head: Option<Frame>, s: Vec3)
    requires head.Some? ==> Orthonormal(head.value)
    ensures SqrMagnitude(Flatten(head, s)) <= SqrMagnitude(s)
  {
    if head.Some? {
      var f := head.value;
      var l := ToLocal(f, s);
      var local := l.(y := 0.0);
      assert Flatten(head, s) == ToWorld(f, local);
      ToWorldSqrMagnitude(f, local);
      ToLocalSqrMagnitude(f, s);
      assert SqrMagnitude(local) <= SqrMagnitude(l) by {
        assert Sq(0.0) == 0.0;
      }
    } else {
      assert Sq(0.0) == 0.0;
    }
  }

  /** The cooldown has elapsed and both swim buttons are held. */
  predicate StrokeArmed(c: Config, timer: real, h: Hands) {
    timer > c.minTimeBetweenStrokes && h.leftPressed && h.rightPressed
  }

  /** The flattened stroke is strictly stronger than `minForce`. */
  predicate StrongEnough(c: Config, w: Vec3) {
    SqrMagnitude(w) > c.minForce * c.minForce
  }

  /** The impulse part of a step: the timer after it and the impulse, if one is applied. */
  function StrokeImpulse(c: Config, timer: real, h: Hands, head: Option<Frame>): (r: Outcome)
    ensures |r.forces| <= 1
    ensures r.forces != [] <==> StrokeArmed(c, timer, h) && StrongEnough(c, Flatten(head, Stroke(h)))
    ensures r.forces != [] ==> r.cooldownTimer == 0.0
    ensures r.forces == [] ==> r.cooldownTimer == timer
    ensures r.forces != [] ==>
              r.forces[0] == AppliedForce(Scale(Flatten(head, Stroke(h)), c.swimForce), None, VelocityChange)
  {
    if StrokeArmed(c, timer, h) then
      var w := Flatten(head, Stroke(h));
      if StrongEnough(c, w) then Outcome(0.0, [AppliedForce(Scale(w, c.swimForce), None, VelocityChange)])
      else Outcome(timer, [])
    else Outcome(timer, [])
  }

  /** The drag part of a step: `-velocity * dragForce` as an acceleration while the body spins. */
  function SpinDrag(c: Config, velocity: Vec3, angularVelocity: Vec3): (forces: seq<AppliedForce>)
    ensures forces != [] <==> SqrMagnitude(angularVelocity) > SpinThreshold
    ensures forces != [] ==> forces == [AppliedForce(Scale(Neg(velocity), c.dragForce), None, Acceleration)]
  {
    if SqrMagnitude(angularVelocity) > SpinThreshold then
      [AppliedForce(Scale(Neg(velocity), c.dragForce), None, Acceleration)]
    else []
  }

  /**
   One `FixedUpdate`: the timer advances by `dt`, a stroke impulse may be applied
   (resetting the timer), and then the spin drag may be added.
   */
  function FixedUpdate(c: Config, timer: real, h: Hands, head: Option<Frame>,
                       velocity: Vec3, angularVelocity: Vec3, dt: real): (r: Outcome)
    ensures var stroke := StrokeImpulse(c, timer + dt, h, head);
            && r.cooldownTimer == stroke.cooldownTimer
            && r.forces == stroke.forces + SpinDrag(c, velocity, angularVelocity)
    ensures |r.forces| <= 2
  {
    var stroke := StrokeImpulse(c, timer + dt, h, head);
    Outcome(stroke.cooldownTimer, stroke.forces + SpinDrag(c, velocity, angularVelocity))
  }

  /** The timer grows by `dt` every step and is reset exactly when an impulse is applied. */
  lemma TimerResetsOnlyOnStroke(c: Config, timer: real, h: Hands, head: Option<Frame>,
                                velocity: Vec3, angularVelocity: Vec3, dt: real)
    ensures var r := FixedUpdate(c, timer, h, head, velocity, angularVelocity, dt);
            var impulse := StrokeImpulse(c, timer + dt, h, head).forces != [];
            && (impulse ==> r.cooldownTimer == 0.0 && r.forces[0].mode == VelocityChange)
            && (!impulse ==> r.cooldownTimer == timer + dt)
  {
  }

  /** Without a tracking reference the impulse is horizontal in world space. */
  lemma ImpulseIsLevelWithoutHead(c: Config, timer: real, h: Hands)
    requires StrokeImpulse(c, timer, h, None).forces != []
    ensures StrokeImpulse(c, timer, h, None).forces[0].vector.y == 0.0
  {
    var w := Flatten(None, Stroke(h));
    assert w.y == 0.0;
    assert Scale(w, c.swimForce).y == 0.0 * c.swimForce;
  }

  /** With a tracking reference the impulse has no part along the head's up axis. */
  lemma ImpulseIsLevelInHeadFrame(c: Config, timer: real, h: Hands, head: Frame)
    requires Orthonormal(head)
    requires StrokeImpulse(c, timer, h, Some(head)).forces != []
    ensures Dot(StrokeImpulse(c, timer, h, Some(head)).forces[0].vector, head.up) == 0.0
  {
    var w := Flatten(Some(head), Stroke(h));
    assert Dot(w, head.up) == 0.0;
    DotScale(w, head.up, c.swimForce);
  }

  lemma DotScale(a: Vec3, b: Vec3, k: real)
    ensures Dot(Scale(a, k), b) == k * Dot(a, b)
  {
  }

  /** Without a tracking reference the impulse is the reversed horizontal hand motion times `swimForce`. */
  lemma ImpulseOpposesHands(c: Config, timer: real, h: Hands)
    requires c.swimForce >= 0.0
    requires StrokeImpulse(c, timer, h, None).forces != []
    ensures var sum := Add(h.leftVelocity, h.rightVelocity);
            SameDirection(StrokeImpulse(c, timer, h, None).forces[0].vector, Vec3(-sum.x, 0.0, -sum.z))
  {
    var sum := Add(h.leftVelocity, h.rightVelocity);
    assert Flatten(None, Stroke(h)) == Vec3(-sum.x, 0.0, -sum.z);
    ScaleSameDirection(Vec3(-sum.x, 0.0, -sum.z), c.swimForce);
  }

  /** Released buttons never produce an impulse, and the timer keeps running. */
  lemma NoStrokeWithoutBothButtons(c: Config, timer: real, h: Hands, head: Option<Frame>,
                                   velocity: Vec3, angularVelocity: Vec3, dt: real)
    requires !h.leftPressed || !h.rightPressed
    ensures FixedUpdate(c, timer, h, head, velocity, angularVelocity, dt)
         == Outcome(timer + dt, SpinDrag(c, velocity, angularVelocity))
  {
  }

  /**
   Right after an impulse the timer is zero, so when `dt` does not exceed
   `minTimeBetweenStrokes` the very next step cannot stroke again.
   */
  lemma CooldownSpacesStrokes(c: Config, timer: real, h: Hands, h2: Hands, head: Option<Frame>,
                              velocity: Vec3, angularVelocity: Vec3, dt: real)
    requires StrokeImpulse(c, timer + dt, h, head).forces != []
    requires dt <= c.minTimeBetweenStrokes
    ensures var r := FixedUpdate(c, timer, h, head, velocity, angularVelocity, dt);
            StrokeImpulse(c, r.cooldownTimer + dt, h2, head).forces == []
  {
  }

  /** With a non-negative drag force the spin drag points against the body's motion. */
  lemma SpinDragOpposesMotion(c: Config, velocity: Vec3, angularVelocity: Vec3)
    requires c.dragForce >= 0.0
    requires SpinDrag(c, velocity, angularVelocity) != []
    ensures SameDirection(SpinDrag(c, velocity, angularVelocity)[0].vector, Neg(velocity))
  {
    ScaleSameDirection(Neg(velocity), c.dragForce);
  }
}
