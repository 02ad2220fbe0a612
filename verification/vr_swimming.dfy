/**
 VrSwimming.cs (`VRSwimmingRoot`): a body that knows it is in water by counting
 the water volumes it overlaps. Entering the first volume caches the body's
 damping and switches to water damping; leaving the last restores the cache.
 While in water each step adds a passive buoyancy acceleration, a stroke
 acceleration opposite the smoothed hand velocities, and an optional speed cap.
 */
module VrSwimming {
  import opened Mathf
  import opened Vectors
  import opened Engine

  datatype Config = Config(
    waterTag: string,
    requireTrigger: bool,
    buoyancyAccel: real,
    waterLinearDamping: real,
    waterAngularDamping: real,
    strokeAccelPerMS: real,
    maxSwimSpeed: real,
    handVelSmoothing: real,
    disableStickLocomotion: bool,
    hasMovementComponent: bool)

  /** The inspector defaults, with a movement component assigned. */
  const Defaults := Config("Water", true, 0.75, 4.0, 2.0, 2.25, 3.5, 0.2, true, true)

  /** A rigid body's linear and angular damping. */
  datatype Damping = Damping(linear: real, angular: real)

  /**
   The component's state: `inWater`, the overlap counter, the damping cached on
   entry, the body's current damping, whether stick locomotion is enabled, and the
   per-hand previous position and smoothed velocity.
   */
  datatype Root = Root(
    inWater: bool,
    overlapCount: int,
    saved: Damping,
    body: Damping,
    movementEnabled: bool,
    prevL: Vec3, velL: Vec3,
    prevR: Vec3, velR: Vec3)

  /** Whether the counter and the flag agree: in water exactly while some volume overlaps. */
  predicate Valid(s: Root) {
    s.overlapCount >= 0 && (s.inWater <==> s.overlapCount > 0)
  }

  /** `Start`: cache the body's damping and seed each assigned hand's previous position. */
  function Start(body: Damping, movementEnabled: bool, leftHand: Option<Vec3>, rightHand: Option<Vec3>): (s: Root)
    ensures Valid(s) && !s.inWater && s.overlapCount == 0
    ensures s.saved == body && s.body == body
    ensures leftHand.Some? ==> s.prevL == leftHand.value
    ensures rightHand.Some? ==> s.prevR == rightHand.value
  {
    Root(false, 0, body, body, movementEnabled,
         if leftHand.Some? then leftHand.value else Zero, Zero,
         if rightHand.Some? then rightHand.value else Zero, Zero)
  }

  /** `PassesWaterFilter`: a trigger when triggers are required, and the water tag unless it is empty. */
  predicate PassesWaterFilter(c: Config, other: Collider) {
    && !(c.requireTrigger && !other.isTrigger)
    && (c.waterTag == "" || other.tag == c.waterTag)
  }

  /** The filter's two ways to reject a collider, and its acceptance of any tag when none is set. */
  lemma FilterCases(c: Config, other: Collider)
    ensures c.requireTrigger && !other.isTrigger ==> !PassesWaterFilter(c, other)
    ensures c.waterTag != "" && other.tag != c.waterTag ==> !PassesWaterFilter(c, other)
    ensures c.waterTag == "" ==> (PassesWaterFilter(c, other) <==> (other.isTrigger || !c.requireTrigger))
  {
  }

  /** `EnterWater`: cache the current damping, switch to water damping, and disable stick locomotion. */
  function EnterWater(c: Config, s: Root): (t: Root)
    ensures t.inWater && t.saved == s.body
    ensures t.body == Damping(c.waterLinearDamping, c.waterAngularDamping)
    ensures t.movementEnabled == if c.disableStickLocomotion && c.hasMovementComponent then false else s.movementEnabled
    ensures t.overlapCount == s.overlapCount
  {
    s.(inWater := true, saved := s.body,
       body := Damping(c.waterLinearDamping, c.waterAngularDamping),
       movementEnabled := if c.disableStickLocomotion && c.hasMovementComponent then false else s.movementEnabled)
  }

  /** `ExitWater`: restore the cached damping and re-enable stick locomotion. */
  function ExitWater(c: Config, s: Root): (t: Root)
    ensures !t.inWater && t.body == s.saved && t.saved == s.saved
    ensures t.movementEnabled == if c.disableStickLocomotion && c.hasMovementComponent then true else s.movementEnabled
    ensures t.overlapCount == s.overlapCount
  {
    s.(inWater := false, body := s.saved,
       movementEnabled := if c.disableStickLocomotion && c.hasMovementComponent then true else s.movementEnabled)
  }

  /** `RelayTriggerEnter`: count an accepted volume, entering the water on the first. */
  function RelayTriggerEnter(c: Config, s: Root, other: Collider): (t: Root)
    ensures !PassesWaterFilter(c, other) ==> t == s
    ensures PassesWaterFilter(c, other) ==> t.overlapCount == s.overlapCount + 1 && t.inWater
    ensures PassesWaterFilter(c, other) && s.overlapCount >= 0 ==> t.overlapCount >= 1
    ensures PassesWaterFilter(c, other) && !s.inWater ==> t == EnterWater(c, s.(overlapCount := s.overlapCount + 1))
    ensures PassesWaterFilter(c, other) && s.inWater ==> t == s.(overlapCount := s.overlapCount + 1)
    ensures s.inWater ==> t.saved == s.saved && t.body == s.body
    ensures Valid(s) ==> Valid(t)
  {
    if !PassesWaterFilter(c, other) then s
    else
      var counted := s.(overlapCount := s.overlapCount + 1);
      if !s.inWater then EnterWater(c, counted) else counted
  }

  /** `RelayTriggerExit`: uncount an accepted volume (never below zero), leaving the water at zero. */
  function RelayTriggerExit(c: Config, s: Root, other: Collider): (t: Root)
    ensures !PassesWaterFilter(c, other) ==> t == s
    ensures PassesWaterFilter(c, other) ==> t.overlapCount == MaxInt(0, s.overlapCount - 1)
    ensures PassesWaterFilter(c, other) && s.inWater && s.overlapCount <= 1 ==> t == ExitWater(c, s.(overlapCount := 0))
    ensures PassesWaterFilter(c, other) && !(s.inWater && s.overlapCount <= 1) ==>
              t == s.(overlapCount := MaxInt(0, s.overlapCount - 1))
    ensures t.overlapCount >= 0 || t == s
    ensures s.inWater && !t.inWater ==> PassesWaterFilter(c, other) && t.overlapCount == 0
    ensures !s.inWater ==> !t.inWater
    ensures t.saved == s.saved
    ensures Valid(s) ==> Valid(t)
  {
    if !PassesWaterFilter(c, other) then s
    else
      var counted := s.(overlapCount := MaxInt(0, s.overlapCount - 1));
      if s.inWater && counted.overlapCount == 0 then ExitWater(c, counted) else counted
  }

  datatype Event = Enter(other: Collider) | Exit(other: Collider)

  function Apply(c: Config, s: Root, e: Event): Root {
    match e
    case Enter(other) => RelayTriggerEnter(c, s, other)
    case Exit(other) => RelayTriggerExit(c, s, other)
  }

  /** The state after a sequence of trigger callbacks, the last one applied last. */
  function Run(c: Config, s: Root, events: seq<Event>): Root
    decreases |events|
  {
    if events == [] then s else Apply(c, Run(c, s, events[..|events| - 1]), events[|events| - 1])
  }

  /** +1 per accepted enter, -1 per accepted exit. */
  function Net(c: Config, events: seq<Event>): int
    decreases |events|
  {
    if events == [] then 0
    else
      var e := events[|events| - 1];
      Net(c, events[..|events| - 1]) + (if !PassesWaterFilter(c, e.other) then 0 else if e.Enter? then 1 else -1)
  }

  /** Every sequence of callbacks keeps the counter non-negative and in step with `inWater`. */
  lemma {:induction false} RunValid(c: Config, s: Root, events: seq<Event>)
    requires Valid(s)
    ensures Valid(Run(c, s, events))
    decreases |events|
  {
    if events != [] {
      RunValid(c, s, events[..|events| - 1]);
    }
  }

  /**
   As long as no accepted exit meets an empty counter (every prefix keeps the net
   count non-negative), the counter is the starting count plus the net count.
   */
  lemma {:induction false} RunCounts(c: Config, s: Root, events: seq<Event>)
    requires s.overlapCount >= 0
    requires forall k :: 0 <= k <= |events| ==> s.overlapCount + Net(c, events[..k]) >= 0
    ensures Run(c, s, events).overlapCount == s.overlapCount + Net(c, events)
    decreases |events|
  {
    if events != [] {
      var init := events[..|events| - 1];
      forall k | 0 <= k <= |init|
        ensures s.overlapCount + Net(c, init[..k]) >= 0
      {
        assert init[..k] == events[..k];
      }
      RunCounts(c, s, init);
      assert events[..|events|] == events;
    }
  }

  /** Two overlapping volumes: leaving one of them keeps the body in water. */
  lemma OverlappingVolumes(c: Config, s: Root, a: Collider, b: Collider)
    requires Valid(s) && !s.inWater
    requires PassesWaterFilter(c, a) && PassesWaterFilter(c, b)
    ensures var t := RelayTriggerExit(c, RelayTriggerEnter(c, RelayTriggerEnter(c, s, a), b), a);
            t.overlapCount == 1 && t.inWater
  {
  }

  /** Entering and leaving one volume restores the damping the body had before. */
  lemma EnterExitRestoresDamping(c: Config, s: Root, a: Collider)
    requires Valid(s) && !s.inWater
    requires PassesWaterFilter(c, a)
    ensures var t := RelayTriggerExit(c, RelayTriggerEnter(c, s, a), a);
            !t.inWater && t.body == s.body && t.overlapCount == 0
  {
  }

  /** Entering a second volume does not overwrite the damping cached on the first. */
  lemma NestedEnterKeepsCache(c: Config, s: Root, a: Collider, b: Collider)
    requires Valid(s) && !s.inWater
    requires PassesWaterFilter(c, a)
    ensures RelayTriggerEnter(c, RelayTriggerEnter(c, s, a), b).saved == s.body
  {
  }

  /** The time step the hand velocity estimate divides by: `Mathf.Max(dt, 1e-5)`. */
  function SafeDt(dt: real): (d: real)
    ensures d >= 0.00001 && d >= dt
    ensures d == dt || d == 0.00001
  {
    Max(dt, 0.00001)
  }

  /**
   One hand's velocity update: the instantaneous velocity is the displacement over
   the safe time step, and the smoothed velocity is `Lerp(inst, previous, smoothing)`.
   */
  function SmoothHand(c: Config, prev: Vec3, position: Vec3, vel: Vec3, dt: real): (r: Vec3)
    ensures c.handVelSmoothing <= 0.0 ==> Scale(r, SafeDt(dt)) == Sub(position, prev)
    ensures c.handVelSmoothing >= 1.0 ==> r == vel
    ensures var inst := Velocity(prev, position, SafeDt(dt));
            0.0 <= c.handVelSmoothing <= 1.0 ==> r == Add(inst, Scale(Sub(vel, inst), c.handVelSmoothing))
  {
    var inst := Velocity(prev, position, SafeDt(dt));
    Vectors.Lerp(inst, vel, c.handVelSmoothing)
  }

  /** The smoothed velocity lies, per component, between the instantaneous and the previous one. */
  lemma SmoothedBetween(c: Config, prev: Vec3, position: Vec3, vel: Vec3, dt: real)
    ensures var inst := Div(Sub(position, prev), SafeDt(dt));
            var r := SmoothHand(c, prev, position, vel, dt);
            Min(inst.x, vel.x) <= r.x <= Max(inst.x, vel.x)
            && Min(inst.y, vel.y) <= r.y <= Max(inst.y, vel.y)
            && Min(inst.z, vel.z) <= r.z <= Max(inst.z, vel.z)
  {
  }

  /** A hand that did not move keeps only the fraction `handVelSmoothing` of its previous velocity. */
  lemma StillHandDecays(c: Config, p: Vec3, vel: Vec3, dt: real)
    requires 0.0 <= c.handVelSmoothing <= 1.0
    ensures SmoothHand(c, p, p, vel, dt) == Scale(vel, c.handVelSmoothing)
  {
    NoDisplacementNoVelocity(p, SafeDt(dt));
    assert SmoothHand(c, p, p, vel, dt) == Vectors.Lerp(Zero, vel, c.handVelSmoothing);
    LerpFromZero(vel, c.handVelSmoothing);
  }

  /** The hand part of a step: each assigned hand updates its smoothed velocity and previous position. */
  function UpdateHands(c: Config, s: Root, leftHand: Option<Vec3>, rightHand: Option<Vec3>, dt: real): (t: Root)
    ensures leftHand.None? ==> t.prevL == s.prevL && t.velL == s.velL
    ensures leftHand.Some? ==> t.prevL == leftHand.value && t.velL == SmoothHand(c, s.prevL, leftHand.value, s.velL, dt)
    ensures rightHand.None? ==> t.prevR == s.prevR && t.velR == s.velR
    ensures rightHand.Some? ==> t.prevR == rightHand.value && t.velR == SmoothHand(c, s.prevR, rightHand.value, s.velR, dt)
    ensures t.inWater == s.inWater && t.overlapCount == s.overlapCount && t.saved == s.saved && t.body == s.body
  {
    var afterLeft :=
      if leftHand.Some? then s.(velL := SmoothHand(c, s.prevL, leftHand.value, s.velL, dt), prevL := leftHand.value) else s;
    if rightHand.Some? then
      afterLeft.(velR := SmoothHand(c, afterLeft.prevR, rightHand.value, afterLeft.velR, dt), prevR := rightHand.value)
    else afterLeft
  }

  /**
   The optional speed cap: with `maxSwimSpeed > 0` a velocity of magnitude `m`
   above it is scaled by `maxSwimSpeed / m`; a cap of zero or below is off.
   */
  function CapSpeed(v: Vec3, m: real, maxSwimSpeed: real): (r: Vec3)
    requires IsNorm(m, v)
    ensures maxSwimSpeed <= 0.0 || m <= maxSwimSpeed ==> r == v
    ensures maxSwimSpeed > 0.0 ==> SqrMagnitude(r) <= Sq(maxSwimSpeed)
    ensures maxSwimSpeed > 0.0 && m > maxSwimSpeed ==> SqrMagnitude(r) == Sq(maxSwimSpeed)
    ensures SameDirection(r, v)
  {
    if maxSwimSpeed > 0.0 && m > maxSwimSpeed then
      CappedMagnitude(v, m, maxSwimSpeed);
      ScaleSameDirection(v, maxSwimSpeed / m);
      Scale(v, maxSwimSpeed / m)
    else
      Uncapped(v, m, maxSwimSpeed);
      v
  }

  lemma Uncapped(v: Vec3, m: real, cap: real)
    requires IsNorm(m, v)
    ensures m <= cap ==> SqrMagnitude(v) <= Sq(cap)
    ensures SameDirection(v, v)
  {
    if m <= cap { SqMonotone(m, cap); }
    ScaleSameDirection(v, 1.0);
    assert Scale(v, 1.0) == v;
  }

  lemma CappedMagnitude(v: Vec3, m: real, cap: real)
    requires IsNorm(m, v) && m > cap > 0.0
    ensures SqrMagnitude(Scale(v, cap / m)) == Sq(cap)
  {
    var k := cap / m;
    assert m * k == cap;
    ScaleSqrMagnitude(v, k);
    SqProduct(m, k);
  }

  /** What one step leaves behind: the new state, the body's velocity, and the submitted accelerations. */
  datatype Tick = Tick(state: Root, velocity: Vec3, forces: seq<AppliedForce>)

  /**
   One `FixedUpdate`: update the hands; out of water nothing else happens. In water:
   buoyancy, then the stroke while the swim button is held, then the speed cap on
   the current velocity (whose magnitude is `speed`).
   */
  function FixedUpdate(c: Config, s: Root, leftHand: Option<Vec3>, rightHand: Option<Vec3>, swimPressed: bool,
                       velocity: Vec3, speed: real, dt: real): (r: Tick)
    requires IsNorm(speed, velocity)
    ensures r.state == UpdateHands(c, s, leftHand, rightHand, dt)
    ensures !s.inWater ==> r.forces == [] && r.velocity == velocity
    ensures s.inWater ==> |r.forces| == (if swimPressed then 2 else 1)
    ensures s.inWater ==> r.forces[0] == AppliedForce(Vec3(0.0, c.buoyancyAccel, 0.0), None, Acceleration)
    ensures s.inWater && swimPressed ==>
              r.forces[1] == AppliedForce(Scale(Sub(Neg(r.state.velL), r.state.velR), c.strokeAccelPerMS), None, Acceleration)
    ensures s.inWater && c.maxSwimSpeed > 0.0 ==> SqrMagnitude(r.velocity) <= Sq(c.maxSwimSpeed)
    ensures s.inWater && (c.maxSwimSpeed <= 0.0 || speed <= c.maxSwimSpeed) ==> r.velocity == velocity
    ensures s.inWater && c.maxSwimSpeed > 0.0 && speed > c.maxSwimSpeed ==>
              r.velocity == Scale(velocity, c.maxSwimSpeed / speed)
    ensures SameDirection(r.velocity, velocity)
  {
    var t := UpdateHands(c, s, leftHand, rightHand, dt);
    if !s.inWater then
      Uncapped(velocity, speed, speed);
      Tick(t, velocity, [])
    else
      // Vector3.up * buoyancyAccel
      var buoyancy := AppliedForce(Vec3(0.0, c.buoyancyAccel, 0.0), None, Acceleration);
      var stroke := AppliedForce(Scale(Sub(Neg(t.velL), t.velR), c.strokeAccelPerMS), None, Acceleration);
      Tick(t, CapSpeed(velocity, speed, c.maxSwimSpeed), if swimPressed then [buoyancy, stroke] else [buoyancy])
  }
}
