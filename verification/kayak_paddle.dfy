/**
 KayakPaddle.cs: a paddle tip tracked every frame. Its velocity is estimated from
 the tip's displacement, smoothed, and, while the tip is inside the water box and
 moving fast enough, turned into a force on the boat: in the boat's frame the
 force is the reversed local x velocity, no vertical part, and a reduced reversed
 local z velocity; it is scaled and applied at the tip.
 */
module KayakPaddle {
  import opened Mathf
  import opened Vectors
  import opened Engine
  import opened WaterVolume
  import Floater

  datatype Config = Config(
    paddleForceMultiplier: real,
    minMovementThreshold: real,
    sidewaysFactor: real,
    velocitySmoothing: real)

  /** The inspector defaults. */
  const Defaults := Config(15.0, 0.05, 0.2, 10.0)

  /** The component's private fields. */
  datatype State = State(lastTipPos: Vec3, smoothedVelocity: Vec3)

  /** Fields before `Start`: both zero. */
  const Initial := State(Zero, Zero)

  /** What one `Update` leaves behind and what it hands to `BoatController.ApplyPaddleForce`. */
  datatype Outcome = Outcome(state: State, force: Option<AppliedForce>)

  /** `Start`: remember the tip's position when the tip is assigned. */
  function Start(s: State, tip: Option<Vec3>): (r: State)
    ensures tip.None? ==> r == s
    ensures tip.Some? ==> r.lastTipPos == tip.value && r.smoothedVelocity == s.smoothedVelocity
  {
    if tip.Some? then s.(lastTipPos := tip.value) else s
  }

  /** Smoothing moves toward the raw velocity by `dt * velocitySmoothing`, clamped to [0, 1]. */
  function Smooth(c: Config, smoothed: Vec3, raw: Vec3, dt: real): (r: Vec3)
    ensures dt * c.velocitySmoothing >= 1.0 ==> r == raw
    ensures dt * c.velocitySmoothing <= 0.0 ==> r == smoothed
    ensures Min(smoothed.x, raw.x) <= r.x <= Max(smoothed.x, raw.x)
    ensures Min(smoothed.y, raw.y) <= r.y <= Max(smoothed.y, raw.y)
    ensures Min(smoothed.z, raw.z) <= r.z <= Max(smoothed.z, raw.z)
    ensures 0.0 <= dt * c.velocitySmoothing <= 1.0 ==>
              r == Add(smoothed, Scale(Sub(raw, smoothed), dt * c.velocitySmoothing))
  {
    Vectors.Lerp(smoothed, raw, dt * c.velocitySmoothing)
  }

  /** The force in the boat's frame, before scaling: reversed local x, no y, reversed and reduced local z. */
  function LocalForce(c: Config, localVelocity: Vec3): (f: Vec3)
    ensures f.y == 0.0
    ensures f.x * localVelocity.x <= 0.0
    ensures c.sidewaysFactor >= 0.0 ==> f.z * localVelocity.z <= 0.0
  {
    ReducedOpposes(localVelocity.z, c.sidewaysFactor);
    Vec3(-localVelocity.x, 0.0, -localVelocity.z * c.sidewaysFactor)
  }

  lemma ReducedOpposes(z: real, k: real)
    ensures k >= 0.0 ==> (-z * k) * z <= 0.0
  {
    if k >= 0.0 {
      NonNegativeProduct(z * z, k);
      assert (-z * k) * z == -(z * z * k);
    }
  }

  /** The world-space force for a smoothed tip velocity `v` and boat rotation `boat`. */
  function PaddleForce(c: Config, boat: Frame, v: Vec3): (force: Vec3)
    ensures Orthonormal(boat) ==> ToLocal(boat, force) == Scale(LocalForce(c, ToLocal(boat, v)), c.paddleForceMultiplier)
  {
    var local := LocalForce(c, ToLocal(boat, v));
    ToWorldScale(boat, local, c.paddleForceMultiplier);
    RoundTripWhenOrthonormal(boat, Scale(local, c.paddleForceMultiplier));
    Scale(ToWorld(boat, local), c.paddleForceMultiplier)
  }

  /** The tip is in the water and the smoothed speed is strictly above the threshold. */
  predicate Paddling(c: Config, water: Bounds, tip: Vec3, smoothed: Vec3) {
    Contains(water, tip) && MagnitudeExceeds(smoothed, c.minMovementThreshold)
  }

  /**
   One `Update`. With the tip, the boat or the water unassigned nothing changes.
   Otherwise the tip position is remembered, the velocity is smoothed, and while
   paddling a force is applied at the tip in `ForceMode.Force`.
   */
  function Update(c: Config, s: State, tip: Option<Vec3>, boat: Option<Frame>, water: Option<Bounds>, dt: real): (r: Outcome)
    requires dt > 0.0
    ensures tip.None? || boat.None? || water.None? ==> r == Outcome(s, None)
    ensures tip.Some? && boat.Some? && water.Some? ==>
              && r.state.lastTipPos == tip.value
              && r.state.smoothedVelocity == Smooth(c, s.smoothedVelocity, Velocity(s.lastTipPos, tip.value, dt), dt)
              && (r.force.Some? <==> Paddling(c, water.value, tip.value, r.state.smoothedVelocity))
    ensures r.force.Some? ==>
              && r.force.value.at == tip && r.force.value.mode == Force
              && r.force.value.vector == PaddleForce(c, boat.value, r.state.smoothedVelocity)
  {
    if tip.None? || boat.None? || water.None? then Outcome(s, None)
    else
      var raw := Velocity(s.lastTipPos, tip.value, dt);
      var smoothed := Smooth(c, s.smoothedVelocity, raw, dt);
      var t := State(tip.value, smoothed);
      if Paddling(c, water.value, tip.value, smoothed) then
        Outcome(t, Some(AppliedForce(PaddleForce(c, boat.value, smoothed), tip, Force)))
      else Outcome(t, None)
  }

  /** In the boat's frame the paddle force has no vertical part. */
  lemma ForceIsLevelInBoatFrame(c: Config, boat: Frame, v: Vec3)
    requires Orthonormal(boat)
    ensures Dot(PaddleForce(c, boat, v), boat.up) == 0.0
  {
    var l := LocalForce(c, ToLocal(boat, v));
    assert ToLocal(boat, PaddleForce(c, boat, v)).y == l.y * c.paddleForceMultiplier;
  }

  /**
   Pulling the tip backward along the boat's local x pushes the boat forward along
   it, and the other way round.
   */
  lemma ForceOpposesStroke(c: Config, boat: Frame, v: Vec3)
    requires Orthonormal(boat) && c.paddleForceMultiplier > 0.0
    ensures Dot(v, boat.right) < 0.0 ==> Dot(PaddleForce(c, boat, v), boat.right) > 0.0
    ensures Dot(v, boat.right) > 0.0 ==> Dot(PaddleForce(c, boat, v), boat.right) < 0.0
  {
    var lx := Dot(v, boat.right);
    assert Dot(PaddleForce(c, boat, v), boat.right) == -lx * c.paddleForceMultiplier;
    ProductSign(lx, c.paddleForceMultiplier);
  }

  lemma ProductSign(a: real, k: real)
    requires k > 0.0
    ensures a < 0.0 ==> -a * k > 0.0
    ensures a > 0.0 ==> -a * k < 0.0
  {
  }

  /**
   With a sideways factor in [-1, 1] the force is at most `paddleForceMultiplier`
   times the smoothed tip speed.
   */
  lemma {:induction false} ForceBounded(c: Config, boat: Frame, v: Vec3)
    requires Orthonormal(boat)
    requires -1.0 <= c.sidewaysFactor <= 1.0
    ensures SqrMagnitude(PaddleForce(c, boat, v)) <= Sq(c.paddleForceMultiplier) * SqrMagnitude(v)
  {
    var l := ToLocal(boat, v);
    var local := LocalForce(c, l);
    var m := c.paddleForceMultiplier;
    assert PaddleForce(c, boat, v) == Scale(ToWorld(boat, local), m);
    ScaleSqrMagnitude(ToWorld(boat, local), m);
    ToWorldSqrMagnitude(boat, local);
    ToLocalSqrMagnitude(boat, v);
    LocalForceShrinks(c, l);
    NonNegativeProduct(Sq(m), SqrMagnitude(l) - SqrMagnitude(local));
  }

  lemma LocalForceShrinks(c: Config, l: Vec3)
    requires -1.0 <= c.sidewaysFactor <= 1.0
    ensures SqrMagnitude(LocalForce(c, l)) <= SqrMagnitude(l)
  {
    Floater.FactorShrinksSquare(-l.z, c.sidewaysFactor);
    assert Sq(-l.x) == Sq(l.x);
    assert Sq(-l.z) == Sq(l.z);
  }

  /**
   A tip that did not move since the last frame contributes no raw velocity, so
   the smoothed velocity only decays, by the factor `1 - clamp01(dt * velocitySmoothing)`.
   */
  lemma StillTipDecays(c: Config, s: State, tip: Vec3, boat: Frame, water: Bounds, dt: real)
    requires dt > 0.0 && tip == s.lastTipPos
    ensures Update(c, s, Some(tip), Some(boat), Some(water), dt).state.smoothedVelocity
         == Scale(s.smoothedVelocity, 1.0 - Clamp01(dt * c.velocitySmoothing))
  {
    NoDisplacementNoVelocity(tip, dt);
    SmoothTowardZero(c, s.smoothedVelocity, dt);
  }

  lemma SmoothTowardZero(c: Config, smoothed: Vec3, dt: real)
    ensures Smooth(c, smoothed, Zero, dt) == Scale(smoothed, 1.0 - Clamp01(dt * c.velocitySmoothing))
  {
    Vectors.LerpToZero(smoothed, dt * c.velocitySmoothing);
  }

  /** A tip outside the water box never produces a force, however fast it moves. */
  lemma OutOfWaterNoForce(c: Config, s: State, tip: Vec3, boat: Frame, water: Bounds, dt: real)
    requires dt > 0.0 && !Contains(water, tip)
    ensures Update(c, s, Some(tip), Some(boat), Some(water), dt).force == None
  {
  }
}
