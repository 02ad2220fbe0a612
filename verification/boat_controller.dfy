/**
 BoatController.cs: a boat floated at four corner points. Each physics step it
 attenuates its body-frame velocity (sideways much more than forward), pushes
 each submerged corner up in proportion to its depth while damping that corner's
 vertical motion, settles roll, pitch and yaw separately, and caps its speed.
 */
module BoatController {
  import opened Mathf
  import opened Vectors
  import opened Engine
  import opened WaterVolume
  import Floater

  datatype Config = Config(
    forwardDrag: real,
    sidewaysDrag: real,
    maxSpeed: real,
    floatForce: real,
    verticalDampingFactor: real,
    rollDampingFactor: real,
    pitchDampingFactor: real,
    yawDampingFactor: real)

  /** The inspector defaults. */
  const Defaults := Config(0.2, 2.0, 10.0, 15.0, 0.5, 1.0, 0.5, 0.2)

  /** A float point: its transform's position (`None` when unassigned) and the body's velocity there. */
  datatype FloatPoint = FloatPoint(position: Option<Vec3>, velocity: Vec3)

  datatype Corners = Corners(north: FloatPoint, south: FloatPoint, east: FloatPoint, west: FloatPoint)

  /** The rigid body state the step reads. */
  datatype Body = Body(frame: Frame, velocity: Vec3, angularVelocity: Vec3)

  /** What one step writes back (velocities) and submits (forces). */
  datatype Step = Step(velocity: Vec3, angularVelocity: Vec3, forces: seq<AppliedForce>)

  /** Body-frame drag: local x by `1 - sidewaysDrag * dt`, local z by `1 - forwardDrag * dt`, local y kept. */
  function ApplyDirectionalDrag(c: Config, f: Frame, v: Vec3, dt: real): (r: Vec3)
    ensures Orthonormal(f) ==> ToLocal(f, r).x == ToLocal(f, v).x * (1.0 - c.sidewaysDrag * dt)
    ensures Orthonormal(f) ==> ToLocal(f, r).y == ToLocal(f, v).y
    ensures Orthonormal(f) ==> ToLocal(f, r).z == ToLocal(f, v).z * (1.0 - c.forwardDrag * dt)
  {
    Floater.DirectionalDrag(f, v, 1.0 - c.sidewaysDrag * dt, 1.0 - c.forwardDrag * dt)
  }

  /** With both drags times `dt` in [0, 2] the drag never speeds the boat up. */
  lemma DirectionalDragBounded(c: Config, f: Frame, v: Vec3, dt: real)
    requires Orthonormal(f)
    requires 0.0 <= c.sidewaysDrag * dt <= 2.0 && 0.0 <= c.forwardDrag * dt <= 2.0
    ensures SqrMagnitude(ApplyDirectionalDrag(c, f, v, dt)) <= SqrMagnitude(v)
  {
    var side := 1.0 - c.sidewaysDrag * dt;
    var forward := 1.0 - c.forwardDrag * dt;
    assert -1.0 <= side <= 1.0 && -1.0 <= forward <= 1.0;
    assert ApplyDirectionalDrag(c, f, v, dt) == Floater.DirectionalDrag(f, v, side, forward);
    Floater.DragNeverSpeedsUp(f, v, side, forward);
  }

  /** Roll (local x), yaw (local y) and pitch (local z) are each scaled by their own factor. */
  function ApplyAngularDamping(c: Config, f: Frame, w: Vec3, dt: real): (r: Vec3)
    ensures Orthonormal(f) ==> ToLocal(f, r).x == ToLocal(f, w).x * (1.0 - c.rollDampingFactor * dt)
    ensures Orthonormal(f) ==> ToLocal(f, r).y == ToLocal(f, w).y * (1.0 - c.yawDampingFactor * dt)
    ensures Orthonormal(f) ==> ToLocal(f, r).z == ToLocal(f, w).z * (1.0 - c.pitchDampingFactor * dt)
  {
    Floater.AxisDamping(f, w, 1.0 - c.rollDampingFactor * dt, 1.0 - c.yawDampingFactor * dt,
                        1.0 - c.pitchDampingFactor * dt)
  }

  /**
   The forces at one float point: none when the point or the water is unassigned
   or the point is not submerged; otherwise an uplift of `floatForce * depth` and a
   damping force of `-velocity.y * verticalDampingFactor`, both vertical and both
   applied at the point.
   */
  function ApplyBuoyancyAtPoint(c: Config, water: Option<Bounds>, p: FloatPoint): (forces: seq<AppliedForce>)
    ensures p.position.None? || water.None? ==> forces == []
    ensures p.position.Some? && water.Some? ==> (forces != [] <==> DepthAt(water.value, p.position.value).submerged)
    ensures forces == [] || |forces| == 2
    ensures forall i :: 0 <= i < |forces| ==> Vertical(forces[i]) && forces[i].at == p.position && forces[i].mode == Force
    ensures forces != [] ==> forces[0].vector.y == c.floatForce * DepthAt(water.value, p.position.value).depth
    ensures forces != [] ==> forces[1].vector.y == -p.velocity.y * c.verticalDampingFactor
  {
    if p.position.None? || water.None? then []
    else
      var s := DepthAt(water.value, p.position.value);
      if s.submerged then SubmergedPointForces(c, p.position.value, s.depth, p.velocity.y) else []
  }

  /** The uplift and the vertical damping force at a submerged point. */
  function SubmergedPointForces(c: Config, at: Vec3, depth: real, verticalVelocity: real): (forces: seq<AppliedForce>)
    ensures |forces| == 2
    ensures forall i :: 0 <= i < 2 ==> Vertical(forces[i]) && forces[i].at == Some(at) && forces[i].mode == Force
    ensures forces[0].vector.y == c.floatForce * depth
    ensures forces[1].vector.y == -verticalVelocity * c.verticalDampingFactor
  {
    // Vector3.up * floatForce * depth and -Vector3.up * velocity.y * verticalDampingFactor
    var uplift := Vec3(0.0, c.floatForce * depth, 0.0);
    var verticalDamping := Vec3(0.0, -verticalVelocity * c.verticalDampingFactor, 0.0);
    [AppliedForce(uplift, Some(at), Force), AppliedForce(verticalDamping, Some(at), Force)]
  }

  /** A submerged point is never pushed down by its uplift. */
  lemma UpliftNonNegative(c: Config, water: Option<Bounds>, p: FloatPoint)
    requires c.floatForce >= 0.0
    requires ApplyBuoyancyAtPoint(c, water, p) != []
    ensures ApplyBuoyancyAtPoint(c, water, p)[0].vector.y >= 0.0
  {
    assert water.Some? && p.position.Some?;
    var depth := DepthAt(water.value, p.position.value).depth;
    assert ApplyBuoyancyAtPoint(c, water, p) == SubmergedPointForces(c, p.position.value, depth, p.velocity.y);
    NonNegativeProduct(c.floatForce, depth);
  }

  /** The vertical damping force never pushes along the point's vertical motion. */
  lemma DampingOpposesVerticalMotion(c: Config, water: Option<Bounds>, p: FloatPoint)
    requires c.verticalDampingFactor >= 0.0
    requires ApplyBuoyancyAtPoint(c, water, p) != []
    ensures p.velocity.y >= 0.0 ==> ApplyBuoyancyAtPoint(c, water, p)[1].vector.y <= 0.0
    ensures p.velocity.y <= 0.0 ==> ApplyBuoyancyAtPoint(c, water, p)[1].vector.y >= 0.0
  {
    assert water.Some? && p.position.Some?;
    var depth := DepthAt(water.value, p.position.value).depth;
    assert ApplyBuoyancyAtPoint(c, water, p) == SubmergedPointForces(c, p.position.value, depth, p.velocity.y);
    SubmergedDampingOpposes(c, p.position.value, depth, p.velocity.y);
  }

  lemma SubmergedDampingOpposes(c: Config, at: Vec3, depth: real, verticalVelocity: real)
    requires c.verticalDampingFactor >= 0.0
    ensures verticalVelocity >= 0.0 ==> SubmergedPointForces(c, at, depth, verticalVelocity)[1].vector.y <= 0.0
    ensures verticalVelocity <= 0.0 ==> SubmergedPointForces(c, at, depth, verticalVelocity)[1].vector.y >= 0.0
  {
    var forces := SubmergedPointForces(c, at, depth, verticalVelocity);
    var y := forces[1].vector.y;
    OpposingProduct(verticalVelocity, c.verticalDampingFactor, y);
  }

  /** A corner two units deep with `floatForce` 15 is pushed up by exactly 30. */
  lemma UpliftScenario()
    ensures var water := Some(Bounds(Vec3(0.0, 0.0, 0.0), Vec3(10.0, 5.0, 10.0)));
            var p := FloatPoint(Some(Vec3(5.0, 3.0, 5.0)), Zero);
            var forces := ApplyBuoyancyAtPoint(Defaults, water, p);
            |forces| == 2 && forces[0].vector == Vec3(0.0, 30.0, 0.0) && forces[1].vector.y == 0.0
  {
    var water := Bounds(Vec3(0.0, 0.0, 0.0), Vec3(10.0, 5.0, 10.0));
    assert DepthAt(water, Vec3(5.0, 3.0, 5.0)).depth == 2.0;
  }

  /** The four corners in the order the step visits them. */
  function ApplyBuoyancy(c: Config, water: Option<Bounds>, corners: Corners): (forces: seq<AppliedForce>)
    ensures water.None? ==> forces == []
    ensures |forces| <= 8
    ensures forall i :: 0 <= i < |forces| ==> Vertical(forces[i]) && forces[i].mode == Force
    ensures forall i :: 0 <= i < |forces| ==>
              forces[i].at in {corners.north.position, corners.south.position, corners.east.position, corners.west.position}
  {
    ApplyBuoyancyAtPoint(c, water, corners.north) + ApplyBuoyancyAtPoint(c, water, corners.south)
    + ApplyBuoyancyAtPoint(c, water, corners.east) + ApplyBuoyancyAtPoint(c, water, corners.west)
  }

  /**
   One `FixedUpdate`: directional drag is written to the velocity, the corner forces
   are submitted, the angular velocity is damped, and the dragged velocity is capped
   at `maxSpeed` (the forces are integrated by the engine afterwards). The caller
   supplies `draggedSpeed`, the magnitude of the dragged velocity.
   */
  function FixedUpdate(c: Config, water: Option<Bounds>, body: Body, corners: Corners, dt: real, draggedSpeed: real): (r: Step)
    requires IsNorm(draggedSpeed, ApplyDirectionalDrag(c, body.frame, body.velocity, dt))
    ensures c.maxSpeed >= 0.0 ==> SqrMagnitude(r.velocity) <= Sq(c.maxSpeed)
    ensures c.maxSpeed >= 0.0 ==> SameDirection(r.velocity, ApplyDirectionalDrag(c, body.frame, body.velocity, dt))
    ensures draggedSpeed <= c.maxSpeed ==> r.velocity == ApplyDirectionalDrag(c, body.frame, body.velocity, dt)
    ensures draggedSpeed > c.maxSpeed ==>
              r.velocity == Scale(Normalized(ApplyDirectionalDrag(c, body.frame, body.velocity, dt), draggedSpeed), c.maxSpeed)
    ensures r.angularVelocity == ApplyAngularDamping(c, body.frame, body.angularVelocity, dt)
    ensures r.forces == ApplyBuoyancy(c, water, corners)
  {
    var dragged := ApplyDirectionalDrag(c, body.frame, body.velocity, dt);
    var forces := ApplyBuoyancy(c, water, corners);
    var angular := ApplyAngularDamping(c, body.frame, body.angularVelocity, dt);
    Step(Floater.ClampVelocity(dragged, draggedSpeed, c.maxSpeed), angular, forces)
  }
}
