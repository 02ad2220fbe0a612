# Water sandbox physics rules, modelled in Dafny

This project models the per-physics-tick rules of a Unity VR water sandbox. Floating
boats and swimmers, paddles and swim strokes, water-occupancy tracking and a
plant-chopping sword each run a few lines of arithmetic every step against
fields of their component. Here every such rule is a pure function, or a small
method, over exact reals and immutable records:

- a `Vec3` is three reals;
- a body rotation is a `Frame` holding the world directions of the local axes;
- a water box is an axis-aligned `Bounds`;
- every `AddForce` / `AddForceAtPosition` call the source makes becomes an
  `AppliedForce` record (vector, application point, `ForceMode`) in the result;
- a velocity the source writes back appears as a field of the result.

Modules follow the source files:

| module | models |
|---|---|
| `Mathf`, `Vectors` | the engine's scalar and `Vector3` routines used by the scripts: `Clamp`, `Lerp` (with a clamped parameter), `MoveTowards`, `normalized` (zero at or below 1e-5), `InverseTransformDirection` / `TransformDirection` |
| `Engine` | optional references, colliders, layers and `LayerMask` bits, force records |
| `WaterVolume` | the submersion query against a box collider's bounds (`PointInsideWater` / `RigidbodyInsideWater`) |
| `Floater` | the body-frame velocity scaling and the post-step speed cap shared by the two floaters |
| `BoatController` | the four-corner boat floater |
| `SimpleSwimming` | the centre-of-mass swimmer with relative-velocity hand thrust |
| `VrSwimming` | `VRSwimmingRoot`: overlap counter, cached damping, smoothed hand velocities, swim speed cap |
| `WaterProbe` | the collider-set occupancy tracker, keyed on collider identity |
| `VrSwimmings` | the wetness-driven buoyancy and damping |
| `KayakPaddle` | the tracked paddle tip that pushes the boat |
| `FixedPaddle` | the grabbable paddle with a flat water level |
| `Swimmer` | breast-stroke impulses with a cooldown, and spin drag |
| `SwordChop` | nearest-joint selection and the per-plant cooldown set |

Modelling conventions:

- Single-precision floats are exact reals. The float literals (0.01, 1e-5, 0.05,
  0.0001) are the same values as reals.
- Dafny has no square root over reals. A comparison with a magnitude is stated on
  squared magnitudes (`MagnitudeExceeds`, `MagnitudeBelow`). Where the source
  divides by a magnitude (`normalized`, `v * (max / m)`), the caller passes the
  magnitude `n` together with `IsNorm(n, v)`.
- `Time.fixedDeltaTime` / `Time.deltaTime` is the parameter `dt`.
- Engine reads the step needs are inputs: `GetPointVelocity`, `linearVelocity`,
  `angularVelocity`, `worldCenterOfMass`, tag and layer, `isKinematic`, whether an
  input action is pressed, and the controller velocities.
- Properties that depend on a rotation are stated for an orthonormal `Frame`
  (`Orthonormal`, which covers both the axes and the matrix rows).

Details of the code that the model keeps:

- Every paddle and stroke force is applied either at a point or at the centre of
  mass.
- Only `VRSwimmingRoot` floors the time step (`Mathf.Max(dt, 1e-5)`).
  `KayakPaddle` and `FixedPaddle` divide by the frame time unguarded, so their
  models require `dt > 0`.
- The speed cap in `BoatController` and `SimpleSwimming` runs inside
  `FixedUpdate`, on the velocity written by the directional drag. It runs before
  the engine integrates the forces submitted that step.
- In `VrSwimmings`, the wetness follows the probe's collider set rather than an
  overlap counter. It eases linearly (`MoveTowards`), not exponentially.
- No core component other than `WaterProbe` resets its occupancy state when it is
  disabled.
- `BoatController`'s `angularDamping` field only sets the engine's built-in
  damping in `Awake`. The roll, pitch and yaw settling is always applied in
  addition.
- In `SimpleSwimming.FixedUpdate` the hand thrust runs after the drag, damping and
  speed cap have been written, so the body's point velocity at the hand
  (`GetPointVelocity`, an input of `SimpleSwimming.StrokeForces`) is read from
  that written state.
- `SimpleSwimming` declares `angularDamping` but never reads it. Its angular
  settling uses `Drag`.

## Model

| member | source | states |
|---|---|---|
| `Mathf.Clamp` | Assets/Quillombo/BoatController.cs:89 | the result lies in [lo, hi] when lo <= hi; it is the value inside the range, lo below it (the lower bound is tested first) and hi above it |
| `Mathf.Lerp` | Assets/Quillombo/VrSwimmings.cs:59 | for t in [0, 1] the result is a + (b − a)·t; the parameter is clamped, so t <= 0 gives a and t >= 1 gives b; the result always lies between a and b |
| `Mathf.MoveTowards` | Assets/Quillombo/VrSwimmings.cs:56 | reaches the target when it is within maxDelta; otherwise moves exactly maxDelta toward it, never past it |
| `Mathf.Max` | Assets/Quillombo/VrSwimmings.cs:54 | the result is one of the arguments and at least both of them |
| `Mathf.MaxInt` | Assets/Quillombo/VrSwimming.cs:135 | the integer maximum is one of the arguments and at least both of them |
| `Vectors.Normalized` | Assets/Quillombo/BoatController.cs:96 | above the 1e-5 threshold the result has unit length; at or below it the result is zero; it always points the way of the input |
| `Vectors.NormComparison` | Assets/Quillombo/SimpleSwimming.cs:150-157 | comparing a magnitude with a bound agrees with comparing squared magnitudes, in both directions of each comparison |
| `Vectors.Lerp` | Assets/Quillombo/KayakPaddle.cs:37 | for t in [0, 1] `Vector3.Lerp` is a + (b − a)·t; it returns its first end for t <= 0 and its second for t >= 1 |
| `Vectors.LocalOfWorld` | Assets/Quillombo/BoatController.cs:45-48 | for an orthonormal frame, `InverseTransformDirection` undoes `TransformDirection` |
| `Vectors.WorldOfLocal` | Assets/Quillombo/BoatController.cs:45-48 | for an orthonormal frame, `TransformDirection` undoes `InverseTransformDirection` |
| `Vectors.ToWorldSqrMagnitude` | Assets/Quillombo/BoatController.cs:48 | converting local coordinates to world space keeps the length |
| `Vectors.ToLocalSqrMagnitude` | Assets/Quillombo/KayakPaddle.cs:43 | converting a world vector to body coordinates keeps the length |
| `Vectors.ToWorldScale` | Assets/Quillombo/KayakPaddle.cs:53 | scaling before or after `TransformDirection` gives the same vector |
| `WaterVolume.DepthAt` | Assets/Quillombo/BoatController.cs:83-91 | outside the inclusive bounds a point is dry (depth 0, not submerged); inside, the depth is exactly top − y and lies in [0, height]; submerged iff inside and depth > 0.01 |
| `WaterVolume.DepthDecreasesWithHeight` | Assets/Quillombo/BoatController.cs:88-89 | inside the box a higher point is never deeper, and strictly shallower when strictly higher |
| `WaterVolume.SubmergedIffBelowSurface` | Assets/Quillombo/BoatController.cs:86-90 | submerged exactly when inside the box and more than 0.01 below its top |
| `WaterVolume.AboveSurfaceIsDry` | Assets/Quillombo/BoatController.cs:86-87 | any point strictly above the surface is dry |
| `Floater.DirectionalDrag` | Assets/Quillombo/BoatController.cs:45-48 | in the body frame the result is the input with local x and z scaled by their factors and local y unchanged |
| `Floater.AxisDamping` | Assets/Quillombo/BoatController.cs:76-80 | in the body frame each local angular component is scaled by its own factor, independently of the others |
| `Floater.UnitFactorsAreIdentity` | Assets/Quillombo/BoatController.cs:45-48 | factors of exactly 1 leave linear and angular velocity unchanged |
| `Floater.DragNeverSpeedsUp` | Assets/Quillombo/BoatController.cs:46-47 | factors in [−1, 1] never increase the speed |
| `Floater.ClampVelocity` | Assets/Quillombo/BoatController.cs:93-97 | within the cap the velocity is unchanged; after the cap the speed is at most maxSpeed and the direction is kept; above the cap (and the normalise threshold) the speed is exactly maxSpeed |
| `Floater.ClampFactor` | Assets/Quillombo/BoatController.cs:95-96 | the rescaling factor is 1 within the cap and non-negative for a non-negative cap |
| `Floater.ClampIsScaling` | Assets/Quillombo/BoatController.cs:95-96 | the capped velocity is the input scaled by the clamp factor, so the cap only rescales |
| `BoatController.ApplyDirectionalDrag` | Assets/Quillombo/BoatController.cs:43-49 | local x is scaled by 1 − sidewaysDrag·dt, local z by 1 − forwardDrag·dt, and local y is unchanged |
| `BoatController.DirectionalDragBounded` | Assets/Quillombo/BoatController.cs:46-47 | with both drag·dt products in [0, 2], the boat is never sped up |
| `BoatController.ApplyAngularDamping` | Assets/Quillombo/BoatController.cs:74-81 | roll (local x), yaw (local y) and pitch (local z) are scaled by their own factors |
| `BoatController.ApplyBuoyancyAtPoint` | Assets/Quillombo/BoatController.cs:60-72 | a missing point or water gives no force; otherwise there are forces iff the point is submerged: an uplift of floatForce·depth and a damping of −pointVelocity.y·verticalDampingFactor, both vertical, at the point, in Force mode |
| `BoatController.SubmergedPointForces` | Assets/Quillombo/BoatController.cs:65-70 | exactly the uplift and the vertical damping, both vertical and applied at the point |
| `BoatController.UpliftNonNegative` | Assets/Quillombo/BoatController.cs:65 | with a non-negative floatForce the uplift never pushes down |
| `BoatController.DampingOpposesVerticalMotion` | Assets/Quillombo/BoatController.cs:68-70 | with a non-negative factor the damping force never has the sign of the point's vertical velocity |
| `BoatController.UpliftScenario` | Assets/Quillombo/BoatController.cs:63-70 | a still corner two units deep with the default floatForce 15 gets an uplift of exactly 30 and zero damping |
| `BoatController.ApplyBuoyancy` | Assets/Quillombo/BoatController.cs:53-56 | no water means no force; at most eight forces, all vertical, in Force mode, at one of the four corners |
| `BoatController.FixedUpdate` | Assets/Quillombo/BoatController.cs:36-41 | the written velocity is the dragged velocity when its speed is within maxSpeed, and its normalised direction times maxSpeed above it, so at most maxSpeed in the same direction; the angular velocity is damped per axis; the submitted forces are the corner forces |
| `SimpleSwimming.ApplyDirectionalDrag` | Assets/Quillombo/SimpleSwimming.cs:63-69 | local x and z are scaled by the same 1 − Drag·dt and local y is unchanged |
| `SimpleSwimming.ApplyAngularDamping` | Assets/Quillombo/SimpleSwimming.cs:96-103 | all three local angular components are scaled by 1 − Drag·dt |
| `SimpleSwimming.DirectionalDragBounded` | Assets/Quillombo/SimpleSwimming.cs:66-67 | with Drag·dt in [0, 2], the swimmer is never sped up |
| `SimpleSwimming.RigidbodyInsideWater` | Assets/Quillombo/SimpleSwimming.cs:105-120 | a missing body or water, or a centre of mass outside the bounds, gives depth 0 and false; otherwise the depth is top − y in [0, height], and the body is submerged iff depth > 0.01 |
| `SimpleSwimming.ApplyBuoyancyAtPoint` | Assets/Quillombo/SimpleSwimming.cs:78-93 | forces iff the centre of mass is submerged: floatForce·depth up and −velocity.y·Drag, both vertical, at the centre of mass |
| `SimpleSwimming.RelativeHandVelocity` | Assets/Quillombo/SimpleSwimming.cs:138-147 | the hand velocity minus the body's velocity at the hand (adding them back gives the hand velocity); with horizontalOnly the vertical part is zero |
| `SimpleSwimming.InDeadzone` | Assets/Quillombo/SimpleSwimming.cs:150 | the definition of the deadzone, a squared relative speed below minHandSpeed²; `SimpleSwimming.HandleHandSwim` states that no thrust comes exactly then |
| `SimpleSwimming.RawThrust` | Assets/Quillombo/SimpleSwimming.cs:153 | the definition of the unclamped acceleration −rel·thrustPerMS; its direction is stated by `SimpleSwimming.ThrustOpposesStroke` |
| `SimpleSwimming.ClampThrust` | Assets/Quillombo/SimpleSwimming.cs:156-157 | an acceleration within the cap is unchanged, and clamping keeps a zero vertical part zero |
| `SimpleSwimming.ClampThrustIsSpeedCap` | Assets/Quillombo/SimpleSwimming.cs:156-157 | for a non-negative cap, the squared-magnitude thrust clamp is the same map as the magnitude speed cap |
| `SimpleSwimming.HandleHandSwim` | Assets/Quillombo/SimpleSwimming.cs:133-161 | no hand, or a relative speed below minHandSpeed, gives no thrust (iff); otherwise one acceleration at the centre of mass, capped at maxThrust, level under horizontalOnly, unclamped when within the cap, above a non-negative cap exactly `normalized · maxThrust` (so of magnitude maxThrust past the normalise threshold), and pointing against the hand's motion through the water |
| `SimpleSwimming.ThrustWithinCap` | Assets/Quillombo/SimpleSwimming.cs:156-157 | with a non-negative maxThrust the clamped thrust is at most maxThrust |
| `SimpleSwimming.UnclampedThrust` | Assets/Quillombo/SimpleSwimming.cs:156-157 | a thrust whose magnitude is already within maxThrust is left unchanged |
| `SimpleSwimming.ClampedThrust` | Assets/Quillombo/SimpleSwimming.cs:156-157 | a thrust above a non-negative cap becomes its normalised direction times maxThrust |
| `SimpleSwimming.CappedThrustMagnitude` | Assets/Quillombo/SimpleSwimming.cs:156-157 | above a non-negative cap and the normalise threshold the clamped thrust has magnitude exactly maxThrust |
| `SimpleSwimming.ThrustOpposesStroke` | Assets/Quillombo/SimpleSwimming.cs:147-157 | the capped thrust is along the reversed relative velocity, and has no vertical part when that velocity has none |
| `SimpleSwimming.CappedThrustDirection` | Assets/Quillombo/SimpleSwimming.cs:153-157 | the capped thrust is a non-negative multiple of the reversed relative velocity |
| `SimpleSwimming.HandMovingWithBodyGivesNoThrust` | Assets/Quillombo/SimpleSwimming.cs:141-150 | a hand carried at exactly the body's point velocity produces no thrust when minHandSpeed is non-zero |
| `SimpleSwimming.StrokeForces` | Assets/Quillombo/SimpleSwimming.cs:52-59 | an unpressed button adds nothing; a pressed one adds exactly the thrust `HandleHandSwim` gives, or nothing when it gives none; any thrust is an acceleration at the centre of mass within maxThrust |
| `SimpleSwimming.FixedUpdate` | Assets/Quillombo/SimpleSwimming.cs:44-61 | the written velocity is the dragged velocity when within maxSpeed, and its normalised direction times maxSpeed above it; buoyancy reads the dragged velocity; then come the left and then the right thrust, at most four forces in all |
| `VrSwimming.Start` | Assets/Quillombo/VrSwimming.cs:48-62 | the body starts out of water with a zero counter; the current damping is cached; each assigned hand's position is remembered |
| `VrSwimming.PassesWaterFilter` | Assets/Quillombo/VrSwimming.cs:141-146 | the definition of an accepted collider: a trigger when triggers are required, and the water tag unless it is empty; `VrSwimming.FilterCases` states its cases |
| `VrSwimming.FilterCases` | Assets/Quillombo/VrSwimming.cs:141-146 | a non-trigger is rejected when triggers are required; a wrong tag is rejected when a tag is set; with an empty tag any collider passes that meets the trigger rule |
| `VrSwimming.EnterWater` | Assets/Quillombo/VrSwimming.cs:148-159 | the current damping is cached, water damping is set, and stick locomotion is disabled when configured |
| `VrSwimming.ExitWater` | Assets/Quillombo/VrSwimming.cs:161-170 | the cached damping is restored and stick locomotion is re-enabled when configured |
| `VrSwimming.RelayTriggerEnter` | Assets/Quillombo/VrSwimming.cs:116-126 | a rejected collider changes nothing; an accepted one adds one to the counter; the first accepted one also runs `EnterWater` (cache, water damping, locomotion off); a nested one changes only the counter |
| `VrSwimming.RelayTriggerExit` | Assets/Quillombo/VrSwimming.cs:128-138 | a rejected collider changes nothing; an accepted one decrements the counter with a floor of 0; when the body was in water and the counter reaches 0 it runs `ExitWater` (restore the cached damping), otherwise only the counter changes |
| `VrSwimming.RunValid` | Assets/Quillombo/VrSwimming.cs:116-138 | any sequence of enter and exit callbacks keeps the counter non-negative and "in water" equal to "counter > 0" |
| `VrSwimming.RunCounts` | Assets/Quillombo/VrSwimming.cs:123-135 | when no prefix has more accepted exits than enters, the counter is the start value plus accepted enters minus accepted exits, whatever the interleaving |
| `VrSwimming.OverlappingVolumes` | Assets/Quillombo/VrSwimming.cs:135-137 | enter(A), enter(B), exit(A) leaves the counter at 1 and the body in water |
| `VrSwimming.EnterExitRestoresDamping` | Assets/Quillombo/VrSwimming.cs:148-165 | entering and leaving one volume restores the damping the body had before |
| `VrSwimming.NestedEnterKeepsCache` | Assets/Quillombo/VrSwimming.cs:124 | a nested enter does not overwrite the damping cached on the first |
| `VrSwimming.SafeDt` | Assets/Quillombo/VrSwimming.cs:81 | the divisor is dt or 1e-5, whichever is larger |
| `VrSwimming.SmoothHand` | Assets/Quillombo/VrSwimming.cs:81-82 | for a smoothing s in [0, 1] the new velocity is inst + (prev − inst)·s, where inst is the displacement over the floored step; a smoothing of 1 or more keeps the previous velocity, 0 or less gives inst |
| `VrSwimming.SmoothedBetween` | Assets/Quillombo/VrSwimming.cs:82 | each smoothed component lies between the instantaneous and the previous one |
| `VrSwimming.StillHandDecays` | Assets/Quillombo/VrSwimming.cs:81-83 | a hand that did not move keeps only the fraction handVelSmoothing of its previous velocity |
| `VrSwimming.UpdateHands` | Assets/Quillombo/VrSwimming.cs:79-90 | each assigned hand gets its smoothed velocity and new previous position; an unassigned hand and the water state are untouched |
| `VrSwimming.CapSpeed` | Assets/Quillombo/VrSwimming.cs:106-112 | a cap of zero or less, or a speed within it, leaves the velocity unchanged; otherwise the speed becomes exactly the cap; the direction is always kept |
| `VrSwimming.FixedUpdate` | Assets/Quillombo/VrSwimming.cs:75-113 | the hands update every step; out of water nothing else happens; in water the buoyancy acceleration comes first, then the stroke −velL − velR scaled by strokeAccelPerMS while the button is held; a cap of 0 or less, or a speed within it, leaves the velocity unchanged, and a speed above a positive cap is scaled by maxSwimSpeed / speed |
| `WaterProbe.IsWater` | Assets/Quillombo/WaterProbe.cs:13-18 | the definition of water: the collider's layer bit in a non-zero mask, or the tag "Water" when the mask is empty; `WaterProbe.MaskIgnoresTag` states the consequence |
| `WaterProbe.MaskIgnoresTag` | Assets/Quillombo/WaterProbe.cs:13-18 | with a non-zero layer mask the tag does not affect whether a collider is water |
| `WaterProbe.OnTriggerEnter` | Assets/Quillombo/WaterProbe.cs:20-26 | non-water is ignored; a water collider's identity is added to the set and the flag is raised; the flag keeps agreeing with the set |
| `WaterProbe.OnTriggerStay` | Assets/Quillombo/WaterProbe.cs:28-33 | staying does exactly what entering does, so a probe that starts inside water catches up |
| `WaterProbe.OnTriggerExit` | Assets/Quillombo/WaterProbe.cs:35-40 | non-water is ignored; a water collider is removed by identity, whatever its tag or layer were when it entered, and the flag becomes "the set is non-empty" |
| `WaterProbe.OnDisable` | Assets/Quillombo/WaterProbe.cs:42-46 | the set is empty and the flag is false |
| `WaterProbe.RunConsistent` | Assets/Quillombo/WaterProbe.cs:20-46 | from a consistent state, any sequence of callbacks keeps isInWater iff the set is non-empty |
| `WaterProbe.RunOnlyWater` | Assets/Quillombo/WaterProbe.cs:20-40 | after any callbacks, every remembered collider was there at the start or was added by an enter or stay callback that found it to be water |
| `WaterProbe.TagChangeStillExits` | Assets/Quillombo/WaterProbe.cs:11-38 | with a layer mask set, a water collider whose tag changes between enter and exit still leaves the set, and the probe is dry again |
| `WaterProbe.RepeatedEntersOneExit` | Assets/Quillombo/WaterProbe.cs:23-38 | any number of enters of one collider followed by one exit leaves it out of the set, and the rest of the set as it was |
| `VrSwimmings.BaseDamping` | Assets/Quillombo/VrSwimmings.cs:42-43 | no body leaves the coefficient at 0; otherwise it is mass · verticalDampingPerKg for a positive per-kg damping and 0 for a non-positive one |
| `VrSwimmings.BlendTime` | Assets/Quillombo/VrSwimmings.cs:54 | the enter time in water and the exit time outside, floored at 0.0001 |
| `VrSwimmings.StepWetness` | Assets/Quillombo/VrSwimmings.cs:52-56 | wetness in [0, 1] stays in [0, 1]; it moves toward the target by at most dt/tau and never past it; it reaches the target when within dt/tau |
| `VrSwimmings.TargetIsFixed` | Assets/Quillombo/VrSwimmings.cs:56 | once at its target, wetness stays there for any number of steps |
| `VrSwimmings.FadeInCompletes` | Assets/Quillombo/VrSwimmings.cs:53-56 | staying in water, wetness is exactly 1 after any n steps whose total allowance n·dt/tau covers the distance to 1 |
| `VrSwimmings.FadeOutCompletes` | Assets/Quillombo/VrSwimmings.cs:53-56 | out of water, wetness is exactly 0 after any n steps whose total allowance covers it |
| `VrSwimmings.BlendedDrag` | Assets/Quillombo/VrSwimmings.cs:59 | for wetness in [0, 1] the drag is airDrag + (waterDrag − airDrag)·wetness; airDrag when dry, waterDrag when fully wet, between the two otherwise |
| `VrSwimmings.WetterIsDraggier` | Assets/Quillombo/VrSwimmings.cs:59 | while waterDrag is at least airDrag, a wetter body never gets less drag |
| `VrSwimmings.SurfaceBlend` | Assets/Quillombo/VrSwimmings.cs:70 | the definition of the bell curve 4w(1 − w); its shape is stated by `VrSwimmings.SurfaceBlendShape` |
| `VrSwimmings.DampingCoefficient` | Assets/Quillombo/VrSwimmings.cs:71 | the definition base·(1 + surfaceDampingBoost·blend); its sign is stated by `VrSwimmings.DampingCoefficientNonNegative` |
| `VrSwimmings.SurfaceBlendShape` | Assets/Quillombo/VrSwimmings.cs:70 | the bell curve 4w(1 − w) lies in [0, 1] on [0, 1], is 0 at 0 and 1, and is 1 at one half |
| `VrSwimmings.DampingCoefficientNonNegative` | Assets/Quillombo/VrSwimmings.cs:71 | a non-negative base damping and a boost of at least −1 give a non-negative coefficient |
| `VrSwimmings.ClampRise` | Assets/Quillombo/VrSwimmings.cs:76-81 | fires only when maxRiseSpeed > 0 and vy exceeds it, then sets vy to maxRiseSpeed; x and z are never changed and vy never grows |
| `VrSwimmings.WetForces` | Assets/Quillombo/VrSwimmings.cs:65-73 | two vertical forces at the centre of mass: upwardForce·wetness and −coefficient·vy |
| `VrSwimmings.FixedUpdate` | Assets/Quillombo/VrSwimmings.cs:46-82 | without a body or probe, or with a kinematic body, nothing happens; otherwise wetness steps and the drag is blended; a dry result gets no force and keeps its velocity; a wet one gets exactly the two wet forces and the rise clamp; x and z velocity are never changed |
| `VrSwimmings.DampingOpposesVerticalMotion` | Assets/Quillombo/VrSwimmings.cs:68-73 | with a non-negative base damping the damping force never has the sign of the vertical velocity |
| `VrSwimmings.VerticalSpeedIsDotUp` | Assets/Quillombo/VrSwimmings.cs:68 | the dot product with the up axis is the y component |
| `KayakPaddle.Start` | Assets/Quillombo/KayakPaddle.cs:21-25 | an assigned tip's position becomes the last tip position; nothing else changes |
| `Vectors.Velocity` | Assets/Quillombo/KayakPaddle.cs:33 | the estimated velocity times the time step is the displacement; KayakPaddle uses it for the tip over the frame time and FixedPaddle (FixedPaddle.cs:30) for the blade over the fixed step |
| `Vectors.NoDisplacementNoVelocity` | Assets/Quillombo/KayakPaddle.cs:33 | a point that did not move between two samples has zero estimated velocity |
| `KayakPaddle.Smooth` | Assets/Quillombo/KayakPaddle.cs:37 | for t = dt·velocitySmoothing in [0, 1] the result is old + (raw − old)·t; t of 1 or more gives the raw velocity, 0 or less keeps the old one; each component lies between the old and the raw |
| `KayakPaddle.LocalForce` | Assets/Quillombo/KayakPaddle.cs:46-50 | the local force has no vertical part, its x never has the sign of the local x velocity, and with a non-negative sidewaysFactor neither does its z |
| `KayakPaddle.Paddling` | Assets/Quillombo/KayakPaddle.cs:40 | the definition of the force test: the tip inside the water box and a smoothed speed strictly above minMovementThreshold; `KayakPaddle.Update` states that a force exists exactly then |
| `KayakPaddle.PaddleForce` | Assets/Quillombo/KayakPaddle.cs:43-53 | in the boat's frame the force is (−local x, 0, −local z·sidewaysFactor) of the smoothed velocity, times paddleForceMultiplier |
| `KayakPaddle.Update` | Assets/Quillombo/KayakPaddle.cs:27-57 | a missing tip, boat or water changes nothing and gives no force; otherwise the tip position is remembered, the velocity smoothed, and a force exists iff the tip is in the water box and the smoothed speed is strictly above the threshold; the force acts at the tip in Force mode |
| `KayakPaddle.ForceIsLevelInBoatFrame` | Assets/Quillombo/KayakPaddle.cs:46-53 | the force has no component along the boat's up axis |
| `KayakPaddle.ForceOpposesStroke` | Assets/Quillombo/KayakPaddle.cs:46-53 | pulling the tip backward along the boat's local x pushes the boat forward along it, and the other way round |
| `KayakPaddle.ForceBounded` | Assets/Quillombo/KayakPaddle.cs:46-53 | with a sideways factor in [−1, 1], the force is at most paddleForceMultiplier times the smoothed speed |
| `KayakPaddle.LocalForceShrinks` | Assets/Quillombo/KayakPaddle.cs:46-50 | the local force is never longer than the local velocity when the sideways factor is in [−1, 1] |
| `KayakPaddle.StillTipDecays` | Assets/Quillombo/KayakPaddle.cs:33-37 | a tip that has not moved only shrinks the smoothed velocity, by 1 − clamp01(dt·velocitySmoothing) |
| `KayakPaddle.OutOfWaterNoForce` | Assets/Quillombo/KayakPaddle.cs:40 | a tip outside the water box never produces a force |
| `FixedPaddle.OnGrab` | Assets/Quillombo/FixedPaddle.cs:47-51 | grabbed, with the blade's current position as the reference |
| `FixedPaddle.OnRelease` | Assets/Quillombo/FixedPaddle.cs:53-56 | released; the reference position is kept |
| `FixedPaddle.InWaterForces` | Assets/Quillombo/FixedPaddle.cs:36-43 | propulsion −bladeVelocity·strokeForce always; the counter-drag −pointVelocity·dragForce iff the blade speed is below 0.05; both at the blade tip |
| `FixedPaddle.FixedUpdate` | Assets/Quillombo/FixedPaddle.cs:26-45 | released or without a boat, nothing at all changes; otherwise the blade position is remembered; forces exist iff grabbed, with a boat, and the blade is strictly below waterLevel |
| `FixedPaddle.PropulsionOpposesStroke` | Assets/Quillombo/FixedPaddle.cs:30-36 | with a non-negative strokeForce, the propulsion points against the blade's displacement |
| `FixedPaddle.CounterDragOpposesBoatMotion` | Assets/Quillombo/FixedPaddle.cs:39-43 | with a non-negative dragForce, the counter-drag points against the boat's motion at the tip |
| `FixedPaddle.StillBladeAfterGrab` | Assets/Quillombo/FixedPaddle.cs:30-50 | right after a grab, a still blade under water gets zero propulsion and only the counter-drag |
| `FixedPaddle.ReleasedIsInert` | Assets/Quillombo/FixedPaddle.cs:53-56 | after a release every step is a no-op |
| `Swimmer.Stroke` | Assets/Quillombo/Swimmer.cs:37 | the stroke cancels the summed hand velocities |
| `Swimmer.Flatten` | Assets/Quillombo/Swimmer.cs:40-48 | without a head, the world y is dropped; with a head, the stroke's component along the head's up axis is dropped and the other two are kept |
| `Swimmer.FlattenIdempotent` | Assets/Quillombo/Swimmer.cs:40-48 | flattening twice is flattening once |
| `Swimmer.FlattenShrinks` | Assets/Quillombo/Swimmer.cs:40-48 | flattening never lengthens the stroke |
| `Swimmer.StrokeImpulse` | Assets/Quillombo/Swimmer.cs:27-56 | an impulse iff the timer exceeds minTimeBetweenStrokes, both buttons are held, and the flattened stroke is stronger than minForce; an impulse is flattened·swimForce as a VelocityChange and resets the timer to 0; otherwise the timer is kept |
| `Swimmer.SpinDrag` | Assets/Quillombo/Swimmer.cs:60-63 | drag iff the squared angular speed exceeds 0.01; it is −velocity·dragForce as an Acceleration |
| `Swimmer.FixedUpdate` | Assets/Quillombo/Swimmer.cs:23-64 | the timer advances by dt before the stroke test, then the spin drag follows the impulse; at most two forces |
| `Swimmer.TimerResetsOnlyOnStroke` | Assets/Quillombo/Swimmer.cs:25-54 | the timer is 0 after a step with an impulse and grows by dt after any other step |
| `Swimmer.ImpulseIsLevelWithoutHead` | Assets/Quillombo/Swimmer.cs:43-53 | without a tracking reference, the impulse has zero y |
| `Swimmer.ImpulseIsLevelInHeadFrame` | Assets/Quillombo/Swimmer.cs:40-53 | with a tracking reference, the impulse has no component along the head's up axis |
| `Swimmer.ImpulseOpposesHands` | Assets/Quillombo/Swimmer.cs:37-53 | without a head, the impulse points along the reversed horizontal hand motion |
| `Swimmer.NoStrokeWithoutBothButtons` | Assets/Quillombo/Swimmer.cs:27-29 | with either button released there is no impulse and the timer keeps running |
| `Swimmer.CooldownSpacesStrokes` | Assets/Quillombo/Swimmer.cs:25-54 | when dt does not exceed minTimeBetweenStrokes, the step after an impulse cannot stroke again |
| `Swimmer.SpinDragOpposesMotion` | Assets/Quillombo/Swimmer.cs:62 | with a non-negative dragForce, the spin drag points against the body's motion |
| `SwordChop.BreakLimit` | Assets/Quillombo/SwordChop.cs:39 | the squared maxBreakDistance when it is positive; no limit otherwise |
| `SwordChop.Midpoint` | Assets/Quillombo/SwordChop.cs:51-54 | halfway between the two anchors (equally far from each), or the joint's own anchor when it has no connected body |
| `SwordChop.UnconnectedMidpointIsAnchor` | Assets/Quillombo/SwordChop.cs:51-54 | a joint without a connected body breaks at its own anchor |
| `SwordChop.SelectJoint` | Assets/Quillombo/SwordChop.cs:44-66 | nothing is selected iff no contact–joint pair is strictly within the limit; otherwise the chosen pair is within it, no pair is closer, and every pair scanned before it is strictly farther (the first pair wins ties) |
| `SwordChop.BestIsUnique` | Assets/Quillombo/SwordChop.cs:56-62 | two selections that both qualify are the same pair |
| `SwordChop.NoLimitAlwaysChooses` | Assets/Quillombo/SwordChop.cs:39 | without a limit, any non-empty contacts and joints give a selection |
| `SwordChop.ChosenWithinReach` | Assets/Quillombo/SwordChop.cs:39-57 | with a positive maxBreakDistance, the chosen midpoint is strictly within that distance of its contact |
| `SwordChop.TryBreakAtCollision` | Assets/Quillombo/SwordChop.cs:24-79 | a layer outside the mask, a missing plant root, a cooling plant or a plant without joints changes nothing; otherwise a joint is broken iff some pair is within the limit, exactly one and the best, and the plant enters the cooldown set |
| `SwordChop.Expire` | Assets/Quillombo/SwordChop.cs:81-87 | after the wait the plant is out of the cooldown set and the others are unchanged |

## Left out

- Engine integration is not modelled. Nothing integrates the submitted forces, and `ForceMode` is only recorded. `WakeUp` (Assets/Quillombo/VrSwimmings.cs:64) and sleeping have no counterpart.
- Quaternions and transforms are not modelled. A rotation is the `Frame` of its three axis directions. `TransformPoint` of the joint anchors is taken as given world positions.
- Square roots are not computed. Magnitudes come in as arguments satisfying `IsNorm`.
- IEEE float behaviour is not modelled: rounding, infinities, NaN. The infinite joint threshold is the `Infinite` limit.
- Logging and debug drawing are left out. This includes `SimpleSwimming`'s unguarded `Debug.Log` (Assets/Quillombo/SimpleSwimming.cs:50), which dereferences both swim actions before the null-guarded press checks.
- Input-system plumbing is left out: `OnEnable` / `OnDisable` enabling actions, `ReadValue`, `IsPressed`. Pressed flags and controller velocities are inputs.
- The listener wiring in `FixedPaddle.Start` is left out.
- The scene lookups in `Awake` / `Start` (`GetComponent`, `GetComponentInChildren`) are left out. A missing reference is an `Option` or a flag.
- `VRSwimmingRoot` disabling itself when its body is missing is left out. So is its missing-collider warning.
- `BoatController.Awake` is left out. It sets `useGravity` and the engine's own angular damping, which are engine settings.
- `ApplyPaddleForce` in `BoatController` and `SimpleSwimming` is a single `AddForceAtPosition`. It is represented by the `AppliedForce` that `KayakPaddle.Update` returns.
- Missing references that the source dereferences without a guard are assumed assigned. These are `FixedPaddle`'s blade tip, `Swimmer`'s rigid body and input actions, and `SimpleSwimming`'s body in the drag step.
- `Swimmer`'s `Water` and `isInWater` fields are never read by the component, so they are not modelled.
- The `SwordChop` cooldown timing (coroutine and `WaitForSeconds`) is not modelled. It becomes the explicit `Expire` step.
- `SwordChop`'s `Destroy` becomes the index of the broken joint. Plant roots are identified by a number.
- The other scripts in Assets/Quillombo are not modelled: `BoatSeat.cs`, `ProbeTest.cs`, `PhysicsMovement.cs`, `GrabbPhysics.cs`, `OarHandleGrab.cs`, `PhysicsRig.cs`, `SwimmingTrigger.cs` and `trigger test.cs`. They hold XR interaction glue, logging, and a constant-force wrapper over the probe.
- `BoatController.ApplyBuoyancy`: states the count, verticality, mode and application points of the combined corner forces rather than their exact order. `BoatController.ApplyBuoyancyAtPoint` states each corner's forces exactly.
- `SimpleSwimming.ClampThrust`: its own contract covers only the unclamped case and the level case. The cap and direction are stated by `SimpleSwimming.ClampThrustIsSpeedCap` and `SimpleSwimming.ThrustWithinCap`.
- `KayakPaddle.Update`, `FixedPaddle.FixedUpdate`: require `dt > 0`, because the source divides by the frame time without a guard.
