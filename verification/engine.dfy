/**
 The pieces of the physics engine the scripts talk to, reduced to values: optional
 references, colliders with their tag and layer, layer masks, and the force
 contributions a step submits (which the engine integrates later).
 */
module Engine {
  import opened Vectors

  /** A scene reference that may be unassigned (`null`). */
  datatype Option<+T> = None | Some(value: T)

  /** Unity layers are numbered 0 to 31. */
  type Layer = l: int | 0 <= l < 32

  /** A `LayerMask` value: bit `i` set means layer `i` is selected. */
  type LayerMask = bv32

  /** `(mask & (1 << layer)) != 0` */
  predicate InLayerMask(mask: LayerMask, layer: Layer) {
    mask & ((1 as bv32) << layer) != 0
  }

  /** A collider as seen by a trigger callback; `id` stands for object identity. */
  datatype Collider = Collider(id: nat, isTrigger: bool, tag: string, layer: Layer)

  /** How the engine interprets a submitted vector. */
  datatype ForceMode = Force | Acceleration | VelocityChange

  /**
   One `AddForce` (`at == None`, applied at the centre of mass) or
   `AddForceAtPosition` (`at == Some(point)`) call.
   */
  datatype AppliedForce = AppliedForce(vector: Vec3, at: Option<Vec3>, mode: ForceMode)

  /** The force is along the world vertical axis. */
  predicate Vertical(f: AppliedForce) {
    f.vector.x == 0.0 && f.vector.z == 0.0
  }
}
