/**
 The water volume: the world-space bounds of a box collider, and the submersion
 query the floaters run against it (`PointInsideWater` in BoatController.cs and
 the centre-of-mass variant in SimpleSwimming.cs).
 */
module WaterVolume {
  import opened Mathf
  import opened Vectors

  /** `Collider.bounds`: an axis-aligned box given by its corners. */
  datatype Bounds = Bounds(min: Vec3, max: Vec3)

  /** `Bounds.Contains`: all faces are inclusive. */
  predicate Contains(b: Bounds, p: Vec3) {
    && b.min.x <= p.x <= b.max.x
    && b.min.y <= p.y <= b.max.y
    && b.min.z <= p.z <= b.max.z
  }

  /** The water surface: `bounds.max.y`. */
  function Top(b: Bounds): real {
    b.max.y
  }

  /** `bounds.size.y` */
  function Height(b: Bounds): real {
    b.max.y - b.min.y
  }

  /** Depths at or below this count as "at the surface", not submerged. */
  const SubmergedEpsilon := 0.01

  datatype Submersion = Submersion(depth: real, submerged: bool)

  /** The answer for a point outside the volume. */
  const Dry := Submersion(0.0, false)

  /**
   The submersion of point `p`: outside the box the point is dry; inside, the depth
   is `Top - p.y` clamped to `[0, Height]`, and the point is submerged when that
   depth exceeds `SubmergedEpsilon`.
   */
  function DepthAt(b: Bounds, p: Vec3): (s: Submersion)
    ensures !Contains(b, p) ==> s == Dry
    ensures s.depth >= 0.0
    ensures Contains(b, p) ==> s.depth <= Height(b)
    ensures Contains(b, p) ==> s.depth == Top(b) - p.y
    ensures s.submerged <==> Contains(b, p) && s.depth > SubmergedEpsilon
  {
    if !Contains(b, p) then Dry
    else
      var depth := Clamp(Top(b) - p.y, 0.0, Height(b));
      Submersion(depth, depth > SubmergedEpsilon)
  }

  /** Inside the volume a higher point is never deeper. */
  lemma DepthDecreasesWithHeight(b: Bounds, p: Vec3, q: Vec3)
    requires Contains(b, p) && Contains(b, q)
    requires p.y <= q.y
    ensures DepthAt(b, q).depth <= DepthAt(b, p).depth
    ensures p.y < q.y ==> DepthAt(b, q).depth < DepthAt(b, p).depth
  {
  }

  /** Submerged means: inside the box and more than `SubmergedEpsilon` below its top. */
  lemma SubmergedIffBelowSurface(b: Bounds, p: Vec3)
    ensures DepthAt(b, p).submerged <==> Contains(b, p) && p.y < Top(b) - SubmergedEpsilon
  {
  }

  /** A point strictly above the surface is dry. */
  lemma AboveSurfaceIsDry(b: Bounds, p: Vec3)
    requires p.y > Top(b)
    ensures DepthAt(b, p) == Dry
  {
  }
}
