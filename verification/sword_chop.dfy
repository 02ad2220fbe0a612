/**
 SwordChop.cs: a sword that, on touching a plant, breaks the one joint of that
 plant whose midpoint lies closest to any contact point, and then leaves the plant
 alone for a cooldown. Contacts and joints are scanned in order; a later pair
 replaces the current best only when strictly closer, so the first of equally
 close pairs wins.
 */
module SwordChop {
  import opened Mathf
  import opened Vectors
  import opened Engine

  datatype Config = Config(plantLayer: LayerMask, maxBreakDistance: real, plantCutCooldownSeconds: real)

  /** The inspector defaults (the plant layer mask is left empty). */
  const Defaults := Config(0, 0.4, 0.5)

  /**
   A `ConfigurableJoint` with its anchor already in world space, and the world
   position of its connected anchor when it has a connected body.
   */
  datatype Joint = Joint(anchor: Vec3, connectedAnchor: Option<Vec3>)

  /** A collision as the callback sees it: the other object's layer, its plant root, the contact points. */
  datatype Collision = Collision(layer: Layer, plant: Option<nat>, contacts: seq<Vec3>)

  /** The squared-distance limit a pair must beat: `maxBreakDistance²`, or no limit at all. */
  datatype Limit = Finite(sqr: real) | Infinite

  /** `maxBreakDistance > 0 ? maxBreakDistance² : +∞` */
  function BreakLimit(c: Config): (l: Limit)
    ensures c.maxBreakDistance > 0.0 ==> l == Finite(Sq(c.maxBreakDistance))
    ensures c.maxBreakDistance <= 0.0 ==> l == Infinite
  {
    if c.maxBreakDistance > 0.0 then Finite(Sq(c.maxBreakDistance)) else Infinite
  }

  /** `sqr < limit`, where every real is below the infinite limit. */
  predicate Below(sqr: real, l: Limit) {
    l.Infinite? || sqr < l.sqr
  }

  /** The joint's midpoint: halfway between its two anchors, or its own anchor when unconnected. */
  function Midpoint(j: Joint): (m: Vec3)
    ensures j.connectedAnchor.None? ==> m == j.anchor
    ensures j.connectedAnchor.Some? ==> Sub(m, j.anchor) == Sub(j.connectedAnchor.value, m)
  {
    var b := if j.connectedAnchor.Some? then j.connectedAnchor.value else j.anchor;
    Scale(Add(j.anchor, b), 0.5)
  }

  /** An unconnected joint breaks at its own anchor. */
  lemma UnconnectedMidpointIsAnchor(j: Joint)
    requires j.connectedAnchor.None?
    ensures Midpoint(j) == j.anchor
  {
  }

  /** The squared distance between contact `ci` and the midpoint of joint `ji`. */
  function PairSqr(contacts: seq<Vec3>, joints: seq<Joint>, ci: int, ji: int): real
    requires 0 <= ci < |contacts| && 0 <= ji < |joints|
  {
    SqrMagnitude(Sub(Midpoint(joints[ji]), contacts[ci]))
  }

  /** Pair `(c, j)` is scanned before `(ci, ji)`: contacts outside, joints inside. */
  predicate Earlier(c: int, j: int, ci: int, ji: int) {
    c < ci || (c == ci && j < ji)
  }

  /** The selected pair, its squared distance, and the midpoint to break at. */
  datatype Choice = Choice(contact: nat, joint: nat, sqr: real, position: Vec3)

  /** `ch` names a valid pair and carries that pair's distance and midpoint. */
  predicate Describes(contacts: seq<Vec3>, joints: seq<Joint>, ch: Choice) {
    && ch.contact < |contacts| && ch.joint < |joints|
    && ch.sqr == PairSqr(contacts, joints, ch.contact, ch.joint)
    && ch.position == Midpoint(joints[ch.joint])
  }

  /**
   `ch` is what the scan keeps: it beats the limit, no pair is closer, and every
   pair scanned before it is strictly farther.
   */
  predicate IsBest(contacts: seq<Vec3>, joints: seq<Joint>, limit: Limit, ch: Choice) {
    && Describes(contacts, joints, ch)
    && Below(ch.sqr, limit)
    && (forall c, j :: 0 <= c < |contacts| && 0 <= j < |joints| ==> PairSqr(contacts, joints, c, j) >= ch.sqr)
    && (forall c, j :: 0 <= c < |contacts| && 0 <= j < |joints| && Earlier(c, j, ch.contact, ch.joint) ==>
          PairSqr(contacts, joints, c, j) > ch.sqr)
  }

  /** No pair beats the limit. */
  predicate NoneBelow(contacts: seq<Vec3>, joints: seq<Joint>, limit: Limit) {
    forall c, j :: 0 <= c < |contacts| && 0 <= j < |joints| ==> !Below(PairSqr(contacts, joints, c, j), limit)
  }

  /** The limit the scan currently compares against. */
  function Current(limit: Limit, best: Option<Choice>): Limit {
    if best.Some? then Finite(best.value.sqr) else limit
  }

  /** The scan over every contact and joint pair. */
  method SelectJoint(contacts: seq<Vec3>, joints: seq<Joint>, limit: Limit) returns (best: Option<Choice>)
    ensures best.None? <==> NoneBelow(contacts, joints, limit)
    ensures best.Some? ==> IsBest(contacts, joints, limit, best.value)
  {
    best := None;
    var ci := 0;
    while ci < |contacts|
      invariant 0 <= ci <= |contacts|
      invariant best.None? ==>
        forall c, j :: 0 <= c < ci && 0 <= j < |joints| ==> !Below(PairSqr(contacts, joints, c, j), limit)
      invariant best.Some? ==>
        && Describes(contacts, joints, best.value) && best.value.contact < ci
        && Below(best.value.sqr, limit)
        && (forall c, j :: 0 <= c < ci && 0 <= j < |joints| ==> PairSqr(contacts, joints, c, j) >= best.value.sqr)
        && (forall c, j :: 0 <= c < ci && 0 <= j < |joints| && Earlier(c, j, best.value.contact, best.value.joint) ==>
              PairSqr(contacts, joints, c, j) > best.value.sqr)
    {
      var ji := 0;
      while ji < |joints|
        invariant 0 <= ji <= |joints|
        invariant best.None? ==>
          forall c, j :: 0 <= c < |contacts| && 0 <= j < |joints| && Earlier(c, j, ci, ji) ==>
            !Below(PairSqr(contacts, joints, c, j), limit)
        invariant best.Some? ==>
          && Describes(contacts, joints, best.value) && Earlier(best.value.contact, best.value.joint, ci, ji)
          && Below(best.value.sqr, limit)
          && (forall c, j :: 0 <= c < |contacts| && 0 <= j < |joints| && Earlier(c, j, ci, ji) ==>
                PairSqr(contacts, joints, c, j) >= best.value.sqr)
          && (forall c, j :: 0 <= c < |contacts| && 0 <= j < |joints| && Earlier(c, j, best.value.contact, best.value.joint) ==>
                PairSqr(contacts, joints, c, j) > best.value.sqr)
      {
        var mid := Midpoint(joints[ji]);
        var sqr := SqrMagnitude(Sub(mid, contacts[ci]));
        if Below(sqr, Current(limit, best)) {
          best := Some(Choice(ci, ji, sqr, mid));
        }
        ji := ji + 1;
      }
      ci := ci + 1;
    }
  }

  /** The scan's answer is determined: two choices that both qualify name the same pair. */
  lemma BestIsUnique(contacts: seq<Vec3>, joints: seq<Joint>, limit: Limit, a: Choice, b: Choice)
    requires IsBest(contacts, joints, limit, a) && IsBest(contacts, joints, limit, b)
    ensures a == b
  {
  }

  /** Without a distance limit any contact and any joint give a choice. */
  lemma NoLimitAlwaysChooses(contacts: seq<Vec3>, joints: seq<Joint>)
    requires |contacts| > 0 && |joints| > 0
    ensures !NoneBelow(contacts, joints, Infinite)
  {
    assert Below(PairSqr(contacts, joints, 0, 0), Infinite);
  }

  /** With a positive limit the chosen midpoint is strictly within `maxBreakDistance` of its contact. */
  lemma ChosenWithinReach(c: Config, contacts: seq<Vec3>, joints: seq<Joint>, ch: Choice)
    requires c.maxBreakDistance > 0.0
    requires IsBest(contacts, joints, BreakLimit(c), ch)
    ensures MagnitudeBelow(Sub(ch.position, contacts[ch.contact]), c.maxBreakDistance)
  {
  }

  /** The per-plant cooldown set, and the joint a call broke (an index into the plant's joints). */
  datatype Outcome = Outcome(cooldown: set<nat>, broken: Option<nat>)

  /**
   `TryBreakAtCollision`, for the plant's active joints `joints`. Nothing happens
   for a collider outside `plantLayer`, without a plant root, for a plant that is
   cooling down, or for a plant without joints. Otherwise at most the best joint is
   destroyed and the plant enters the cooldown set.
   */
  method TryBreakAtCollision(c: Config, cooldown: set<nat>, col: Collision, joints: seq<Joint>)
      returns (r: Outcome, choice: Option<Choice>)
    ensures !InLayerMask(c.plantLayer, col.layer) ==> r == Outcome(cooldown, None)
    ensures col.plant.None? || col.plant.value in cooldown || joints == [] ==> r == Outcome(cooldown, None)
    ensures r.broken.None? ==> r.cooldown == cooldown
    ensures r.broken.Some? ==>
              && InLayerMask(c.plantLayer, col.layer) && col.plant.Some? && col.plant.value !in cooldown
              && r.cooldown == cooldown + {col.plant.value}
              && choice.Some? && r.broken == Some(choice.value.joint)
              && IsBest(col.contacts, joints, BreakLimit(c), choice.value)
    ensures InLayerMask(c.plantLayer, col.layer) && col.plant.Some? && col.plant.value !in cooldown && joints != [] ==>
              (r.broken.None? <==> NoneBelow(col.contacts, joints, BreakLimit(c)))
  {
    choice := None;
    if !InLayerMask(c.plantLayer, col.layer) || col.plant.None? || col.plant.value in cooldown || joints == [] {
      return Outcome(cooldown, None), choice;
    }
    choice := SelectJoint(col.contacts, joints, BreakLimit(c));
    if choice.None? {
      return Outcome(cooldown, None), choice;
    }
    r := Outcome(cooldown + {col.plant.value}, Some(choice.value.joint));
  }

  /** The end of `PlantCooldown`: after the wait the plant may be cut again. */
  function Expire(cooldown: set<nat>, plant: nat): (r: set<nat>)
    ensures plant !in r
    ensures r + {plant} == cooldown + {plant}
  {
    cooldown - {plant}
  }
}
