/**
 WaterProbe.cs: a trigger collider that remembers which water volumes it overlaps
 and publishes `isInWater`. A collider counts as water by layer when a layer mask
 is set, and by the tag "Water" otherwise.
 */
module WaterProbe {
  import opened Engine

  /**
   The probe's state: the identities of the overlapping water colliders and the
   published flag. The `HashSet<Collider>` compares colliders by object identity,
   so the set holds `Collider.id`s: a collider whose tag or layer changed while
   inside is still the same member.
   */
  datatype Probe = Probe(overlaps: set<nat>, isInWater: bool)

  /** A fresh component: nothing overlapped, not in water. */
  const Initial := Probe({}, false)

  const WaterTag := "Water"

  /** `isInWater` says exactly whether some water collider overlaps. */
  predicate Consistent(p: Probe) {
    p.isInWater <==> p.overlaps != {}
  }

  /** `IsWater`: the layer bit decides when the mask is non-zero; otherwise the tag does. */
  predicate IsWater(waterLayers: LayerMask, other: Collider) {
    if waterLayers != 0 then InLayerMask(waterLayers, other.layer) else other.tag == WaterTag
  }

  /** With a layer mask set, the tag plays no part. */
  lemma MaskIgnoresTag(waterLayers: LayerMask, other: Collider, tag: string)
    requires waterLayers != 0
    ensures IsWater(waterLayers, other) <==> IsWater(waterLayers, other.(tag := tag))
  {
  }

  /** `OnTriggerEnter`: a water collider is added and the flag raised; anything else is ignored. */
  function OnTriggerEnter(waterLayers: LayerMask, p: Probe, other: Collider): (q: Probe)
    ensures !IsWater(waterLayers, other) ==> q == p
    ensures IsWater(waterLayers, other) ==> q.overlaps == p.overlaps + {other.id} && q.isInWater
    ensures Consistent(p) ==> Consistent(q)
  {
    if !IsWater(waterLayers, other) then p else Probe(p.overlaps + {other.id}, true)
  }

  /** `OnTriggerStay` does what entering does, so a probe that starts inside water catches up. */
  function OnTriggerStay(waterLayers: LayerMask, p: Probe, other: Collider): (q: Probe)
    ensures !IsWater(waterLayers, other) ==> q == p
    ensures IsWater(waterLayers, other) ==> other.id in q.overlaps && q.isInWater
    ensures q == OnTriggerEnter(waterLayers, p, other)
  {
    if !IsWater(waterLayers, other) then p else Probe(p.overlaps + {other.id}, true)
  }

  /** `OnTriggerExit`: a water collider is removed and the flag recomputed from the set. */
  function OnTriggerExit(waterLayers: LayerMask, p: Probe, other: Collider): (q: Probe)
    ensures !IsWater(waterLayers, other) ==> q == p
    ensures IsWater(waterLayers, other) ==> q.overlaps == p.overlaps - {other.id} && other.id !in q.overlaps
    ensures IsWater(waterLayers, other) ==> (q.isInWater <==> |q.overlaps| > 0)
    ensures Consistent(p) ==> Consistent(q)
  {
    if !IsWater(waterLayers, other) then p
    else
      var rest := p.overlaps - {other.id};
      Probe(rest, |rest| > 0)
  }

  /** `OnDisable`: forget every overlap. */
  function OnDisable(p: Probe): (q: Probe)
    ensures q.overlaps == {} && !q.isInWater && Consistent(q)
  {
    Initial
  }

  datatype Event = Enter(other: Collider) | Stay(other: Collider) | Exit(other: Collider) | Disable

  function Apply(waterLayers: LayerMask, p: Probe, e: Event): Probe {
    match e
    case Enter(other) => OnTriggerEnter(waterLayers, p, other)
    case Stay(other) => OnTriggerStay(waterLayers, p, other)
    case Exit(other) => OnTriggerExit(waterLayers, p, other)
    case Disable => OnDisable(p)
  }

  function Run(waterLayers: LayerMask, p: Probe, events: seq<Event>): Probe
    decreases |events|
  {
    if events == [] then p else Run(waterLayers, Apply(waterLayers, p, events[0]), events[1..])
  }

  /** From a fresh probe, every sequence of callbacks keeps the flag and the set in agreement. */
  lemma {:induction false} RunConsistent(waterLayers: LayerMask, p: Probe, events: seq<Event>)
    requires Consistent(p)
    ensures Consistent(Run(waterLayers, p, events))
    decreases |events|
  {
    if events != [] {
      RunConsistent(waterLayers, Apply(waterLayers, p, events[0]), events[1..]);
    }
  }

  /** Event `e` is an enter or stay callback that found collider `id` to be water. */
  predicate AddedBy(waterLayers: LayerMask, e: Event, id: nat) {
    (e.Enter? || e.Stay?) && IsWater(waterLayers, e.other) && e.other.id == id
  }

  /**
   The probe only ever remembers water: every identity in the set after a run was
   already there, or was added by an enter or stay callback of the run that found
   that collider to be water.
   */
  lemma {:induction false} RunOnlyWater(waterLayers: LayerMask, p: Probe, events: seq<Event>)
    ensures forall id :: id in Run(waterLayers, p, events).overlaps ==>
              id in p.overlaps || exists k :: 0 <= k < |events| && AddedBy(waterLayers, events[k], id)
    decreases |events|
  {
    if events != [] {
      var q := Apply(waterLayers, p, events[0]);
      var rest := events[1..];
      RunOnlyWater(waterLayers, q, rest);
      forall id | id in Run(waterLayers, p, events).overlaps
        ensures id in p.overlaps || exists k :: 0 <= k < |events| && AddedBy(waterLayers, events[k], id)
      {
        if id !in p.overlaps {
          if id in q.overlaps {
            assert AddedBy(waterLayers, events[0], id);
          } else {
            var k :| 0 <= k < |rest| && AddedBy(waterLayers, rest[k], id);
            assert events[k + 1] == rest[k];
          }
        }
      }
    }
  }

  /**
   Identity, not the collider's current fields, decides membership: with a layer
   mask set, a water collider whose tag changed while inside still leaves the set
   on exit, and the probe is dry again.
   */
  lemma TagChangeStillExits(waterLayers: LayerMask, a: Collider, tag: string)
    requires waterLayers != 0 && IsWater(waterLayers, a)
    ensures var q := Run(waterLayers, Initial, [Enter(a), Exit(a.(tag := tag))]);
            q.overlaps == {} && !q.isInWater
  {
    var b := a.(tag := tag);
    MaskIgnoresTag(waterLayers, a, tag);
    var q1 := OnTriggerEnter(waterLayers, Initial, a);
    var q2 := OnTriggerExit(waterLayers, q1, b);
    assert q1.overlaps == {a.id};
    assert b.id == a.id && q2.overlaps == {};
    var events := [Enter(a), Exit(b)];
    assert events[1..] == [Exit(b)] && [Exit(b)][1..] == [];
    assert Run(waterLayers, q2, []) == q2;
    assert Run(waterLayers, q1, [Exit(b)]) == q2;
    assert Run(waterLayers, Initial, events) == Run(waterLayers, q1, [Exit(b)]);
  }

  /** `n` enter callbacks for the same collider. */
  function Enters(other: Collider, n: nat): (events: seq<Event>)
    ensures |events| == n
    ensures forall i :: 0 <= i < n ==> events[i] == Enter(other)
  {
    if n == 0 then [] else [Enter(other)] + Enters(other, n - 1)
  }

  /** However often a collider entered, one exit forgets it. */
  lemma {:induction false} RepeatedEntersOneExit(waterLayers: LayerMask, p: Probe, other: Collider, n: nat)
    requires IsWater(waterLayers, other)
    ensures other.id !in Run(waterLayers, p, Enters(other, n) + [Exit(other)]).overlaps
    ensures Run(waterLayers, p, Enters(other, n) + [Exit(other)]).overlaps == p.overlaps - {other.id}
    decreases n
  {
    if n == 0 {
      assert Enters(other, 0) + [Exit(other)] == [Exit(other)];
    } else {
      var q := OnTriggerEnter(waterLayers, p, other);
      assert Enters(other, n) + [Exit(other)] == [Enter(other)] + (Enters(other, n - 1) + [Exit(other)]);
      RepeatedEntersOneExit(waterLayers, q, other, n - 1);
      assert q.overlaps - {other.id} == p.overlaps - {other.id};
    }
  }
}
