/**
  ExplodePerBone: each bone's collider receives the particle collision events of one particle
  system, keeps the first COLCOUNT of them, and forwards their positions and velocities to the
  ExplodeCollector found in its parents, if any.
*/
module PerBone {
  import opened Engine
  import opened Collision
  import Collector

  /**
    OnParticleCollision's loop: every event is visited, and event i is kept only while
    i < COLCOUNT; nothing else is filtered and the order is kept.
  */
  method TruncateEvents(events: seq<CollisionEvent>) returns (positions: seq<Vec3>, velocities: seq<Vec3>)
    ensures |positions| == |velocities| == Min(|events|, COLCOUNT)
    ensures forall i :: 0 <= i < |positions| ==>
              positions[i] == events[i].intersection && velocities[i] == events[i].velocity
  {
    positions, velocities := [], [];
    for i := 0 to |events|
      invariant |positions| == |velocities| == Min(i, COLCOUNT)
      invariant forall j :: 0 <= j < |positions| ==>
                  positions[j] == events[j].intersection && velocities[j] == events[j].velocity
    {
      var collision := events[i];
      var position := collision.intersection;
      var velocity := collision.velocity;
      if i < COLCOUNT {
        positions := positions + [position];
        velocities := velocities + [velocity];
      }
    }
  }

  /** Cutting a list to COLCOUNT before offering it never changes what a collector buffer keeps. */
  lemma TruncationIsInvisibleToCollector(buffer: seq<Vec3>, xs: seq<Vec3>)
    requires |buffer| <= COLCOUNT
    ensures Collector.Gathered(buffer, xs[..Min(|xs|, COLCOUNT)]) == Collector.Gathered(buffer, xs)
  {
    var k := Min(|xs|, COLCOUNT);
    var room := Collector.Room(buffer);
    assert Min(k, room) == Min(|xs|, room);
    assert xs[..k][..Min(k, room)] == xs[..Min(|xs|, room)];
  }

  /** The objects a nullable reference points to: none, or the one. */
  function Present(c: Collector.ExplodeCollector?): set<Collector.ExplodeCollector>
  {
    if c == null then {} else {c}
  }

  class ExplodePerBone {
    /** The ExplodeCollector of a parent, or null when none was found. */
    var explodeCollector: Collector.ExplodeCollector?

    /** Awake (and the retry in Start): look the collector up in the parents. */
    constructor (collectorInParents: Collector.ExplodeCollector?)
      ensures explodeCollector == collectorInParents
    {
      explodeCollector := collectorInParents;
    }

    /**
      OnParticleCollision: forward the first COLCOUNT events; a bone without a collector
      changes nothing. The collector's buffer ends up holding its old entries followed by as
      many of the events as fit, in the effect's local space.
    */
    method OnParticleCollision(events: seq<CollisionEvent>, vfxWorldToLocal: Matrix4x4)
      requires explodeCollector != null ==> explodeCollector.Valid()
      modifies Present(explodeCollector)`worldToLocal, Present(explodeCollector)`finalPositions,
               Present(explodeCollector)`finalVelocities
      ensures explodeCollector != null ==>
                && explodeCollector.Valid()
                && explodeCollector.worldToLocal == vfxWorldToLocal
                && explodeCollector.finalPositions
                     == Collector.Gathered(old(explodeCollector.finalPositions), LocalPoints(vfxWorldToLocal, Intersections(events)))
                && explodeCollector.finalVelocities
                     == Collector.Gathered(old(explodeCollector.finalVelocities), LocalVectors(vfxWorldToLocal, Velocities(events)))
    {
      var positions, velocities := TruncateEvents(events);
      if explodeCollector != null {
        ghost var k := Min(|events|, COLCOUNT);
        ghost var oldPositions := explodeCollector.finalPositions;
        ghost var oldVelocities := explodeCollector.finalVelocities;
        explodeCollector.CollectCollision(positions, velocities, vfxWorldToLocal);
        assert LocalPoints(vfxWorldToLocal, positions) == LocalPoints(vfxWorldToLocal, Intersections(events))[..k];
        assert velocities[..|positions|] == velocities;
        assert LocalVectors(vfxWorldToLocal, velocities) == LocalVectors(vfxWorldToLocal, Velocities(events))[..k];
        TruncationIsInvisibleToCollector(oldPositions, LocalPoints(vfxWorldToLocal, Intersections(events)));
        TruncationIsInvisibleToCollector(oldVelocities, LocalVectors(vfxWorldToLocal, Velocities(events)));
      }
    }
  }
}
