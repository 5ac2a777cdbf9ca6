/**
  ExplodeIndividual: a component on the effect itself that reacts to the particle collisions
  it receives in one of three modes (Single, Average, Burst), pushes the explosion to its
  effect, and restores the resting values when the scheduled Reset runs.
*/
module Individual {
  import opened Engine
  import opened Collision
  import Collector

  /** List<T>.Insert(i, x): x placed at index i, later entries shifted up. */
  function Insert<T>(s: seq<T>, i: nat, x: T): seq<T>
    requires i <= |s|
  {
    s[..i] + [x] + s[i..]
  }

  /**
    A Burst texture row: entry i is the i-th local vector when there is one, else the
    sentinel; exactly COLCOUNT entries whatever the number of events.
  */
  function BurstRow(locals: seq<Vec3>, sentinel: Vec3): (r: seq<Vec3>)
    ensures |r| == COLCOUNT
    ensures forall i :: 0 <= i < COLCOUNT ==> r[i] == if i < |locals| then locals[i] else sentinel
  {
    seq(COLCOUNT, i requires 0 <= i => if i < |locals| then locals[i] else sentinel)
  }

  /**
    The Burst mode's loop: for i below COLCOUNT, the local position and velocity of event i
    if there is one, else the sentinels, inserted at index i.
  */
  method PackBurst(events: seq<CollisionEvent>, worldToLocal: Matrix4x4) returns (positions: seq<Vec3>, velocities: seq<Vec3>)
    ensures positions == BurstRow(LocalPoints(worldToLocal, Intersections(events)), COLPOS)
    ensures velocities == BurstRow(LocalVectors(worldToLocal, Velocities(events)), COLVEL)
  {
    var count := |events|;
    positions, velocities := [], [];
    for i := 0 to COLCOUNT
      invariant |positions| == |velocities| == i
      invariant forall j :: 0 <= j < i ==>
                  positions[j] == if j < count then MultiplyPoint3x4(worldToLocal, events[j].intersection) else COLPOS
      invariant forall j :: 0 <= j < i ==>
                  velocities[j] == if j < count then MultiplyVector(worldToLocal, events[j].velocity) else COLVEL
    {
      var localPosition := COLPOS;
      var localVelocity := COLVEL;
      if i < count {
        var collision := events[i];
        localPosition := MultiplyPoint3x4(worldToLocal, collision.intersection);
        localVelocity := MultiplyVector(worldToLocal, collision.velocity);
      }
      positions := Insert(positions, i, localPosition);
      velocities := Insert(velocities, i, localVelocity);
    }
  }

  /**
    A Burst row is what the collector's path (bones gather into an empty buffer, then the
    buffer is padded) produces for the same local vectors: the two designs fill the texture
    identically for one batch of events.
  */
  lemma BurstRowIsPaddedGather(locals: seq<Vec3>, sentinel: Vec3)
    ensures BurstRow(locals, sentinel) == Collector.Pad(Collector.Gathered([], locals), sentinel)
  {
    var gathered := Collector.Gathered([], locals);
    var padded := Collector.Pad(gathered, sentinel);
    assert gathered == locals[..Min(|locals|, COLCOUNT)];
    forall i | 0 <= i < COLCOUNT
      ensures BurstRow(locals, sentinel)[i] == padded[i]
    {
      if i < |gathered| {
        assert padded[..|gathered|][i] == gathered[i];
      }
    }
  }

  class ExplodeIndividual {
    const explodeType: ExplodeType
    /** The serialized COLRADIUS field. */
    const colRadius: real
    /** Whether the effect graph exposes a "Collision Texture" property (VisualEffect.HasTexture). */
    const graphHasTexture: bool
    /** The COLCOUNT x PROPCOUNT texture created at start-up. */
    const collisionTexture: array2<Color>

    var hasExplode: bool
    var worldToLocal: Matrix4x4
    var position: Vec3
    var velocity: Vec3
    var radius: real
    /** The last Burst rows, kept for drawing gizmos; empty until the first Burst. */
    var posTest: seq<Vec3>
    var velTest: seq<Vec3>

    /** Setter calls made on the effect, oldest first. */
    ghost var effectLog: seq<EffectCall>
    /** Reset calls scheduled by `Invoke("Reset", ...)` that have not run yet. */
    ghost var pendingResets: nat

    ghost predicate Valid()
      reads this
    {
      && collisionTexture.Length0 == COLCOUNT && collisionTexture.Length1 == PROPCOUNT
      && |posTest| == |velTest|
    }

    /** Awake and InitializeTexture: own matrix, a reset texture bound to the effect, empty gizmo lists. */
    constructor (explodeType: ExplodeType, colRadius: real, graphHasTexture: bool, ownWorldToLocal: Matrix4x4)
      ensures Valid() && fresh(collisionTexture)
      ensures HoldsRows(collisionTexture, Sentinels(COLPOS), Sentinels(COLVEL))
      ensures this.explodeType == explodeType && this.colRadius == colRadius && this.graphHasTexture == graphHasTexture
      ensures worldToLocal == ownWorldToLocal && !hasExplode
      ensures posTest == [] && velTest == []
      ensures effectLog == [SetTexture("Collision Texture", Generated)] && pendingResets == 0
    {
      this.explodeType := explodeType;
      this.colRadius := colRadius;
      this.graphHasTexture := graphHasTexture;
      worldToLocal := ownWorldToLocal;
      collisionTexture := new Color[COLCOUNT, PROPCOUNT];
      hasExplode := false;
      position, velocity, radius := Zero3, Zero3, 0.0;
      posTest, velTest := [], [];
      new;
      ResetTexture(collisionTexture);
      effectLog := [SetTexture("Collision Texture", Generated)];
      pendingResets := 0;
    }

    /** Explode: push the contact (or the texture) and the radius, and schedule a Reset. */
    method Explode(contactPosition: Vec3, relativeVelocity: Vec3, collisionRadius: real)
      modifies this`hasExplode, this`effectLog, this`pendingResets
      ensures hasExplode
      ensures effectLog == old(effectLog) + ExplodeCalls(graphHasTexture, contactPosition, relativeVelocity, collisionRadius)
      ensures pendingResets == old(pendingResets) + 1
    {
      if !graphHasTexture {
        effectLog := effectLog + [SetVector3("Contact Position", contactPosition), SetVector3("Collider Velocity", relativeVelocity)];
      } else {
        effectLog := effectLog + [SetTexture("Collision Texture", Generated)];
      }
      effectLog := effectLog + [SetFloat("Collision Radius", collisionRadius)];
      hasExplode := true;
      pendingResets := pendingResets + 1;
    }

    /**
      OnParticleCollision: reset the contact to zero, take the effect's current matrix, compute
      the contact for the mode, and explode. Single reads the first event, so with no event it
      stops with an index error before exploding; `completed` is false exactly then.
      `distance` is the engine's Vector3.Distance.
    */
    method OnParticleCollision(events: seq<CollisionEvent>, vfxWorldToLocal: Matrix4x4, distance: (Vec3, Vec3) -> real)
      returns (completed: bool)
      requires Valid()
      modifies this, collisionTexture
      ensures Valid() && worldToLocal == vfxWorldToLocal
      ensures completed <==> !(explodeType == Single && |events| == 0)
      ensures !completed ==> position == Zero3 && velocity == Zero3 && radius == 0.0
      ensures completed && explodeType == Single ==>
                && position == MultiplyPoint3x4(vfxWorldToLocal, events[0].intersection)
                && velocity == MultiplyVector(vfxWorldToLocal, events[0].velocity)
                && radius == colRadius
      ensures explodeType == Average ==> (position, velocity, radius) == AverageOf(vfxWorldToLocal, events, distance)
      ensures explodeType == Burst ==>
                && position == Zero3 && velocity == Zero3 && radius == colRadius
                && posTest == BurstRow(LocalPoints(vfxWorldToLocal, Intersections(events)), COLPOS)
                && velTest == BurstRow(LocalVectors(vfxWorldToLocal, Velocities(events)), COLVEL)
                && HoldsRows(collisionTexture, posTest, velTest)
      ensures explodeType != Burst ==> posTest == old(posTest) && velTest == old(velTest) && unchanged(collisionTexture)
      ensures completed ==> hasExplode && pendingResets == old(pendingResets) + 1
      ensures completed ==> effectLog == old(effectLog) + ExplodeCalls(graphHasTexture, position, velocity, radius)
      ensures !completed ==> hasExplode == old(hasExplode) && effectLog == old(effectLog) && pendingResets == old(pendingResets)
    {
      position := Zero3;
      velocity := Zero3;
      radius := 0.0;
      worldToLocal := vfxWorldToLocal;
      completed := true;
      match explodeType {
        case Single =>
          if |events| == 0 {
            completed := false;
            return;
          }
          position := MultiplyPoint3x4(worldToLocal, events[0].intersection);
          velocity := MultiplyVector(worldToLocal, events[0].velocity);
          radius := colRadius;
        case Average =>
          var averages := AverageOf(worldToLocal, events, distance);
          position, velocity, radius := averages.0, averages.1, averages.2;
        case Burst =>
          radius := colRadius;
          var positions, velocities := PackBurst(events, worldToLocal);
          GenerateTexture(collisionTexture, positions, velocities);
          posTest := positions;
          velTest := velocities;
      }
      Explode(position, velocity, radius);
    }

    /**
      Reset, run when a scheduled call falls due: a no-op unless an explosion is showing.
      With a texture graph it resets the texture, rebinds it, then overwrites the first
      COLCOUNT gizmo entries; before the first Burst those lists are empty and the first write
      is out of range, so the radius is never restored and hasExplode stays true.
      `completed` is false exactly when that happens.
    */
    method Reset() returns (completed: bool)
      requires Valid() && pendingResets > 0
      modifies this`hasExplode, this`effectLog, this`pendingResets, this`posTest, this`velTest, collisionTexture
      ensures Valid()
      ensures pendingResets == old(pendingResets) - 1
      ensures completed <==> !(old(hasExplode) && graphHasTexture && |old(posTest)| < COLCOUNT)
      ensures !old(hasExplode) ==> !hasExplode && effectLog == old(effectLog)
      ensures !(old(hasExplode) && graphHasTexture) ==>
                posTest == old(posTest) && velTest == old(velTest) && unchanged(collisionTexture)
      ensures old(hasExplode) && !graphHasTexture ==>
                !hasExplode && effectLog == old(effectLog) + ResetCalls(false, colRadius)
      ensures old(hasExplode) && graphHasTexture ==>
                && HoldsRows(collisionTexture, Sentinels(COLPOS), Sentinels(COLVEL))
                && posTest == Overwritten(old(posTest), COLPOS)
                && velTest == Overwritten(old(velTest), COLVEL)
      ensures old(hasExplode) && graphHasTexture && completed ==>
                !hasExplode && effectLog == old(effectLog) + ResetCalls(true, colRadius)
      ensures old(hasExplode) && graphHasTexture && !completed ==>
                hasExplode && effectLog == old(effectLog) + [SetTexture("Collision Texture", Generated)]
    {
      pendingResets := pendingResets - 1;
      completed := true;
      if hasExplode {
        if !graphHasTexture {
          effectLog := effectLog + [SetVector3("Contact Position", COLPOS), SetVector3("Collider Velocity", COLVEL)];
        } else {
          ResetTexture(collisionTexture);
          effectLog := effectLog + [SetTexture("Collision Texture", Generated)];
          var i := 0;
          while i < COLCOUNT
            invariant 0 <= i <= COLCOUNT && i <= |old(posTest)|
            modifies this`posTest, this`velTest
            invariant posTest == OverwrittenBelow(old(posTest), COLPOS, i)
            invariant velTest == OverwrittenBelow(old(velTest), COLVEL, i)
          {
            if i >= |posTest| {
              completed := false;
              break;
            }
            posTest := posTest[i := COLPOS];
            velTest := velTest[i := COLVEL];
            i := i + 1;
          }
          if !completed {
            return;
          }
        }
        effectLog := effectLog + [SetFloat("Collision Radius", colRadius)];
        hasExplode := false;
      }
    }
  }

  /** s with its entries below n replaced by v. */
  function OverwrittenBelow(s: seq<Vec3>, v: Vec3, n: nat): (r: seq<Vec3>)
    ensures |r| == |s|
  {
    seq(|s|, j requires 0 <= j < |s| => if j < n then v else s[j])
  }

  /**
    The gizmo list after Reset's loop: every entry it reaches holds v. The loop reaches all of
    a list of COLCOUNT or more entries, and all of a shorter list before it fails.
  */
  function Overwritten(s: seq<Vec3>, v: Vec3): (r: seq<Vec3>)
    ensures |r| == |s|
    ensures forall j :: 0 <= j < |s| ==> r[j] == if j < COLCOUNT then v else s[j]
  {
    OverwrittenBelow(s, v, COLCOUNT)
  }
}
