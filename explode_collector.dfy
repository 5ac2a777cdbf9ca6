/**
  ExplodeCollector: gathers the contacts every bone reports during a frame into two bounded
  lists (positions and velocities, in the effect's local space), and at the end of the frame
  pads them with the sentinels to COLCOUNT entries, writes them into the 5x2 collision
  texture, explodes, and clears the lists. `hasExplode` blocks a new texture until the
  scheduled Reset has run.
*/
module Collector {
  import opened Engine
  import opened Collision

  /** Places left in a buffer before it holds COLCOUNT entries. */
  function Room(buffer: seq<Vec3>): nat
  {
    if |buffer| < COLCOUNT then COLCOUNT - |buffer| else 0
  }

  /**
    A buffer after CollectCollision has offered it `incoming`: the entries already there stay
    in front, then as many incoming entries as fit, in their order; the rest are dropped.
  */
  function Gathered(buffer: seq<Vec3>, incoming: seq<Vec3>): (r: seq<Vec3>)
    ensures |buffer| <= COLCOUNT ==> |r| == Min(COLCOUNT, |buffer| + |incoming|)
    ensures |buffer| <= |r| <= |buffer| + |incoming| && r[..|buffer|] == buffer
    ensures forall i :: |buffer| <= i < |r| ==> r[i] == incoming[i - |buffer|]
  {
    buffer + incoming[..Min(|incoming|, Room(buffer))]
  }

  /** Offering two lists one after the other is offering their concatenation. */
  lemma GatheredConcat(buffer: seq<Vec3>, xs: seq<Vec3>, ys: seq<Vec3>)
    requires |buffer| <= COLCOUNT
    ensures Gathered(Gathered(buffer, xs), ys) == Gathered(buffer, xs + ys)
  {
    var k := Min(|xs|, Room(buffer));
    var first := Gathered(buffer, xs);
    assert first == buffer + xs[..k];
    if k == |xs| {
      var j := Min(|ys|, Room(first));
      assert (xs + ys)[..Min(|xs + ys|, Room(buffer))] == xs + ys[..j];
    } else {
      assert Room(first) == 0;
      assert (xs + ys)[..Min(|xs + ys|, Room(buffer))] == xs[..k];
    }
  }

  /** The contacts of several bones, in the order they were reported. */
  function Flatten(batches: seq<seq<Vec3>>): seq<Vec3>
  {
    if batches == [] then [] else batches[0] + Flatten(batches[1..])
  }

  /** The buffer after one CollectCollision call per batch, in order. */
  function GatheredAll(buffer: seq<Vec3>, batches: seq<seq<Vec3>>): seq<Vec3>
    requires |buffer| <= COLCOUNT
    decreases |batches|
  {
    if batches == [] then buffer else GatheredAll(Gathered(buffer, batches[0]), batches[1..])
  }

  /**
    However the frame's contacts are split between bones, the buffer ends up holding the
    first contacts of the whole frame, in arrival order, up to COLCOUNT.
  */
  lemma {:induction false} GatheredAllKeepsFirstContacts(buffer: seq<Vec3>, batches: seq<seq<Vec3>>)
    requires |buffer| <= COLCOUNT
    ensures GatheredAll(buffer, batches) == Gathered(buffer, Flatten(batches))
    decreases |batches|
  {
    if batches != [] {
      GatheredAllKeepsFirstContacts(Gathered(buffer, batches[0]), batches[1..]);
      GatheredConcat(buffer, batches[0], Flatten(batches[1..]));
    }
  }

  /**
    ApplyAllCollisions' padding loop: sentinels are appended until the buffer holds COLCOUNT
    entries; the collected entries stay in front.
  */
  function Pad(buffer: seq<Vec3>, sentinel: Vec3): (r: seq<Vec3>)
    ensures |buffer| <= COLCOUNT ==> |r| == COLCOUNT
    ensures |buffer| <= |r| && r[..|buffer|] == buffer
    ensures forall i :: |buffer| <= i < |r| ==> r[i] == sentinel
    decreases COLCOUNT - |buffer|
  {
    if |buffer| < COLCOUNT then Pad(buffer + [sentinel], sentinel) else buffer
  }

  class ExplodeCollector {
    /** The serialized COLRADIUS field. */
    const colRadius: real
    /** Whether the effect graph exposes a "Collision Texture" property (VisualEffect.HasTexture). */
    const graphHasTexture: bool
    /** The COLCOUNT x PROPCOUNT texture created at start-up. */
    const collisionTexture: array2<Color>

    var hasExplode: bool
    var worldToLocal: Matrix4x4
    /** Never assigned after start-up: Explode always receives Vector3.zero. */
    var position: Vec3
    var velocity: Vec3
    var radius: real
    var finalPositions: seq<Vec3>
    var finalVelocities: seq<Vec3>

    /** Setter calls made on the effect, oldest first. */
    ghost var effectLog: seq<EffectCall>
    /** Reset calls scheduled by `Invoke("Reset", ...)` that have not run yet. */
    ghost var pendingResets: nat

    ghost predicate Valid()
      reads this
    {
      && collisionTexture.Length0 == COLCOUNT && collisionTexture.Length1 == PROPCOUNT
      && |finalPositions| == |finalVelocities| <= COLCOUNT
    }

    /** Awake: take the effect's matrix, create and reset the texture, bind it, empty lists. */
    constructor (colRadius: real, graphHasTexture: bool, vfxWorldToLocal: Matrix4x4)
      ensures Valid() && fresh(collisionTexture)
      ensures HoldsRows(collisionTexture, Sentinels(COLPOS), Sentinels(COLVEL))
      ensures this.colRadius == colRadius && this.graphHasTexture == graphHasTexture
      ensures worldToLocal == vfxWorldToLocal && !hasExplode
      ensures finalPositions == [] && finalVelocities == []
      ensures position == Zero3 && velocity == Zero3 && radius == 0.0
      ensures effectLog == [SetTexture("Collision Texture", Generated)] && pendingResets == 0
    {
      this.colRadius := colRadius;
      this.graphHasTexture := graphHasTexture;
      worldToLocal := vfxWorldToLocal;
      collisionTexture := new Color[COLCOUNT, PROPCOUNT];
      hasExplode := false;
      position, velocity, radius := Zero3, Zero3, 0.0;
      finalPositions, finalVelocities := [], [];
      new;
      ResetTexture(collisionTexture);
      effectLog := [SetTexture("Collision Texture", Generated)];
      pendingResets := 0;
    }

    /** LateUpdate: the lists are turned into a texture only when no explosion is pending. */
    method LateUpdate() returns (applied: bool)
      requires Valid()
      modifies this, collisionTexture
      ensures Valid()
      ensures applied <==> !old(hasExplode) && |old(finalPositions)| > 0
      ensures applied ==> HoldsRows(collisionTexture, Pad(old(finalPositions), COLPOS), Pad(old(finalVelocities), COLVEL))
      ensures applied ==> finalPositions == [] && finalVelocities == [] && hasExplode && radius == colRadius
      ensures applied ==> effectLog == old(effectLog) + ExplodeCalls(graphHasTexture, position, velocity, colRadius)
      ensures applied ==> pendingResets == old(pendingResets) + 1
      ensures applied ==> position == old(position) && velocity == old(velocity) && worldToLocal == old(worldToLocal)
      ensures !applied ==> unchanged(this) && unchanged(collisionTexture)
    {
      applied := !hasExplode && |finalPositions| > 0;
      if applied {
        ApplyAllCollisions();
      }
    }

    /** Explode: push the contact (or the texture) and the radius, and schedule a Reset. */
    method Explode(contactPosition: Vec3, relativeVelocity: Vec3, collisionRadius: real)
      modifies this`hasExplode, this`effectLog, this`pendingResets
      ensures hasExplode
      ensures effectLog == old(effectLog) + ExplodeCalls(graphHasTexture, contactPosition, relativeVelocity, collisionRadius)
      ensures pendingResets == old(pendingResets) + 1
    {
      if !graphHasTexture {
        effectLog := effectLog + [SetVector3("Contact Position", contactPosition), SetVector3("Collider Velocity", relativeVelocity)];
      } else {
        effectLog := effectLog + [SetTexture("Collision Texture", Generated)];
      }
      effectLog := effectLog + [SetFloat("Collision Radius", collisionRadius)];
      hasExplode := true;
      pendingResets := pendingResets + 1;
    }

    /** Reset, run when a scheduled call falls due: a no-op unless an explosion is showing. */
    method Reset()
      requires Valid() && pendingResets > 0
      modifies this`hasExplode, this`effectLog, this`pendingResets, collisionTexture
      ensures Valid()
      ensures pendingResets == old(pendingResets) - 1
      ensures !hasExplode
      ensures old(hasExplode) ==> effectLog == old(effectLog) + ResetCalls(graphHasTexture, colRadius)
      ensures old(hasExplode) && graphHasTexture ==> HoldsRows(collisionTexture, Sentinels(COLPOS), Sentinels(COLVEL))
      ensures !(old(hasExplode) && graphHasTexture) ==> unchanged(collisionTexture)
      ensures !old(hasExplode) ==> effectLog == old(effectLog)
    {
      pendingResets := pendingResets - 1;
      if hasExplode {
        if !graphHasTexture {
          effectLog := effectLog + [SetVector3("Contact Position", COLPOS), SetVector3("Collider Velocity", COLVEL)];
        } else {
          ResetTexture(collisionTexture);
          effectLog := effectLog + [SetTexture("Collision Texture", Generated)];
        }
        effectLog := effectLog + [SetFloat("Collision Radius", colRadius)];
        hasExplode := false;
      }
    }

    /**
      CollectCollision, called by each bone: the i-th position and the i-th velocity are
      taken into local space and appended together while the lists hold fewer than COLCOUNT.
    */
    method CollectCollision(positionsPerBone: seq<Vec3>, velocitiesPerBone: seq<Vec3>, vfxWorldToLocal: Matrix4x4)
      requires Valid()
      requires |positionsPerBone| <= |velocitiesPerBone|
      modifies this`worldToLocal, this`finalPositions, this`finalVelocities
      ensures Valid()
      ensures worldToLocal == vfxWorldToLocal
      ensures finalPositions == Gathered(old(finalPositions), LocalPoints(vfxWorldToLocal, positionsPerBone))
      ensures finalVelocities == Gathered(old(finalVelocities), LocalVectors(vfxWorldToLocal, velocitiesPerBone[..|positionsPerBone|]))
    {
      worldToLocal := vfxWorldToLocal;
      var count := |positionsPerBone|;
      var i := 0;
      while i < count
        invariant 0 <= i <= count
        modifies this`finalPositions, this`finalVelocities
        invariant |finalPositions| == |finalVelocities| == |old(finalPositions)| + i <= COLCOUNT
        invariant finalPositions == old(finalPositions) + LocalPoints(worldToLocal, positionsPerBone[..i])
        invariant finalVelocities == old(finalVelocities) + LocalVectors(worldToLocal, velocitiesPerBone[..i])
      {
        var pos := positionsPerBone[i];
        var vel := velocitiesPerBone[i];
        if |finalPositions| < COLCOUNT {
          finalPositions := finalPositions + [MultiplyPoint3x4(worldToLocal, pos)];
          finalVelocities := finalVelocities + [MultiplyVector(worldToLocal, vel)];
          assert positionsPerBone[..i + 1] == positionsPerBone[..i] + [pos];
          assert velocitiesPerBone[..i + 1] == velocitiesPerBone[..i] + [vel];
        } else {
          break;
        }
        i := i + 1;
      }
      assert i == Min(count, Room(old(finalPositions)));
      assert LocalPoints(worldToLocal, positionsPerBone[..i]) == LocalPoints(worldToLocal, positionsPerBone)[..i];
      assert velocitiesPerBone[..count][..i] == velocitiesPerBone[..i];
      assert LocalVectors(worldToLocal, velocitiesPerBone[..i]) == LocalVectors(worldToLocal, velocitiesPerBone[..count])[..i];
    }

    /**
      ApplyAllCollisions: pad both lists to COLCOUNT with the sentinels, write them into the
      texture, explode with the collector's radius, and clear both lists.
    */
    method ApplyAllCollisions()
      requires Valid()
      modifies this, collisionTexture
      ensures Valid()
      ensures HoldsRows(collisionTexture, Pad(old(finalPositions), COLPOS), Pad(old(finalVelocities), COLVEL))
      ensures finalPositions == [] && finalVelocities == []
      ensures hasExplode && radius == colRadius
      ensures effectLog == old(effectLog) + ExplodeCalls(graphHasTexture, position, velocity, colRadius)
      ensures pendingResets == old(pendingResets) + 1
      ensures position == old(position) && velocity == old(velocity) && worldToLocal == old(worldToLocal)
    {
      while |finalPositions| < COLCOUNT
        invariant |finalPositions| == |finalVelocities| <= COLCOUNT
        modifies this`finalPositions, this`finalVelocities
        invariant Pad(finalPositions, COLPOS) == Pad(old(finalPositions), COLPOS)
        invariant Pad(finalVelocities, COLVEL) == Pad(old(finalVelocities), COLVEL)
        decreases COLCOUNT - |finalPositions|
      {
        finalPositions := finalPositions + [COLPOS];
        finalVelocities := finalVelocities + [COLVEL];
      }
      radius := colRadius;
      GenerateTexture(collisionTexture, finalPositions, finalVelocities);
      Explode(position, velocity, radius);
      finalPositions := [];
      finalVelocities := [];
    }
  }
}
