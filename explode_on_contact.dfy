/**
  ExplodeOnContact: a component on the effect that explodes when a rigid body of a selected
  layer hits it, or when particles collide with it (Single, Average, or Burst, which sends
  zeros). It always pushes the contact as two vectors, never a texture, and its radius is
  fixed at COLRADIUS.
*/
module OnContact {
  import opened Engine
  import opened Collision
  import LayerMasks

  class ExplodeOnContact {
    const explodeType: ExplodeType
    const layermask: LayerMasks.Int32
    /** The component's own world-to-local matrix, taken once at start-up. */
    const worldToLocal: Matrix4x4

    var hasExplode: bool
    var position: Vec3
    var velocity: Vec3
    var radius: real

    /** Setter calls made on the effect, oldest first. */
    ghost var effectLog: seq<EffectCall>
    /** Reset calls scheduled by `Invoke("Reset", ...)` that have not run yet. */
    ghost var pendingResets: nat

    /** Awake. */
    constructor (explodeType: ExplodeType, layermask: LayerMasks.Int32, ownWorldToLocal: Matrix4x4)
      ensures this.explodeType == explodeType && this.layermask == layermask
      ensures worldToLocal == ownWorldToLocal && !hasExplode
      ensures effectLog == [] && pendingResets == 0
    {
      this.explodeType := explodeType;
      this.layermask := layermask;
      worldToLocal := ownWorldToLocal;
      hasExplode := false;
      position, velocity, radius := Zero3, Zero3, 0.0;
      effectLog := [];
      pendingResets := 0;
    }

    /** Explode: the same calls as the other components make for a graph without a texture. */
    method Explode(contactPosition: Vec3, relativeVelocity: Vec3, collisionRadius: real)
      modifies this`hasExplode, this`effectLog, this`pendingResets
      ensures hasExplode
      ensures effectLog == old(effectLog) + ExplodeCalls(false, contactPosition, relativeVelocity, collisionRadius)
      ensures pendingResets == old(pendingResets) + 1
    {
      effectLog := effectLog + [SetVector3("Contact Position", contactPosition)];
      effectLog := effectLog + [SetVector3("Collider Velocity", relativeVelocity)];
      effectLog := effectLog + [SetFloat("Collision Radius", collisionRadius)];
      hasExplode := true;
      pendingResets := pendingResets + 1;
    }

    /** Reset: restore the sentinels and the fixed radius, once per explosion. */
    method Reset()
      requires pendingResets > 0
      modifies this`hasExplode, this`effectLog, this`pendingResets
      ensures pendingResets == old(pendingResets) - 1
      ensures !hasExplode
      ensures old(hasExplode) ==> effectLog == old(effectLog) + ResetCalls(false, COLRADIUS)
      ensures !old(hasExplode) ==> effectLog == old(effectLog)
    {
      pendingResets := pendingResets - 1;
      if hasExplode {
        effectLog := effectLog + [SetVector3("Contact Position", COLPOS)];
        effectLog := effectLog + [SetVector3("Collider Velocity", COLVEL)];
        effectLog := effectLog + [SetFloat("Collision Radius", COLRADIUS)];
        hasExplode := false;
      }
    }

    /**
      OnCollisionEnter: a body on a layer of the mask explodes the effect at the first contact
      point with the relative velocity, in world space; any other body changes nothing. The
      mask test is the intended one; it agrees with the test as written on every mask
      without layer 31.
    */
    method OnCollisionEnter(otherLayer: int, firstContactPoint: Vec3, relativeVelocity: Vec3) returns (exploded: bool)
      modifies this`hasExplode, this`effectLog, this`pendingResets
      ensures exploded <==> LayerMasks.ExistsInLayerMask(layermask, otherLayer)
      ensures 0 <= layermask ==> (exploded <==> LayerMasks.ExistsInLayerMaskAsWritten(layermask, otherLayer))
      ensures exploded ==> hasExplode && pendingResets == old(pendingResets) + 1
      ensures exploded ==> effectLog == old(effectLog) + ExplodeCalls(false, firstContactPoint, relativeVelocity, COLRADIUS)
      ensures !exploded ==> hasExplode == old(hasExplode) && effectLog == old(effectLog) && pendingResets == old(pendingResets)
    {
      exploded := LayerMasks.ExistsInLayerMask(layermask, otherLayer);
      if 0 <= layermask {
        LayerMasks.AsWrittenAgreesOnNonNegativeMasks(layermask, otherLayer);
      }
      if exploded {
        Explode(firstContactPoint, relativeVelocity, COLRADIUS);
      }
    }

    /**
      OnParticleCollision: reset the contact to zero, compute it for the mode with the matrix
      taken at start-up, and explode. Burst computes nothing and explodes with zeros. Single
      reads the first event, so with no event it stops with an index error before exploding;
      `completed` is false exactly then. `distance` is the engine's Vector3.Distance.
    */
    method OnParticleCollision(events: seq<CollisionEvent>, distance: (Vec3, Vec3) -> real) returns (completed: bool)
      modifies this
      ensures completed <==> !(explodeType == Single && |events| == 0)
      ensures !completed ==> position == Zero3 && velocity == Zero3 && radius == 0.0
      ensures completed && explodeType == Single ==>
                && position == MultiplyPoint3x4(worldToLocal, events[0].intersection)
                && velocity == MultiplyVector(worldToLocal, events[0].velocity)
                && radius == COLRADIUS
      ensures explodeType == Average ==> (position, velocity, radius) == AverageOf(worldToLocal, events, distance)
      ensures explodeType == Burst ==> position == Zero3 && velocity == Zero3 && radius == 0.0
      ensures completed ==> hasExplode && pendingResets == old(pendingResets) + 1
      ensures completed ==> effectLog == old(effectLog) + ExplodeCalls(false, position, velocity, radius)
      ensures !completed ==> hasExplode == old(hasExplode) && effectLog == old(effectLog) && pendingResets == old(pendingResets)
    {
      position := Zero3;
      velocity := Zero3;
      radius := 0.0;
      completed := true;
      match explodeType {
        case Single =>
          if |events| == 0 {
            completed := false;
            return;
          }
          position := MultiplyPoint3x4(worldToLocal, events[0].intersection);
          velocity := MultiplyVector(worldToLocal, events[0].velocity);
          radius := COLRADIUS;
        case Average =>
          var averages := AverageOf(worldToLocal, events, distance);
          position, velocity, radius := averages.0, averages.1, averages.2;
        case Burst =>
      }
      Explode(position, velocity, radius);
    }
  }
}
