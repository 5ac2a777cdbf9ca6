/**
  What the three explode components share: the sentinel constants, the particle collision
  event, the 5x2 collision texture (column x is collision x, row 0 holds positions and row 1
  velocities) with its two fills, and the averages of the Average explode mode.
  ExplodeCollector and ExplodeIndividual carry identical copies of GenerateTexture and
  ResetTexture; they are defined once here over the component's texture.
*/
module Collision {
  import opened Engine

  /** Number of collisions one texture holds (its width). */
  const COLCOUNT: nat := 5
  /** Number of properties per collision (its height): position, velocity. */
  const PROPCOUNT: nat := 2
  /** Position written where there is no collision: far outside the effect. */
  const COLPOS: Vec3 := Vec3(100.0, 100.0, 100.0)
  /** Velocity written where there is no collision. */
  const COLVEL: Vec3 := Vec3(0.01, 0.0, 0.0)
  /** Default of the serialized COLRADIUS field, and ExplodeOnContact's fixed value. */
  const COLRADIUS: real := 0.2

  /** The part of a ParticleCollisionEvent the components read. */
  datatype CollisionEvent = CollisionEvent(intersection: Vec3, velocity: Vec3)

  /** The components' `explodeTypes` enum. */
  datatype ExplodeType = Single | Average | Burst

  function Min(a: int, b: int): int
  {
    if a <= b then a else b
  }

  function Intersections(events: seq<CollisionEvent>): (r: seq<Vec3>)
    ensures |r| == |events|
    ensures forall i :: 0 <= i < |events| ==> r[i] == events[i].intersection
  {
    seq(|events|, i requires 0 <= i < |events| => events[i].intersection)
  }

  function Velocities(events: seq<CollisionEvent>): (r: seq<Vec3>)
    ensures |r| == |events|
    ensures forall i :: 0 <= i < |events| ==> r[i] == events[i].velocity
  {
    seq(|events|, i requires 0 <= i < |events| => events[i].velocity)
  }

  /** World positions taken into the effect's local space. */
  function LocalPoints(m: Matrix4x4, ps: seq<Vec3>): (r: seq<Vec3>)
    ensures |r| == |ps|
    ensures forall i :: 0 <= i < |ps| ==> r[i] == MultiplyPoint3x4(m, ps[i])
  {
    seq(|ps|, i requires 0 <= i < |ps| => MultiplyPoint3x4(m, ps[i]))
  }

  /** World velocities taken into the effect's local space. */
  function LocalVectors(m: Matrix4x4, vs: seq<Vec3>): (r: seq<Vec3>)
    ensures |r| == |vs|
    ensures forall i :: 0 <= i < |vs| ==> r[i] == MultiplyVector(m, vs[i])
  {
    seq(|vs|, i requires 0 <= i < |vs| => MultiplyVector(m, vs[i]))
  }

  /** A texture row with no collision in it. */
  function Sentinels(v: Vec3): (r: seq<Vec3>)
    ensures |r| == COLCOUNT
    ensures forall i :: 0 <= i < COLCOUNT ==> r[i] == v
  {
    seq(COLCOUNT, _ => v)
  }

  /** `tex` is COLCOUNT x PROPCOUNT, with positions in row 0 and velocities in row 1. */
  ghost predicate HoldsRows(tex: array2<Color>, positions: seq<Vec3>, velocities: seq<Vec3>)
    reads tex
  {
    && tex.Length0 == COLCOUNT && tex.Length1 == PROPCOUNT
    && COLCOUNT <= |positions| && COLCOUNT <= |velocities|
    && forall x :: 0 <= x < COLCOUNT ==>
         tex[x, 0] == Opaque(positions[x]) && tex[x, 1] == Opaque(velocities[x])
  }

  /** GenerateTexture: texel (x, 0) from positions[x] and (x, 1) from velocities[x], alpha 1. */
  method GenerateTexture(tex: array2<Color>, positions: seq<Vec3>, velocities: seq<Vec3>)
    requires tex.Length0 == COLCOUNT && tex.Length1 == PROPCOUNT
    requires COLCOUNT <= |positions| && COLCOUNT <= |velocities|
    modifies tex
    ensures HoldsRows(tex, positions, velocities)
  {
    for y := 0 to PROPCOUNT
      invariant forall x', y' :: 0 <= x' < COLCOUNT && 0 <= y' < y ==>
                  tex[x', y'] == Opaque(if y' == 0 then positions[x'] else velocities[x'])
    {
      var vectorList := if y == 0 then positions else velocities;
      for x := 0 to COLCOUNT
        invariant forall x', y' :: 0 <= x' < COLCOUNT && 0 <= y' < y ==>
                    tex[x', y'] == Opaque(if y' == 0 then positions[x'] else velocities[x'])
        invariant forall x' :: 0 <= x' < x ==> tex[x', y] == Opaque(vectorList[x'])
      {
        tex[x, y] := Opaque(vectorList[x]);
      }
    }
  }

  /** ResetTexture: every texel of row 0 holds COLPOS and every texel of row 1 COLVEL. */
  method ResetTexture(tex: array2<Color>)
    requires tex.Length0 == COLCOUNT && tex.Length1 == PROPCOUNT
    modifies tex
    ensures HoldsRows(tex, Sentinels(COLPOS), Sentinels(COLVEL))
  {
    for y := 0 to PROPCOUNT
      invariant forall x', y' :: 0 <= x' < COLCOUNT && 0 <= y' < y ==>
                  tex[x', y'] == Opaque(if y' == 0 then COLPOS else COLVEL)
    {
      var color := if y == 0 then COLPOS else COLVEL;
      for x := 0 to COLCOUNT
        invariant forall x', y' :: 0 <= x' < COLCOUNT && 0 <= y' < y ==>
                    tex[x', y'] == Opaque(if y' == 0 then COLPOS else COLVEL)
        invariant forall x' :: 0 <= x' < x ==> tex[x', y] == Opaque(color)
      {
        tex[x, y] := Opaque(color);
      }
    }
  }

  /**
    The setter calls of Explode in ExplodeCollector and ExplodeIndividual: the contact
    itself when the graph has no "Collision Texture" property, else the texture; then the radius.
  */
  function ExplodeCalls(graphHasTexture: bool, contactPosition: Vec3, relativeVelocity: Vec3, collisionRadius: real): (r: seq<EffectCall>)
  {
    (if graphHasTexture then [SetTexture("Collision Texture", Generated)]
     else [SetVector3("Contact Position", contactPosition), SetVector3("Collider Velocity", relativeVelocity)])
    + [SetFloat("Collision Radius", collisionRadius)]
  }

  /** The setter calls of a Reset that restores the resting state. */
  function ResetCalls(graphHasTexture: bool, colRadius: real): (r: seq<EffectCall>)
  {
    ExplodeCalls(graphHasTexture, COLPOS, COLVEL, colRadius)
  }

  /**
    The Average mode's running mean: `position += localPosition / count` for each vector in
    turn, starting from Vector3.zero.
  */
  function RunningMean(vs: seq<Vec3>, count: real): Vec3
    requires count != 0.0
  {
    if vs == [] then Zero3 else Add(RunningMean(vs[..|vs| - 1], count), DivideBy(vs[|vs| - 1], count))
  }

  /**
    The Average mode's radius: `radius += Vector3.Distance(pos, position) / positionList.Count`
    over the positions, starting from 0. Vector3.Distance is the engine's and is a parameter.
  */
  function MeanDistance(ps: seq<Vec3>, centre: Vec3, count: real, distance: (Vec3, Vec3) -> real): real
    requires count != 0.0
  {
    if ps == [] then 0.0 else MeanDistance(ps[..|ps| - 1], centre, count, distance) + distance(ps[|ps| - 1], centre) / count
  }

  /**
    The position, velocity and radius the Average mode computes from the events, in the
    effect's local space. With no events the loops do not run and all three stay zero.
  */
  function AverageOf(m: Matrix4x4, events: seq<CollisionEvent>, distance: (Vec3, Vec3) -> real): (Vec3, Vec3, real)
  {
    if events == [] then (Zero3, Zero3, 0.0)
    else
      var n := |events| as real;
      var localPositions := LocalPoints(m, Intersections(events));
      var position := RunningMean(localPositions, n);
      (position, RunningMean(LocalVectors(m, Velocities(events)), n), MeanDistance(localPositions, position, n, distance))
  }
}
