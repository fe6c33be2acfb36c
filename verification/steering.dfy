/**
 * `BoidSteeringJob.ComputeMovement`: the steering force of one boid, computed
 * from a snapshot of every boid's pose.
 *
 * The neighbour loop, its range gate, the sums it keeps, the guarded
 * normalisation, the blend and the containment pull are modelled exactly;
 * `normalize` comes from `Numerics`, and the random wander rotation applied to
 * the boid's own heading is an input quaternion.
 */
module Steering {
  import opened Geometry

  /** A boid closer than this contributes to the flocking terms. */
  const PerceptionRadius := 30.0
  /** Beyond this distance from the origin a boid is pulled back towards it. */
  const ContainmentRadius := 1000.0

  const ForwardWeight := 0.25
  const HeadingWeight := 0.4
  const TowardsWeight := 0.2
  const OutwardsWeight := 0.15

  /** `distance(other, pos) < PerceptionRadius`, decided on squared distances. */
  predicate InRange(other: Vec3, pos: Vec3)
  {
    SqDist(other, pos) < PerceptionRadius * PerceptionRadius
  }

  /** `distance(origin, pos) > ContainmentRadius`, decided on squared distances. */
  predicate OutOfBounds(pos: Vec3)
  {
    SqDist(Zero, pos) > ContainmentRadius * ContainmentRadius
  }

  /** Boid `j` is another boid within perception range of boid `index`. */
  predicate IsNeighbour(inData: seq<Pose>, index: int, j: int)
    requires 0 <= index < |inData| && 0 <= j < |inData|
  {
    j != index && InRange(inData[j].pos, inData[index].pos)
  }

  /** The neighbours of boid `index` among the boids below `k`. */
  ghost function NeighboursBelow(inData: seq<Pose>, index: int, k: nat): set<int>
    requires 0 <= index < |inData| && k <= |inData|
  {
    set j | 0 <= j < k && IsNeighbour(inData, index, j)
  }

  /** Every other boid within the perception radius of boid `index`. */
  ghost function Neighbours(inData: seq<Pose>, index: int): set<int>
    requires 0 <= index < |inData|
  {
    NeighboursBelow(inData, index, |inData|)
  }

  /** The running sums of the neighbour loop and `inRangeCount`. */
  datatype Sums = Sums(heading: Vec3, towards: Vec3, outwards: Vec3, count: nat)

  const NoSums := Sums(Zero, Zero, Zero, 0)

  /** The contribution of one in-range neighbour `other` to the sums of the boid at `pos`. */
  function Accumulate(s: Sums, other: Pose, pos: Vec3): Sums
  {
    Sums(Add(s.heading, Forward(other.rot)), Add(s.towards, other.pos), Add(s.outwards, Sub(other.pos, pos)), s.count + 1)
  }

  /** The sums after the neighbour loop has visited the boids below `k`. */
  function Gathered(inData: seq<Pose>, index: int, k: nat): Sums
    requires 0 <= index < |inData| && k <= |inData|
  {
    if k == 0 then NoSums
    else
      var s := Gathered(inData, index, k - 1);
      if IsNeighbour(inData, index, k - 1)
      then Accumulate(s, inData[k - 1], inData[index].pos)
      else s
  }

  /** Visiting boid `k - 1` adds it to the neighbours seen so far exactly when it is a neighbour. */
  lemma NeighboursBelowStep(inData: seq<Pose>, index: int, k: nat)
    requires 0 <= index < |inData| && 0 < k <= |inData|
    ensures NeighboursBelow(inData, index, k)
         == NeighboursBelow(inData, index, k - 1) + (if IsNeighbour(inData, index, k - 1) then {k - 1} else {})
  {
  }

  /**
   * The count kept by the loop is the number of neighbours seen so far, the
   * boid itself is never among them, and while the count is zero every sum
   * is still the zero vector.
   */
  lemma {:induction false} GatheredCounts(inData: seq<Pose>, index: int, k: nat)
    requires 0 <= index < |inData| && k <= |inData|
    ensures Gathered(inData, index, k).count == |NeighboursBelow(inData, index, k)|
    ensures Gathered(inData, index, k).count <= (if index < k then k - 1 else k)
    ensures Gathered(inData, index, k).count == 0 ==> Gathered(inData, index, k) == NoSums
  {
    if k > 0 {
      GatheredCounts(inData, index, k - 1);
      NeighboursBelowStep(inData, index, k);
      var j := k - 1;
      var before := Gathered(inData, index, j);
      if IsNeighbour(inData, index, j) {
        assert j !in NeighboursBelow(inData, index, j);
        assert Gathered(inData, index, k).count == before.count + 1;
      } else {
        assert Gathered(inData, index, k) == before;
      }
    }
  }

  /**
   * The neighbour loop of `ComputeMovement`: visits every boid, skips the
   * boid itself, and sums heading, position and offset of every boid in
   * range. The count it returns is the number of neighbours, hence below the
   * number of boids, and without neighbours the sums stay zero.
   */
  method GatherNeighbours(inData: seq<Pose>, index: int) returns (s: Sums)
    requires 0 <= index < |inData|
    ensures s == Gathered(inData, index, |inData|)
    ensures s.count == |Neighbours(inData, index)|
    ensures s.count <= |inData| - 1
    ensures s.count == 0 ==> s.heading == Zero && s.towards == Zero && s.outwards == Zero
  {
    var position := inData[index].pos;
    s := NoSums;
    var j := 0;
    while j < |inData|
      invariant 0 <= j <= |inData|
      invariant s == Gathered(inData, index, j)
    {
      if j != index {
        var other := inData[j];
        if SqDist(other.pos, position) < PerceptionRadius * PerceptionRadius {
          s := Accumulate(s, other, position);
        }
      }
      j := j + 1;
    }
    GatheredCounts(inData, index, |inData|);
  }

  /** `avgHeading`, `towardsForce` and `outwardsForce`. */
  datatype Terms = Terms(avgHeading: Vec3, towardsForce: Vec3, outwardsForce: Vec3)

  const NoTerms := Terms(Zero, Zero, Zero)

  /**
   * The three flocking directions before normalisation: the mean heading,
   * the offset from the boid to the neighbours' centre, and the reverse of
   * the mean offset to the neighbours.
   */
  function Directions(s: Sums, pos: Vec3): Terms
    requires s.count > 0
  {
    var c := s.count as real;
    Terms(Scale(s.heading, 1.0 / c), Sub(Scale(s.towards, 1.0 / c), pos), Scale(Scale(s.outwards, 1.0 / c), -1.0))
  }

  /** The flocking terms: normalised only when some boid is in range, otherwise the sums as they are. */
  function FlockTerms(s: Sums, pos: Vec3, nm: Numerics): Terms
  {
    if s.count > 0 then
      var d := Directions(s, pos);
      Terms(nm.normalize(d.avgHeading), nm.normalize(d.towardsForce), nm.normalize(d.outwardsForce))
    else
      Terms(s.heading, s.towards, s.outwards)
  }

  /** The weighted blend of the wandering heading and the flocking terms. */
  function Blend(forward: Vec3, t: Terms): Vec3
  {
    Add(Add(Add(Scale(forward, ForwardWeight), Scale(t.avgHeading, HeadingWeight)),
            Scale(t.towardsForce, TowardsWeight)),
        Scale(t.outwardsForce, OutwardsWeight))
  }

  /** With all three flocking terms zero, the blend is the weighted own heading alone. */
  lemma BlendWithoutFlocking(forward: Vec3)
    ensures Blend(forward, NoTerms) == Scale(forward, ForwardWeight)
  {
  }

  /** Adds the unit pull back towards the origin when the boid is out of bounds. */
  function Contain(force: Vec3, pos: Vec3, nm: Numerics): Vec3
  {
    if OutOfBounds(pos) then Add(force, nm.normalize(Neg(pos))) else force
  }

  /** The boid's own heading after the random wander rotation. */
  function WanderHeading(me: Pose, wander: Quat): Vec3
  {
    Rotate(wander, Forward(me.rot))
  }

  /**
   * The force `ComputeMovement(index)` writes into `outforce[index]`. When no
   * other boid is in range it reduces to the wandering heading plus the
   * containment pull, normalised.
   */
  function ComputeMovement(inData: seq<Pose>, index: int, wander: Quat, nm: Numerics): (r: Vec3)
    requires 0 <= index < |inData|
    ensures Neighbours(inData, index) == {} ==>
      r == nm.normalize(Contain(Scale(WanderHeading(inData[index], wander), ForwardWeight), inData[index].pos, nm))
  {
    var me := inData[index];
    var s := Gathered(inData, index, |inData|);
    var heading := WanderHeading(me, wander);
    GatheredCounts(inData, index, |inData|);
    BlendWithoutFlocking(heading);
    nm.normalize(Contain(Blend(heading, FlockTerms(s, me.pos, nm)), me.pos, nm))
  }

  /**
   * Without neighbours the three flocking terms are exactly the zero vector;
   * with neighbours each is the normalised direction.
   */
  lemma NoNeighboursNoFlocking(inData: seq<Pose>, index: int, nm: Numerics)
    requires 0 <= index < |inData|
    ensures Neighbours(inData, index) == {} <==> Gathered(inData, index, |inData|).count == 0
    ensures var s := Gathered(inData, index, |inData|);
      Neighbours(inData, index) == {} <==> FlockTerms(s, inData[index].pos, nm) == NoTerms && s.count == 0
    ensures var s := Gathered(inData, index, |inData|);
      s.count > 0 ==>
        var d := Directions(s, inData[index].pos);
        FlockTerms(s, inData[index].pos, nm) == Terms(nm.normalize(d.avgHeading), nm.normalize(d.towardsForce), nm.normalize(d.outwardsForce))
  {
    GatheredCounts(inData, index, |inData|);
  }

  /**
   * Boid `j` is counted as a neighbour of boid `index` exactly when it is
   * another boid whose Euclidean distance `d` is below the perception radius.
   */
  lemma NeighbourIffCloserThanRadius(inData: seq<Pose>, index: int, j: int, d: real)
    requires 0 <= index < |inData| && 0 <= j < |inData|
    requires d >= 0.0 && d * d == SqDist(inData[j].pos, inData[index].pos)
    ensures j in Neighbours(inData, index) <==> j != index && d < PerceptionRadius
  {
    SquaredBelowIffDistanceBelow(d, SqDist(inData[j].pos, inData[index].pos), PerceptionRadius);
  }

  /**
   * The containment pull is added exactly when the boid's Euclidean distance
   * `d` from the origin exceeds the containment radius; otherwise the force
   * passes through unchanged.
   */
  lemma ContainmentIffBeyondRadius(force: Vec3, pos: Vec3, d: real, nm: Numerics)
    requires d >= 0.0 && d * d == SqDist(Zero, pos)
    ensures d > ContainmentRadius ==> Contain(force, pos, nm) == Add(force, nm.normalize(Neg(pos)))
    ensures d <= ContainmentRadius ==> Contain(force, pos, nm) == force
  {
    SquaredAboveIffDistanceAbove(d, SqDist(Zero, pos), ContainmentRadius);
  }

  /**
   * Two boids in range of each other: for the first, the centre term points
   * at the second boid, the separation term points away from it, and the
   * heading term is the second boid's heading.
   */
  lemma PairAttractsAndRepels(inData: seq<Pose>)
    requires |inData| == 2
    requires InRange(inData[1].pos, inData[0].pos)
    ensures Gathered(inData, 0, 2).count == 1
    ensures Directions(Gathered(inData, 0, 2), inData[0].pos)
         == Terms(Forward(inData[1].rot), Sub(inData[1].pos, inData[0].pos), Sub(inData[0].pos, inData[1].pos))
  {
    assert Gathered(inData, 0, 1) == NoSums;
    assert Gathered(inData, 0, 2) == Accumulate(NoSums, inData[1], inData[0].pos);
  }
}
