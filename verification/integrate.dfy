/**
 * The two per-frame updates of the live poses: `MoveForward` (coast along the
 * current heading) and `ApplyValues` (move along the steering result and turn
 * to face it). Both move boids at the fixed speed of 5 units per second.
 */
module Integrate {
  import opened Geometry

  const BaseSpeed := 5.0

  /**
   * `MoveForward`: every boid moves by its heading times `BaseSpeed * dt`;
   * no rotation changes and no boid appears or disappears.
   */
  function MoveForward(live: seq<Pose>, dt: real): (r: seq<Pose>)
    ensures |r| == |live|
    ensures forall i :: 0 <= i < |live| ==> r[i].rot == live[i].rot
    ensures forall i :: 0 <= i < |live| ==> Sub(r[i].pos, live[i].pos) == Scale(Forward(live[i].rot), BaseSpeed * dt)
  {
    DisplacementOfAdd();
    seq(|live|, i requires 0 <= i < |live| => Pose(Add(live[i].pos, Scale(Forward(live[i].rot), BaseSpeed * dt)), live[i].rot))
  }

  /**
   * Coasting is additive in time: since the heading does not change while
   * coasting, two coast frames move each boid exactly as one frame of the
   * summed duration.
   */
  lemma CoastFramesCompose(live: seq<Pose>, dt1: real, dt2: real)
    ensures MoveForward(MoveForward(live, dt1), dt2) == MoveForward(live, dt1 + dt2)
  {
    var a, b := MoveForward(MoveForward(live, dt1), dt2), MoveForward(live, dt1 + dt2);
    forall i | 0 <= i < |live|
      ensures a[i] == b[i]
    {
      var f := Forward(live[i].rot);
      assert Scale(f, BaseSpeed * (dt1 + dt2)) == Add(Scale(f, BaseSpeed * dt1), Scale(f, BaseSpeed * dt2));
    }
  }

  /** A single boid at the origin coasting for one second ends at five times its heading. */
  lemma CoastFromOrigin(q: Quat)
    ensures MoveForward([Pose(Zero, q)], 1.0) == [Pose(Scale(Forward(q), 5.0), q)]
  {
    var r := MoveForward([Pose(Zero, q)], 1.0);
    assert r[0].pos == Scale(Forward(q), 5.0);
  }

  /**
   * `ApplyValues`: every boid moves by its own slot of `outforce` times
   * `BaseSpeed * dt` and turns to look along that slot, keeping its previous
   * up vector as the up hint.
   */
  function ApplyValues(live: seq<Pose>, outforce: seq<Vec3>, dt: real, nm: Numerics): (r: seq<Pose>)
    requires |outforce| == |live|
    ensures |r| == |live|
    ensures forall i :: 0 <= i < |live| ==> Sub(r[i].pos, live[i].pos) == Scale(outforce[i], BaseSpeed * dt)
    ensures forall i :: 0 <= i < |live| ==> r[i].rot == nm.lookRotation(outforce[i], Up(live[i].rot))
  {
    DisplacementOfAdd();
    seq(|live|, i requires 0 <= i < |live| =>
      Pose(Add(live[i].pos, Scale(outforce[i], BaseSpeed * dt)), nm.lookRotation(outforce[i], Up(live[i].rot))))
  }

  /**
   * Applying is boid-local: the new pose of boid `i` depends only on its own
   * pose and its own slot of `outforce`.
   */
  lemma ApplyIsPerBoid(live: seq<Pose>, outforce: seq<Vec3>, live': seq<Pose>, outforce': seq<Vec3>,
                       dt: real, nm: Numerics, i: int)
    requires |outforce| == |live| && |outforce'| == |live'|
    requires 0 <= i < |live| && i < |live'|
    requires live[i] == live'[i] && outforce[i] == outforce'[i]
    ensures ApplyValues(live, outforce, dt, nm)[i] == ApplyValues(live', outforce', dt, nm)[i]
  {
  }
}
