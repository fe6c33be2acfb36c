/**
 * `BoidsSystem`: the per-frame `OnUpdate` tying the pieces together, with
 * the system's buffers as one immutable value.
 *
 * The job graph is replaced by its sequential effect. In a dispatch frame the
 * snapshot, the buckets and the whole steering result are produced at once
 * from the poses at the start of the frame; the result is kept until the
 * apply frame, exactly as the running job's output buffer is.
 */
module Boids {
  import opened Geometry
  import opened Octants
  import opened Buckets
  import opened Steering
  import opened SteeringJob
  import opened Integrate
  import opened Scheduler

  /**
   * The system's fields: the scheduler state, the live poses it integrates,
   * the snapshot `_inData`, the bucket map `_hashMap`, the result buffer
   * `_outforce`, and the wander rotations the current steering job was
   * created with.
   */
  datatype World = World(
    scheduler: State,
    live: seq<Pose>,
    inData: seq<Pose>,
    hashMap: MultiMap,
    outforce: seq<Vec3>,
    wander: seq<Quat>)

  function Positions(poses: seq<Pose>): (r: seq<Vec3>)
    ensures |r| == |poses|
    ensures forall i :: 0 <= i < |poses| ==> r[i] == poses[i].pos
  {
    seq(|poses|, i requires 0 <= i < |poses| => poses[i].pos)
  }

  /**
   * What holds between frames: every buffer is sized for the fixed
   * population, the buckets partition the boids, and while a cycle is in
   * flight every slot of `outforce` holds the steering force computed for
   * that boid from the snapshot.
   */
  ghost predicate Valid(w: World, nm: Numerics)
  {
    var n := |w.live|;
    && |w.inData| == n && |w.outforce| == n && |w.wander| == n
    && Partitions(w.hashMap, n)
    && (forall k :: k in w.hashMap ==> 0 <= k < CellCount)
    && (!Idle(w.scheduler) ==> forall i :: 0 <= i < n ==> w.outforce[i] == ComputeMovement(w.inData, i, w.wander[i], nm))
  }

  /** The identity rotation. */
  const NoTurn := Quat(0.0, 0.0, 0.0, 1.0)

  /** `OnStartRunning`'s bucket map: every boid filed under key 0. */
  function AllInCellZero(n: nat): (m: MultiMap)
    ensures Partitions(m, n)
    ensures forall k :: k in m ==> k == 0
  {
    if n == 0 then map[]
    else
      var m := map[0 := seq(n, i => i)];
      SingleCellPartitions(m, n);
      m
  }

  lemma SingleCellPartitions(m: MultiMap, n: nat)
    requires m == map[0 := seq(n, i => i)]
    ensures Partitions(m, n)
  {
    var all := m[0];
    forall i | 0 <= i < n
      ensures HasHome(m, i)
    {
      assert all[i] == i;
      assert i in m[0];
    }
  }

  /**
   * The first `OnStartRunning`: no cycle is in flight because
   * `lastSteeringStart` still holds its field initializer -1, which
   * `OnStartRunning` itself does not reset. The uninitialised buffers get
   * placeholder contents (zero vectors, identity rotations), which nothing
   * reads before the first dispatch overwrites them.
   */
  function Start(live: seq<Pose>): (w: World)
    ensures w.live == live && Idle(w.scheduler)
    ensures forall nm: Numerics :: Valid(w, nm)
  {
    var n := |live|;
    World(Initial, live, seq(n, i => Pose(Zero, NoTurn)), AllInCellZero(n), Cleared(n), seq(n, i => NoTurn))
  }

  /**
   * `OnUpdate` at clock reading `now` with frame time `dt`; `wander` holds the
   * random rotations a steering job started this frame would use.
   *
   * - Dispatch frame: the snapshot is the poses at the start of the frame,
   *   the buckets are rebuilt from them, every slot of `outforce` gets that
   *   boid's steering force, and the live poses coast.
   * - Apply frame: each boid moves along the force computed for it from the
   *   snapshot of the dispatch frame and turns to face it.
   * - Any other frame: the live poses coast and nothing else changes.
   */
  method OnUpdate(w: World, now: real, dt: real, wander: seq<Quat>, nm: Numerics) returns (w': World, action: Action)
    requires Valid(w, nm) && |wander| == |w.live|
    ensures Valid(w', nm)
    ensures |w'.live| == |w.live|
    ensures Step(w.scheduler, now) == Outcome(w'.scheduler, action)
    ensures action == DispatchAndCoast ==>
      && w'.inData == w.live
      && w'.wander == wander
      && w'.hashMap == BucketsOf(Positions(w.live))
      && w'.live == MoveForward(w.live, dt)
      && forall i :: 0 <= i < |w.live| ==> w'.outforce[i] == ComputeMovement(w.live, i, wander[i], nm)
    ensures action == Apply ==>
      && w' == w.(scheduler := Initial, live := ApplyValues(w.live, w.outforce, dt, nm))
      && forall i :: 0 <= i < |w.live| ==>
           Sub(w'.live[i].pos, w.live[i].pos) == Scale(ComputeMovement(w.inData, i, w.wander[i], nm), BaseSpeed * dt)
    ensures action == Coast ==> w' == w.(live := MoveForward(w.live, dt))
  {
    var o := Step(w.scheduler, now);
    action := o.action;
    if action == DispatchAndCoast {
      var inData := w.live;
      var hashMap := HashPositions(w.hashMap, Positions(w.live));
      var outforce := RunSteering(inData, hashMap, AscendingKeys(hashMap), wander, nm);
      w' := World(o.next, MoveForward(w.live, dt), inData, hashMap, outforce, wander);
    } else if action == Apply {
      w' := w.(scheduler := o.next, live := ApplyValues(w.live, w.outforce, dt, nm));
    } else {
      w' := w.(live := MoveForward(w.live, dt));
    }
  }
}
