# Boids steering core in Dafny

A model of the flocking system of the ECS-Boids project (`BoidsSystem`).
Every frame, `OnUpdate` makes one of three choices:

- **Dispatch.** Start a steering cycle and coast this frame. The cycle takes
  a snapshot of every boid's pose. It files each boid into one of eight
  octant buckets. It then runs a steering job over those buckets, which
  computes one force per boid.
- **Coast.** Let a running cycle keep working while every boid coasts
  forward.
- **Apply.** Once more than 0.5 s have passed since the dispatch, apply the
  computed forces.

The model has these modules:

| module | file | what it covers |
|---|---|---|
| `Geometry` | geometry.dfy | real-valued vectors, quaternions and poses; `math.mul` of a quaternion and a vector, written out exactly; `normalize` and `LookRotation` as parameters (`Numerics`) |
| `Octants` | octants.dfy | the octant code of `HashPositionJob` |
| `Buckets` | buckets.dfy | the bucket multimap: clear, one `Add` per boid, and the proof that the buckets partition the boids |
| `Steering` | steering.dfy | `ComputeMovement`: the neighbour loop, the neighbour count, the guarded normalisation, the blend and the containment pull |
| `SteeringJob` | steering_job.dfy | `ExecuteFirst`/`ExecuteNext` dispatch over the buckets; each output slot is written exactly once |
| `Integrate` | integrate.dfy | `MoveForward` (coast) and `ApplyValues` (apply) over the live poses |
| `Scheduler` | scheduler.dfy | the `lastSteeringStart` state machine and its traces |
| `Boids` | boids.dfy | `OnStartRunning` and `OnUpdate` over one immutable value holding all the system's buffers |

Modelling choices:

- **Real arithmetic.** Floats are replaced by exact reals.
- **Distance tests.** `distance(a, b) < 30` and `distance(0, p) > 1000`
  are decided on squared distances. `Geometry.SquaredBelowIffDistanceBelow`
  and `Geometry.SquaredAboveIffDistanceAbove` prove this gives the same
  answer as the Euclidean test.
- **Wander rotation.** The random rotation applied to a boid's own heading
  is an input quaternion per boid.
- **Parallel jobs.** Each job is replaced by its sequential effect. The
  steering job's result is computed in full in the dispatch frame. That
  result is kept in the world value until the apply frame.
- **Bucket visiting order.** The steering job may visit the buckets in any
  order. Every result is proved for any enumeration of the keys, and
  `OnUpdate` uses ascending order. The result does not depend on the order
  only because each boid's rotation is a fixed input. In the program, every
  `ComputeMovement` call draws from the job's own `random` field, so which
  rotation a boid gets depends on how many calls ran before it on the same
  job copy.
- **Clock.** The scheduler's trace lemmas assume a positive clock reading
  (`realtimeSinceStartup`). `Scheduler.DispatchAtTimeZeroIsLost` shows why:
  a dispatch recorded at exactly 0.0 reads as "idle" on the next frame.
- **Apply condition.** `OnUpdate` applies only when strictly more than 0.5 s
  have elapsed (`> 0.5f`, `Assets/BoidsSystem.cs:341`), and so does
  `Scheduler.Step`.
- **Neighbour scan.** The steering loop scans every boid with a perception
  radius of 30 (`Assets/BoidsSystem.cs:102` and `:113`). The bucket map only
  decides which callback computes each boid.

## Model

| member | source | states |
|---|---|---|
| `Octants.OctantCode` | Assets/BoidsSystem.cs:63 | the cell code lies in 0..7; bit 0 is set iff x > 0, bit 1 iff y > 0, bit 2 iff z > 0, so a zero coordinate counts as non-positive |
| `Octants.CodeRecordsSigns` | Assets/BoidsSystem.cs:63 | decoding a position's cell code gives back the sign pattern of the position |
| `Octants.SameCellIffSameSigns` | Assets/BoidsSystem.cs:52-63 | two boids share a cell iff they lie on the same side of each of the three coordinate planes |
| `Octants.EveryCellOccurs` | Assets/BoidsSystem.cs:52-63 | each of the eight codes is the cell of some point: the hash really has eight cells |
| `Buckets.AddEntry` | Assets/BoidsSystem.cs:63 | adding under key k adds one occurrence of the value to k's bucket and leaves every other bucket unchanged |
| `Buckets.CellMembersExactly` | Assets/BoidsSystem.cs:61-64 | the reference bucket of a cell holds exactly the boids whose position lies in that cell, each once |
| `Buckets.AddNextBoid` | Assets/BoidsSystem.cs:61-64 | filing the next boid under its code extends the buckets of the boids so far by exactly that boid |
| `Buckets.BucketsPartition` | Assets/BoidsSystem.cs:302-308 | after one add per boid, every index 0..N-1 lies in exactly one bucket, once, and no bucket holds any other value |
| `Buckets.HashPositions` | Assets/BoidsSystem.cs:302-308 | clearing and re-filling gives the reference buckets whatever the map held before, with keys in 0..7, and so partitions the boids |
| `SteeringJob.CellCalls` | Assets/BoidsSystem.cs:163-171 | the first boid of a bucket gets `ExecuteFirst` and every later one `ExecuteNext` with that first boid; every call carries its own boid's index |
| `SteeringJob.AscendingKeys` | Assets/BoidsSystem.cs:324 | the ascending list of occupied cells is one way for the job to visit every bucket exactly once |
| `SteeringJob.DispatchCount` | Assets/BoidsSystem.cs:163-171 | over distinct buckets of a partition, a boid is dispatched once if its bucket is visited and never otherwise |
| `SteeringJob.DispatchInBuckets` | Assets/BoidsSystem.cs:163-171 | every dispatched index comes from a visited bucket |
| `SteeringJob.EachSlotWrittenOnce` | Assets/BoidsSystem.cs:159-171 | given the partition, visiting every bucket once writes each `outforce` slot 0..N-1 exactly once and no other slot |
| `SteeringJob.Cleared` | Assets/BoidsSystem.cs:314 | clearing the output buffer keeps its length and sets every slot to the zero vector |
| `SteeringJob.ExecuteCalls` | Assets/BoidsSystem.cs:158-171 | running the calls on a cleared buffer leaves every targeted slot holding its own boid's force, and every other slot zero |
| `SteeringJob.RunSteering` | Assets/BoidsSystem.cs:313-324 | one steering cycle leaves every slot i of `outforce` holding `ComputeMovement(i)`, whatever the order in which buckets are visited, for a fixed wander rotation per boid |
| `Steering.GatheredCounts` | Assets/BoidsSystem.cs:99-124 | the loop's count equals the number of other boids in range seen so far; it never counts the boid itself; while it is zero, all three sums are zero |
| `Steering.GatherNeighbours` | Assets/BoidsSystem.cs:99-124 | the neighbour loop returns `inRangeCount` equal to the number of neighbours, at most N-1, with zero sums when there are none |
| `Steering.BlendWithoutFlocking` | Assets/BoidsSystem.cs:144-150 | with the three flocking terms zero, the blend is 0.25 times the wandering heading |
| `Steering.ComputeMovement` | Assets/BoidsSystem.cs:85-160 | with no other boid in range, the force written is the normalised sum of 0.25 times the wandering heading and the containment pull |
| `Steering.NoNeighboursNoFlocking` | Assets/BoidsSystem.cs:126-132 | no boid is in range iff the count is zero, and then the three terms are the zero vector; otherwise each is the normalised mean direction |
| `Steering.NeighbourIffCloserThanRadius` | Assets/BoidsSystem.cs:105-113 | boid j counts as a neighbour iff j is not the boid itself and its Euclidean distance is below 30 |
| `Steering.ContainmentIffBeyondRadius` | Assets/BoidsSystem.cs:152-156 | the pull towards the origin is added iff the Euclidean distance from the origin is strictly above 1000; otherwise the force is unchanged |
| `Steering.PairAttractsAndRepels` | Assets/BoidsSystem.cs:118-131 | for two boids in range, the centre term points at the other boid, the separation term points away from it, and the heading term is the other boid's heading |
| `Geometry.SquaredBelowIffDistanceBelow` | Assets/BoidsSystem.cs:113 | the squared test is below r squared iff the distance is below r |
| `Geometry.SquaredAboveIffDistanceAbove` | Assets/BoidsSystem.cs:153 | the squared test is above r squared iff the distance is above r |
| `Integrate.MoveForward` | Assets/BoidsSystem.cs:205-211 | coasting displaces each boid by its heading times 5 * DeltaTime, keeps every rotation, and keeps the population |
| `Integrate.CoastFramesCompose` | Assets/BoidsSystem.cs:205-211 | two coast frames equal one coast frame of the summed duration |
| `Integrate.CoastFromOrigin` | Assets/BoidsSystem.cs:205-211 | a boid at the origin coasting for one second ends at five times its heading |
| `Integrate.ApplyValues` | Assets/BoidsSystem.cs:185-192 | applying displaces each boid by its own `outforce` slot times 5 * DeltaTime and sets its rotation to look along that slot, with its old up vector |
| `Integrate.ApplyIsPerBoid` | Assets/BoidsSystem.cs:185-192 | a boid's new pose depends only on its own pose and its own `outforce` slot |
| `Scheduler.Step` | Assets/BoidsSystem.cs:290-371 | dispatch iff `lastSteeringStart <= 0`, recording the time; apply iff in flight and more than 0.5 s have elapsed, resetting to -1; otherwise coast with the state unchanged |
| `Scheduler.Run` | Assets/BoidsSystem.cs:287-372 | a run of frames takes exactly one action per frame |
| `Scheduler.RunIsBracketed` | Assets/BoidsSystem.cs:290-359 | with a positive clock, dispatch happens only when no cycle is in flight, and apply or coast only while one is |
| `Scheduler.BracketedBalance` | Assets/BoidsSystem.cs:290-359 | in every legal prefix, dispatches equal applies or exceed them by one; an apply closes exactly one open cycle; a dispatch opens one only when none is open |
| `Scheduler.EveryApplyAnswersOneDispatch` | Assets/BoidsSystem.cs:290-359 | from the initial state, each apply is preceded by exactly one unanswered dispatch, and no dispatch happens while a cycle is open |
| `Scheduler.ApplyAnswersEarlierDispatch` | Assets/BoidsSystem.cs:327-355 | each apply answers a dispatch made in an earlier frame more than 0.5 s before, with only coasting in between, or else the cycle already in flight at the start |
| `Scheduler.ApplyOnlyAfterBudget` | Assets/BoidsSystem.cs:327-355 | from the initial state, an apply never happens in its dispatch frame, and it comes strictly more than 0.5 s after it |
| `Scheduler.DispatchAtTimeZeroIsLost` | Assets/BoidsSystem.cs:290-327 | a dispatch at clock 0.0 reads as idle, so the next frame dispatches again without applying |
| `Boids.AllInCellZero` | Assets/BoidsSystem.cs:271-276 | the start-up map, with every boid under key 0, already partitions the boids |
| `Boids.SingleCellPartitions` | Assets/BoidsSystem.cs:273-276 | one bucket holding 0..N-1 in order is a partition |
| `Boids.Start` | Assets/BoidsSystem.cs:241-280 | on the first start, with `lastSteeringStart` still at its field initializer -1, the system is idle, with every buffer sized N and the between-frames invariant holding |
| `Boids.OnUpdate` | Assets/BoidsSystem.cs:287-372 | each frame keeps the invariant. Dispatch snapshots the frame-start poses, rebuilds the buckets and fills every slot with that boid's force, then coasts. Apply moves each boid along the force computed for it from its cycle's snapshot. Coast changes only positions |

## Left out

- Floating point. `math.normalize` and `quaternion.LookRotation` are left uninterpreted (`Numerics`), because they need square roots. So the model does not show the written force is a unit vector, and does not show the NaN that normalising a zero vector produces.
- `math.distance`: replaced by the equivalent squared-distance test, as proved by the two `Geometry.Squared…` lemmas.
- The random wander rotation (`Unity.Mathematics.Random`, `quaternion.Euler` of three random angles) and the per-cycle reseeding. The rotation is an input per boid. Random state copied into parallel workers is not modelled.
- Job scheduling and concurrency: `ScheduleGroup`, `JobHandle` dependencies, `AddDependency`, and the thread-safe `Concurrent` multimap writer. Only their sequential effect is modelled. In the dispatch frame, the copy and hash jobs are scheduled with the same input dependency as `MoveForward`, which writes the positions they read. The model has them read the poses as they were at the start of the frame.
- `CopyDataJob` is a field-by-field copy. The snapshot is the live pose sequence itself, taken as a value.
- Native memory lifecycle: allocation, `Dispose`, and the multimap's capacity. Buffers allocated uninitialised are given placeholder contents in `Boids.Start`: zero vectors for `outforce` and for the snapshot positions, and the identity rotation for the snapshot rotations and the wander inputs. Nothing reads them before the first dispatch overwrites them.
- Boids.Start: models only the first start, when `lastSteeringStart` is still -1 from its field initializer (line 241). `OnStartRunning` does not reset it. If the system is stopped and restarted in the middle of a cycle, the next frame applies from a freshly allocated, uninitialised `_outforce`, and `Boids.Valid` would not hold. That stop/restart is not modelled.
- `Buckets.HashPositions`: the multimap keeps insertion order within a key. The real container promises no order. No stated property depends on order.
- The unused `DeltaTime` field of the steering job, the unused `up` vectors of the steering loop, and the per-boid `BoidData.Speed`, which this system never reads.
- `Bootstrap.cs`: entity creation, random spawn values and mesh/material assignment.
