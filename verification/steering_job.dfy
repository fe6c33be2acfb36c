/**
 * How the steering job is driven by the bucket multimap: the job system calls
 * `ExecuteFirst` for the first boid of every bucket and `ExecuteNext` for the
 * others, and both run `ComputeMovement` for their own boid, which writes
 * that boid's slot of `outforce`.
 *
 * The order in which the job system visits the keys is left open: every
 * result below holds for any enumeration of the keys.
 */
module SteeringJob {
  import opened Geometry
  import opened Octants
  import opened Buckets
  import opened Steering

  /** One callback of the merged-shared-key-indices job. */
  datatype Call = ExecuteFirst(index: int) | ExecuteNext(cellIndex: int, index: int)

  /**
   * The calls for one bucket: its first boid opens the cell and every later
   * boid is reported together with that first boid.
   */
  function CellCalls(bucket: seq<int>): (calls: seq<Call>)
    ensures |calls| == |bucket|
    ensures forall j :: 0 <= j < |bucket| ==> calls[j].index == bucket[j]
    ensures |bucket| > 0 ==> calls[0] == ExecuteFirst(bucket[0])
    ensures forall j :: 0 < j < |bucket| ==> calls[j] == ExecuteNext(bucket[0], bucket[j])
  {
    if bucket == [] then []
    else [ExecuteFirst(bucket[0])] + seq(|bucket| - 1, j requires 0 <= j < |bucket| - 1 => ExecuteNext(bucket[0], bucket[j + 1]))
  }

  /** The calls the job issues when it visits the buckets in the order `keys`. */
  function Dispatch(m: MultiMap, keys: seq<int>): seq<Call>
    requires forall j :: 0 <= j < |keys| ==> keys[j] in m
  {
    if keys == [] then [] else CellCalls(m[keys[0]]) + Dispatch(m, keys[1..])
  }

  /** The output slot each call writes: `ComputeMovement(index)` writes `outforce[index]`. */
  function Slots(calls: seq<Call>): (r: seq<int>)
    ensures |r| == |calls|
    ensures forall t :: 0 <= t < |calls| ==> r[t] == calls[t].index
  {
    seq(|calls|, t requires 0 <= t < |calls| => calls[t].index)
  }

  /** `keys` lists every key of `m` once and nothing else. */
  ghost predicate EnumeratesKeys(keys: seq<int>, m: MultiMap)
  {
    && (forall j :: 0 <= j < |keys| ==> keys[j] in m)
    && (forall k :: k in m ==> k in keys)
    && NoDuplicates(keys)
  }

  /** The keys of a map of cells, in ascending order from cell `c` on. */
  function KeysFrom(m: MultiMap, c: nat): (keys: seq<int>)
    requires forall k :: k in m ==> 0 <= k < CellCount
    ensures forall k :: k in keys <==> k in m && c <= k
    ensures Increasing(keys)
    decreases CellCount - c
  {
    if c >= CellCount then []
    else
      var rest := KeysFrom(m, c + 1);
      assert forall j :: 0 <= j < |rest| ==> rest[j] in rest;
      (if c in m then [c] else []) + rest
  }

  /** The keys of a map of cells in ascending order: one enumeration the job system may use. */
  function AscendingKeys(m: MultiMap): (keys: seq<int>)
    requires forall k :: k in m ==> 0 <= k < CellCount
    ensures EnumeratesKeys(keys, m)
  {
    var keys := KeysFrom(m, 0);
    assert forall j :: 0 <= j < |keys| ==> keys[j] in m by {
      forall j | 0 <= j < |keys| ensures keys[j] in m { assert keys[j] in keys; }
    }
    assert forall k :: k in m ==> k in keys by {
      forall k | k in m ensures k in keys { assert 0 <= k; }
    }
    IncreasingHasNoDuplicates(keys);
    keys
  }

  lemma IncreasingHasNoDuplicates(s: seq<int>)
    requires Increasing(s)
    ensures NoDuplicates(s)
  {
  }

  /** In a sequence without repetitions every value occurs at most once. */
  lemma {:induction false} OccursOnce(s: seq<int>, i: int)
    requires NoDuplicates(s)
    ensures multiset(s)[i] == if i in s then 1 else 0
  {
    if s != [] {
      assert s == [s[0]] + s[1..];
      OccursOnce(s[1..], i);
      assert s[0] !in s[1..];
    }
  }

  lemma SlotsOfAppend(a: seq<Call>, b: seq<Call>)
    ensures Slots(a + b) == Slots(a) + Slots(b)
  {
    var l, r := Slots(a + b), Slots(a) + Slots(b);
    forall t | 0 <= t < |l|
      ensures l[t] == r[t]
    {
      if t < |a| { assert (a + b)[t] == a[t]; } else { assert (a + b)[t] == b[t - |a|]; }
    }
  }

  /** A bucket's calls write exactly the bucket's boids. */
  lemma SlotsOfCellCalls(bucket: seq<int>)
    ensures Slots(CellCalls(bucket)) == bucket
  {
  }

  /** The slots of a dispatch are the first bucket's boids followed by the slots of the rest. */
  lemma SlotsOfDispatch(m: MultiMap, keys: seq<int>)
    requires keys != [] && forall j :: 0 <= j < |keys| ==> keys[j] in m
    ensures Slots(Dispatch(m, keys)) == m[keys[0]] + Slots(Dispatch(m, keys[1..]))
  {
    var head, tail := CellCalls(m[keys[0]]), Dispatch(m, keys[1..]);
    assert Dispatch(m, keys) == head + tail;
    SlotsOfAppend(head, tail);
    SlotsOfCellCalls(m[keys[0]]);
  }

  /**
   * Over distinct keys of a partition, boid `i` is dispatched once if its
   * home bucket is among the keys and not at all otherwise.
   */
  lemma {:induction false} DispatchCount(m: MultiMap, keys: seq<int>, n: nat, i: int)
    requires Partitions(m, n) && 0 <= i < n
    requires forall j :: 0 <= j < |keys| ==> keys[j] in m
    requires NoDuplicates(keys)
    ensures multiset(Slots(Dispatch(m, keys)))[i] == if InSomeBucket(m, keys, i) then 1 else 0
  {
    if keys == [] {
      assert Dispatch(m, keys) == [];
    } else {
      var k0, rest := keys[0], keys[1..];
      SlotsOfDispatch(m, keys);
      DispatchCount(m, rest, n, i);
      OccursOnce(m[k0], i);
      if i in m[k0] {
        assert k0 !in rest;
        assert !InSomeBucket(m, rest, i);
        assert InSomeBucket(m, keys, i);
      } else if InSomeBucket(m, keys, i) {
        var k :| k in keys && k in m && i in m[k];
        assert k in rest;
        assert InSomeBucket(m, rest, i);
      } else {
        assert !InSomeBucket(m, rest, i);
      }
    }
  }

  /**
   * Given a partition, visiting every bucket once writes every output slot
   * `0 .. n-1` exactly once and writes no other slot.
   */
  lemma EachSlotWrittenOnce(m: MultiMap, keys: seq<int>, n: nat)
    requires Partitions(m, n) && EnumeratesKeys(keys, m)
    ensures forall i :: 0 <= i < n ==> multiset(Slots(Dispatch(m, keys)))[i] == 1
    ensures forall t :: 0 <= t < |Dispatch(m, keys)| ==> 0 <= Dispatch(m, keys)[t].index < n
  {
    forall i | 0 <= i < n
      ensures multiset(Slots(Dispatch(m, keys)))[i] == 1
    {
      DispatchCount(m, keys, n, i);
      assert HasHome(m, i);
      var k :| k in m && i in m[k];
      assert InSomeBucket(m, keys, i);
    }
    DispatchInBuckets(m, keys);
  }

  /** Boid `i` lies in one of the buckets named by `keys`. */
  ghost predicate InSomeBucket(m: MultiMap, keys: seq<int>, i: int)
  {
    exists k :: k in keys && k in m && i in m[k]
  }

  /** Every dispatched boid comes from one of the visited buckets. */
  lemma {:induction false} DispatchInBuckets(m: MultiMap, keys: seq<int>)
    requires forall j :: 0 <= j < |keys| ==> keys[j] in m
    ensures forall t :: 0 <= t < |Dispatch(m, keys)| ==> InSomeBucket(m, keys, Dispatch(m, keys)[t].index)
  {
    if keys != [] {
      DispatchInBuckets(m, keys[1..]);
      var head := CellCalls(m[keys[0]]);
      assert Dispatch(m, keys) == head + Dispatch(m, keys[1..]);
      forall t | 0 <= t < |Dispatch(m, keys)|
        ensures InSomeBucket(m, keys, Dispatch(m, keys)[t].index)
      {
        if t < |head| {
          var k0 := keys[0];
          assert Dispatch(m, keys)[t].index == m[k0][t];
          assert k0 in keys && m[k0][t] in m[k0];
        } else {
          var u := t - |head|;
          assert Dispatch(m, keys)[t] == Dispatch(m, keys[1..])[u];
          assert InSomeBucket(m, keys[1..], Dispatch(m, keys[1..])[u].index);
          var k :| k in keys[1..] && k in m && Dispatch(m, keys[1..])[u].index in m[k];
          assert k in keys;
          assert Dispatch(m, keys)[t].index in m[k];
        }
      }
    } else {
      assert Dispatch(m, keys) == [];
    }
  }

  /** `_outforce.Clear()`: every slot back to the zero vector. */
  function Cleared(n: nat): (r: seq<Vec3>)
    ensures |r| == n
    ensures forall i :: 0 <= i < n ==> r[i] == Zero
  {
    seq(n, i => Zero)
  }

  /**
   * Runs the calls in order on a cleared output buffer. A slot some call
   * targets ends up holding that boid's steering force; every other slot
   * stays zero.
   */
  method ExecuteCalls(calls: seq<Call>, inData: seq<Pose>, wander: seq<Quat>, nm: Numerics) returns (outforce: seq<Vec3>)
    requires |wander| == |inData|
    requires forall t :: 0 <= t < |calls| ==> 0 <= calls[t].index < |inData|
    ensures |outforce| == |inData|
    ensures forall i :: 0 <= i < |inData| ==>
      outforce[i] == if i in Slots(calls) then ComputeMovement(inData, i, wander[i], nm) else Zero
  {
    outforce := Cleared(|inData|);
    var t := 0;
    while t < |calls|
      invariant 0 <= t <= |calls|
      invariant |outforce| == |inData|
      invariant forall i :: 0 <= i < |inData| ==>
        outforce[i] == if i in Slots(calls[..t]) then ComputeMovement(inData, i, wander[i], nm) else Zero
    {
      var index := calls[t].index;
      outforce := outforce[index := ComputeMovement(inData, index, wander[index], nm)];
      assert Slots(calls[..t + 1]) == Slots(calls[..t]) + [index];
      t := t + 1;
    }
    assert calls[..t] == calls;
  }

  /**
   * One steering cycle's sequential effect: with the buckets partitioning the
   * boids, visiting them in any key order leaves every slot of `outforce`
   * holding exactly that boid's steering force.
   */
  method RunSteering(inData: seq<Pose>, m: MultiMap, keys: seq<int>, wander: seq<Quat>, nm: Numerics)
    returns (outforce: seq<Vec3>)
    requires |wander| == |inData|
    requires Partitions(m, |inData|) && EnumeratesKeys(keys, m)
    ensures |outforce| == |inData|
    ensures forall i :: 0 <= i < |inData| ==> outforce[i] == ComputeMovement(inData, i, wander[i], nm)
  {
    var calls := Dispatch(m, keys);
    EachSlotWrittenOnce(m, keys, |inData|);
    outforce := ExecuteCalls(calls, inData, wander, nm);
    forall i | 0 <= i < |inData|
      ensures i in Slots(calls)
    {
      assert multiset(Slots(calls))[i] == 1;
    }
  }
}
