/**
 * The spatial hash of `HashPositionJob`: a multimap from octant code to boid
 * index, cleared and then filled with one entry per boid at the start of
 * every steering cycle.
 */
module Buckets {
  import opened Geometry
  import opened Octants

  /**
   * `NativeMultiHashMap<int, int>`: each key holds the values added under it.
   * The container promises no order within a key; the model keeps insertion
   * order, and no property below depends on it.
   */
  type MultiMap = map<int, seq<int>>

  ghost predicate NoDuplicates(s: seq<int>)
  {
    forall a, b :: 0 <= a < b < |s| ==> s[a] != s[b]
  }

  ghost predicate Increasing(s: seq<int>)
  {
    forall a, b :: 0 <= a < b < |s| ==> s[a] < s[b]
  }

  /** `NativeMultiHashMap.Add(k, v)`: one more value under `k`, nothing else changes. */
  function AddEntry(m: MultiMap, k: int, v: int): (r: MultiMap)
    ensures r.Keys == m.Keys + {k}
    ensures multiset(r[k]) == (if k in m then multiset(m[k]) else multiset{}) + multiset{v}
    ensures forall k' :: k' in m && k' != k ==> r[k'] == m[k']
  {
    m[k := (if k in m then m[k] else []) + [v]]
  }

  /** Reference definition: the boids among the first `n` that lie in cell `k`, by index. */
  function CellMembers(positions: seq<Vec3>, k: int, n: nat): seq<int>
    requires n <= |positions|
  {
    if n == 0 then []
    else CellMembers(positions, k, n - 1) + (if OctantCode(positions[n - 1]) == k then [n - 1] else [])
  }

  /** `CellMembers` lists exactly the boids of the cell, each once. */
  lemma {:induction false} CellMembersExactly(positions: seq<Vec3>, k: int, n: nat)
    requires n <= |positions|
    ensures forall v :: v in CellMembers(positions, k, n) <==> 0 <= v < n && OctantCode(positions[v]) == k
    ensures forall a :: 0 <= a < |CellMembers(positions, k, n)| ==> CellMembers(positions, k, n)[a] < n
    ensures Increasing(CellMembers(positions, k, n))
  {
    if n > 0 {
      CellMembersExactly(positions, k, n - 1);
    }
  }

  /** The multimap holding the first `n` boids, each under its own cell. */
  ghost function BucketsUpTo(positions: seq<Vec3>, n: nat): MultiMap
    requires n <= |positions|
  {
    map k | 0 <= k < CellCount && CellMembers(positions, k, n) != [] :: CellMembers(positions, k, n)
  }

  /** The multimap the hash job leaves behind, stated directly. */
  ghost function BucketsOf(positions: seq<Vec3>): MultiMap
  {
    BucketsUpTo(positions, |positions|)
  }

  /** Filing boid `n` under its code extends the buckets of the first `n` boids by that boid. */
  lemma AddNextBoid(positions: seq<Vec3>, n: nat)
    requires n < |positions|
    ensures AddEntry(BucketsUpTo(positions, n), OctantCode(positions[n]), n) == BucketsUpTo(positions, n + 1)
  {
    var c := OctantCode(positions[n]);
    var lhs, rhs := AddEntry(BucketsUpTo(positions, n), c, n), BucketsUpTo(positions, n + 1);
    assert forall k :: CellMembers(positions, k, n + 1) == CellMembers(positions, k, n) + (if c == k then [n] else []);
    assert lhs.Keys == rhs.Keys;
    forall k | k in lhs
      ensures lhs[k] == rhs[k]
    {
      if k == c {
        var before := BucketsUpTo(positions, n);
        assert (if c in before then before[c] else []) == CellMembers(positions, c, n);
      }
    }
  }

  /** Some bucket of `m` holds `i`. */
  ghost predicate HasHome(m: MultiMap, i: int)
  {
    exists k :: k in m && i in m[k]
  }

  /**
   * The buckets partition the indices `0 .. n-1`: every index lies in exactly
   * one bucket and appears there once, and no bucket holds anything else.
   */
  ghost predicate Partitions(m: MultiMap, n: nat)
  {
    && (forall k, v :: k in m && v in m[k] ==> 0 <= v < n)
    && (forall i :: 0 <= i < n ==> HasHome(m, i))
    && (forall k1, k2, i :: k1 in m && k2 in m && i in m[k1] && i in m[k2] ==> k1 == k2)
    && (forall k :: k in m ==> NoDuplicates(m[k]))
  }

  /** Filing every boid under its octant code partitions the boids. */
  lemma BucketsPartition(positions: seq<Vec3>)
    ensures Partitions(BucketsOf(positions), |positions|)
  {
    var m, n := BucketsOf(positions), |positions|;
    forall k | k in m
      ensures forall v :: v in m[k] <==> 0 <= v < n && OctantCode(positions[v]) == k
      ensures NoDuplicates(m[k])
    {
      CellMembersExactly(positions, k, n);
    }
    forall i | 0 <= i < n
      ensures HasHome(m, i)
    {
      var k := OctantCode(positions[i]);
      CellMembersExactly(positions, k, n);
      assert k in m && i in m[k];
    }
  }

  /**
   * `_hashMap.Clear()` followed by `HashPositionJob` over all boids: whatever
   * the map held before (`stale`), the result files boid `i` under the octant
   * code of `positions[i]` and nothing else, so it partitions the boids.
   */
  method HashPositions(stale: MultiMap, positions: seq<Vec3>) returns (m: MultiMap)
    ensures m == BucketsOf(positions)
    ensures forall k :: k in m ==> 0 <= k < CellCount
    ensures Partitions(m, |positions|)
  {
    m := map[];  // `_hashMap.Clear()`: nothing of `stale` survives
    var i := 0;
    assert m == BucketsUpTo(positions, 0);
    while i < |positions|
      invariant 0 <= i <= |positions|
      invariant m == BucketsUpTo(positions, i)
    {
      AddNextBoid(positions, i);
      m := AddEntry(m, OctantCode(positions[i]), i);
      i := i + 1;
    }
    BucketsPartition(positions);
  }
}
