/**
 * The cell code of the spatial hash: space is cut by the three coordinate
 * planes into eight octants, and a boid's cell is the octant its position
 * lies in. A coordinate that is exactly zero counts as non-positive.
 */
module Octants {
  import opened Geometry

  const CellCount := 8

  /** Which side of each coordinate plane a point lies on (true = strictly positive). */
  datatype Signs = Signs(xPositive: bool, yPositive: bool, zPositive: bool)

  function SignsOf(p: Vec3): Signs
  {
    Signs(p.x > 0.0, p.y > 0.0, p.z > 0.0)
  }

  /**
   * The key `HashPositionJob` files a boid under. Bit 0 records x > 0, bit 1
   * records y > 0 and bit 2 records z > 0.
   */
  function OctantCode(p: Vec3): (c: int)
    ensures 0 <= c < CellCount
    ensures c % 2 == 1 <==> p.x > 0.0
    ensures (c / 2) % 2 == 1 <==> p.y > 0.0
    ensures c / 4 == 1 <==> p.z > 0.0
  {
    (if p.x > 0.0 then 1 else 0) + (if p.y > 0.0 then 2 else 0) + (if p.z > 0.0 then 4 else 0)
  }

  /** Reads the three bits of a cell code back. */
  function CellSigns(c: int): Signs
    requires 0 <= c < CellCount
  {
    Signs(c % 2 == 1, (c / 2) % 2 == 1, c / 4 == 1)
  }

  /** A point strictly inside octant `c`. */
  function CellWitness(c: int): Vec3
    requires 0 <= c < CellCount
  {
    var s := CellSigns(c);
    Vec3(if s.xPositive then 1.0 else -1.0, if s.yPositive then 1.0 else -1.0, if s.zPositive then 1.0 else -1.0)
  }

  /** Decoding a point's code gives back the point's sign pattern. */
  lemma CodeRecordsSigns(p: Vec3)
    ensures CellSigns(OctantCode(p)) == SignsOf(p)
  {
  }

  /** Two points share a cell exactly when they lie on the same sides of all three planes. */
  lemma SameCellIffSameSigns(p: Vec3, q: Vec3)
    ensures OctantCode(p) == OctantCode(q) <==> SignsOf(p) == SignsOf(q)
  {
    CodeRecordsSigns(p);
    CodeRecordsSigns(q);
    if SignsOf(p) == SignsOf(q) {
      assert OctantCode(p) == OctantCode(q);
    }
  }

  /** Every one of the eight codes is the cell of some point. */
  lemma EveryCellOccurs(c: int)
    requires 0 <= c < CellCount
    ensures OctantCode(CellWitness(c)) == c
  {
  }
}
