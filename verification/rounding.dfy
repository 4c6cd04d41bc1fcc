/** The grid arithmetic of `simpleland/physics_engine.py`: positions map to
  * cells by dividing by the tile size and rounding as Python's `round`
  * does, and cells map back to positions by multiplying. */
module Rounding {
  import opened Base

  /** Python's `round(n / d)` for `d > 0`: the nearest integer, halves going
    * to the even neighbour. */
  function RoundDiv(n: int, d: int): (q: int)
    requires d > 0
    ensures 2 * (n - q * d) <= d && 2 * (q * d - n) <= d
    ensures (2 * (n - q * d) == d || 2 * (q * d - n) == d) ==> q % 2 == 0
  {
    var f := n / d;
    var r := n % d;
    assert n == f * d + r;
    assert (f + 1) * d == f * d + d;
    if 2 * r < d then f
    else if 2 * r > d then f + 1
    else if f % 2 == 0 then f else f + 1
  }

  /** `vec_to_coord`: each component divided by the tile size and rounded. */
  function VecToCoord(v: Vec, tileSize: nat): (c: Coord)
    requires tileSize > 0
    ensures c.x == RoundDiv(v.x, tileSize) && c.y == RoundDiv(v.y, tileSize)
  {
    Coord(RoundDiv(v.x, tileSize), RoundDiv(v.y, tileSize))
  }

  /** `coord_to_vec`: the cell's corner, each component times the tile size. */
  function CoordToVec(c: Coord, tileSize: nat): (v: Vec)
    ensures v.x == c.x * tileSize && v.y == c.y * tileSize
  {
    Vec(c.x * tileSize, c.y * tileSize)
  }

  lemma {:induction false} MulAtLeast(k: int, d: int)
    requires k >= 1 && d > 0
    ensures k * d >= d
  {
    if k > 1 {
      MulAtLeast(k - 1, d);
      assert k * d == (k - 1) * d + d;
    }
  }

  /** Rounding an exact multiple gives the factor back. */
  lemma RoundDivExact(c: int, d: int)
    requires d > 0
    ensures RoundDiv(c * d, d) == c
  {
    var q := RoundDiv(c * d, d);
    if q < c {
      assert c * d - q * d == (c - q) * d;
      MulAtLeast(c - q, d);
    } else if q > c {
      assert q * d - c * d == (q - c) * d;
      MulAtLeast(q - c, d);
    }
  }

  /** A cell survives the trip to a position and back. */
  lemma CoordRoundTrip(c: Coord, tileSize: nat)
    requires tileSize > 0
    ensures VecToCoord(CoordToVec(c, tileSize), tileSize) == c
  {
    RoundDivExact(c.x, tileSize);
    RoundDivExact(c.y, tileSize);
  }
}
