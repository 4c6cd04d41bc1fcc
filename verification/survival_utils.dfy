/** The helpers of `simpleland/contentbundles/survival_utils.py`: the
  * survival content's own cell/position conversion (which truncates where
  * the physics engine rounds), the bucketing of facing angles into the four
  * sprite directions, and the multi-hot and one-hot vectorisers used for
  * observations. */
module SurvivalUtils {
  import opened Base

  /** Python's `int(n / d)` for `d > 0`: the quotient truncated toward
    * zero (Dafny's `/` floors instead). */
  function TruncDiv(n: int, d: int): (q: int)
    requires d > 0
    ensures n >= 0 ==> q * d <= n < q * d + d
    ensures n < 0 ==> q * d - d < n <= q * d
  {
    if n >= 0 then n / d
    else
      var p := (-n) / d;
      assert (-n) == p * d + (-n) % d;
      -p
  }

  /** `vec_to_coord`: each component divided by the tile size and
    * truncated. */
  function VecToCell(v: Vec, tileSize: nat): (c: Coord)
    requires tileSize > 0
    ensures c.x == TruncDiv(v.x, tileSize) && c.y == TruncDiv(v.y, tileSize)
  {
    Coord(TruncDiv(v.x, tileSize), TruncDiv(v.y, tileSize))
  }

  /** `coord_to_vec`: the cell's corner. */
  function CellToVec(c: Coord, tileSize: nat): (v: Vec)
    ensures v.x == c.x * tileSize && v.y == c.y * tileSize
  {
    Vec(c.x * tileSize, c.y * tileSize)
  }

  lemma {:induction false} MulGrows(k: int, d: int)
    requires k >= 1 && d > 0
    ensures k * d >= d
  {
    if k > 1 {
      MulGrows(k - 1, d);
      assert k * d == (k - 1) * d + d;
    }
  }

  /** Truncating an exact multiple gives the factor back, whatever its sign. */
  lemma TruncDivExact(c: int, d: int)
    requires d > 0
    ensures TruncDiv(c * d, d) == c
  {
    var q := TruncDiv(c * d, d);
    if q < c {
      assert c * d - q * d == (c - q) * d;
      MulGrows(c - q, d);
    } else if q > c {
      assert q * d - c * d == (q - c) * d;
      MulGrows(q - c, d);
    }
  }

  /** `vec_to_coord(coord_to_vec(c)) == c` for every cell. */
  lemma CellRoundTrip(c: Coord, tileSize: nat)
    requires tileSize > 0
    ensures VecToCell(CellToVec(c, tileSize), tileSize) == c
  {
    TruncDivExact(c.x, tileSize);
    TruncDivExact(c.y, tileSize);
  }

  /** A position inside a cell with non-negative components maps to that
    * cell; on the negative side truncation sends it to the neighbour
    * toward zero, so the round trip holds only one way. */
  lemma NegativeOffsetLeavesCell()
    ensures VecToCell(Vec(-1, 0), 16) == Coord(0, 0)
    ensures CellToVec(Coord(-1, 0), 16) == Vec(-16, 0)
  {
  }

  /** Python's `a % 360`: the representative in `[0, 360)`, which Dafny's
    * `%` also gives for a positive divisor. */
  function Mod360(a: int): (r: int)
    ensures 0 <= r < 360 && (a - r) % 360 == 0
  {
    a % 360
  }

  /** `normalize_angle`: the angle reduced modulo 360 and bucketed into the
    * nearest quarter turn. */
  function NormalizeAngle(angle: int): (r: int)
    ensures r == 0 || r == 90 || r == 180 || r == 270
    ensures r == 180 <==> 135 <= Mod360(angle) < 225
    ensures r == 90 <==> 45 <= Mod360(angle) < 135
    ensures r == 270 <==> 225 <= Mod360(angle) < 315
    ensures r == 0 <==> Mod360(angle) >= 315 || Mod360(angle) < 45
  {
    var a := Mod360(angle);
    if a < 225 && a >= 135 then 180
    else if a >= 45 && a < 135 then 90
    else if a < 315 && a >= 225 then 270
    else 0
  }

  /** The sprite facing for each quarter turn. */
  function DirectionOf(quarter: int): string
  {
    if quarter == 180 then "up"
    else if quarter == 90 then "left"
    else if quarter == 270 then "right"
    else "down"
  }

  /** `angle_to_sprite_direction`: the same buckets as `normalize_angle`,
    * named; "down" is also the initial value. */
  function SpriteDirection(angle: int): (dir: string)
    ensures dir == "up" || dir == "left" || dir == "right" || dir == "down"
  {
    var a := Mod360(angle);
    if a < 225 && a >= 135 then "up"
    else if a >= 45 && a < 135 then "left"
    else if a < 315 && a >= 225 then "right"
    else "down"
  }

  /** The two bucketings agree: the direction is the name of the normalised
    * angle. */
  lemma SpriteDirectionAgrees(angle: int)
    ensures SpriteDirection(angle) == DirectionOf(NormalizeAngle(angle))
  {
    var a := Mod360(angle);
    if a < 225 && a >= 135 {
      assert NormalizeAngle(angle) == 180;
    } else if a >= 45 && a < 135 {
      assert NormalizeAngle(angle) == 90;
    } else if a < 315 && a >= 225 {
      assert NormalizeAngle(angle) == 270;
    } else {
      assert NormalizeAngle(angle) == 0;
    }
  }

  /** Normalising twice changes nothing, and a whole turn changes nothing. */
  lemma NormalizeStable(angle: int)
    ensures NormalizeAngle(NormalizeAngle(angle)) == NormalizeAngle(angle)
    ensures NormalizeAngle(angle + 360) == NormalizeAngle(angle)
  {
    assert Mod360(angle + 360) == Mod360(angle);
  }

  /** A numpy index `i` into a vector of length `n`: a negative index
    * counts from the end; out of range raises `IndexError`. */
  function Slot(i: int, n: nat): Option<nat>
  {
    if 0 <= i < n then Some(i)
    else if i < 0 && 0 <= n + i then Some(n + i)
    else None
  }

  /** Slot `j` of a vector of length `n` is hit by some index of `ints`. */
  predicate Hit(ints: seq<int>, n: nat, j: nat)
  {
    exists k :: 0 <= k < |ints| && Slot(ints[k], n) == Some(j)
  }

  /** `ints_to_multi_hot`: a zero vector of length `maxId` with a 1 at each
    * listed index; `None` gives the zero vector, and an index outside the
    * vector raises. */
  method IntsToMultiHot(ints: Option<seq<int>>, maxId: nat) returns (r: Result<seq<int>>)
    ensures r.Ok? <==> ints.None? || forall k :: 0 <= k < |ints.value| ==> Slot(ints.value[k], maxId).Some?
    ensures r.Ok? ==> |r.value| == maxId
    ensures r.Ok? && ints.None? ==> forall j :: 0 <= j < maxId ==> r.value[j] == 0
    ensures r.Ok? && ints.Some? ==>
              forall j :: 0 <= j < maxId ==> (r.value[j] == 1 <==> Hit(ints.value, maxId, j)) && (r.value[j] == 0 <==> !Hit(ints.value, maxId, j))
  {
    var vec := seq(maxId, _ => 0);
    if ints.None? {
      return Ok(vec);
    }
    var xs := ints.value;
    var i := 0;
    while i < |xs|
      invariant 0 <= i <= |xs| && |vec| == maxId
      invariant forall k :: 0 <= k < i ==> Slot(xs[k], maxId).Some?
      invariant forall j :: 0 <= j < maxId ==> (vec[j] == 1 <==> Hit(xs[..i], maxId, j)) && (vec[j] == 0 <==> !Hit(xs[..i], maxId, j))
    {
      var s := Slot(xs[i], maxId);
      if s.None? {
        return Err(IndexError(xs[i]));
      }
      vec := vec[s.value := 1];
      forall j | 0 <= j < maxId
        ensures Hit(xs[..i + 1], maxId, j) <==> Hit(xs[..i], maxId, j) || j == s.value
      {
        assert xs[..i + 1][i] == xs[i];
        if Hit(xs[..i + 1], maxId, j) {
          var k :| 0 <= k < i + 1 && Slot(xs[..i + 1][k], maxId) == Some(j);
          if k < i {
            assert xs[..i][k] == xs[..i + 1][k];
          }
        }
        if Hit(xs[..i], maxId, j) {
          var k :| 0 <= k < i && Slot(xs[..i][k], maxId) == Some(j);
          assert xs[..i + 1][k] == xs[..i][k];
        }
      }
      i := i + 1;
    }
    assert xs[..i] == xs;
    r := Ok(vec);
  }

  /** The one-hot vector of length `n` with its 1 at slot `j`. */
  function OneHot(n: nat, j: nat): (v: seq<int>)
    requires j < n
    ensures |v| == n && v[j] == 1 && forall k :: 0 <= k < n && k != j ==> v[k] == 0
  {
    seq(n, k => if k == j then 1 else 0)
  }

  /** The result of `int_map_to_onehot_map`: the vector width and the
    * vectors of the named entries; every other key (`None`, `""`, or an
    * unknown name) reads as the zero vector through the default. */
  datatype OnehotMap = OnehotMap(width: nat, vecs: map<string, seq<int>>)

  /** Reading a key: a named entry, else the shared zero vector. */
  function Read(m: OnehotMap, name: Option<string>): (v: seq<int>)
    ensures |v| == m.width || (name.Some? && name.value in m.vecs && v == m.vecs[name.value])
  {
    if name.Some? && name.value in m.vecs then m.vecs[name.value] else seq(m.width, _ => 0)
  }

  /** `int_map_to_onehot_map`: each name maps to the one-hot vector of its
    * index in a vector of `max_id` slots (by default as many as there are
    * names); an index outside the vector raises. */
  method IntMapToOnehotMap(nameIntMap: map<string, int>, maxId: Option<nat>) returns (r: Result<OnehotMap>)
    ensures var n := if maxId.Some? then maxId.value else |nameIntMap|;
            r.Ok? <==> forall name :: name in nameIntMap ==> Slot(nameIntMap[name], n).Some?
    ensures var n := if maxId.Some? then maxId.value else |nameIntMap|;
            r.Ok? ==> r.value.width == n && r.value.vecs.Keys == nameIntMap.Keys
                      && forall name :: name in nameIntMap ==> r.value.vecs[name] == OneHot(n, Slot(nameIntMap[name], n).value)
  {
    var n := if maxId.Some? then maxId.value else |nameIntMap|;
    var vecs: map<string, seq<int>> := map[];
    var todo := nameIntMap.Keys;
    while todo != {}
      invariant todo <= nameIntMap.Keys && vecs.Keys == nameIntMap.Keys - todo
      invariant forall name :: name in vecs ==> Slot(nameIntMap[name], n).Some? && vecs[name] == OneHot(n, Slot(nameIntMap[name], n).value)
      decreases todo
    {
      var name := Pick(todo);
      var s := Slot(nameIntMap[name], n);
      if s.None? {
        return Err(IndexError(nameIntMap[name]));
      }
      vecs := vecs[name := OneHot(n, s.value)];
      todo := todo - {name};
    }
    r := Ok(OnehotMap(n, vecs));
  }

  /** `None`, `""` (unless it is itself a name) and unknown names read as
    * the zero vector; a name reads as its one-hot vector. */
  lemma ReadDefaults(m: OnehotMap, name: Option<string>)
    requires forall k :: k in m.vecs ==> |m.vecs[k]| == m.width
    ensures name.None? || name.value !in m.vecs ==> forall j :: 0 <= j < m.width ==> Read(m, name)[j] == 0
    ensures |Read(m, name)| == m.width
  {
  }
}
