/** The tile map of the survival content, in its two versions
  * (`simpleland/contentbundles/survival_map.py` and the newer
  * `landia/survival/survival_map.py`): static text layers are parsed into
  * square sectors of `4 * tile_size` cells, the sectors around a coordinate are loaded
  * (spawning their objects) at most once each, and a boundary of objects is
  * spawned around the map. The two versions differ only where `newer`
  * says so. */
module SurvivalMap {
  import opened Base
  import SurvivalUtils
  import Rounding

  /** An entry of the map's index: the object config it places, and for a
    * spawn point (`type == "spawn_point"`) the id it is filed under in the
    * newer version. */
  datatype Info = Info(kind: Option<string>, obj: string, id: string)

  predicate IsSpawnPoint(info: Info)
  {
    info.kind == Some("spawn_point")
  }

  /** A sector's entries: each cell used, in the order cells were first
    * used, with the infos added there in order. */
  type CellItems = seq<(Coord, seq<Info>)>

  /** The infos recorded at cell `c`. */
  function ItemsAt(items: CellItems, c: Coord): seq<Info>
  {
    if items == [] then [] else if items[0].0 == c then items[0].1 else ItemsAt(items[1..], c)
  }

  /** `Sector.add` on a sector's entries: the info goes at the end of the
    * cell's list, a new cell at the end of the entries. */
  function AppendAt(items: CellItems, c: Coord, info: Info): (r: CellItems)
    ensures ItemsAt(r, c) == ItemsAt(items, c) + [info]
    ensures forall d :: d != c ==> ItemsAt(r, d) == ItemsAt(items, d)
  {
    if items == [] then [(c, [info])]
    else if items[0].0 == c then [(c, items[0].1 + [info])] + items[1..]
    else [items[0]] + AppendAt(items[1..], c, info)
  }

  /** A sector: its sector coordinate, its size and its entries. */
  datatype Sector = Sector(scoord: Coord, height: int, width: int, items: CellItems)

  /** `get_sector_coord`: the sector holding a cell (floor division by the
    * sector size); no coordinate means sector (0, 0). */
  function SectorCoord(coord: Option<Coord>, sectorSize: nat): (s: Coord)
    requires sectorSize > 0
    ensures coord.None? ==> s == Coord(0, 0)
    ensures coord.Some? ==> s.x * sectorSize <= coord.value.x < s.x * sectorSize + sectorSize
    ensures coord.Some? ==> s.y * sectorSize <= coord.value.y < s.y * sectorSize + sectorSize
  {
    if coord.None? then Coord(0, 0)
    else Coord(coord.value.x / sectorSize, coord.value.y / sectorSize)
  }

  /** `get_sector_coord_from_pos`: a position divided (floor) by the tile
    * size and then by the sector size. */
  function SectorCoordFromPos(pos: Option<Vec>, tileSize: nat, sectorSize: nat): (s: Coord)
    requires tileSize > 0 && sectorSize > 0
    ensures pos.None? ==> s == Coord(0, 0)
    ensures pos.Some? ==> s.x * sectorSize <= pos.value.x / tileSize < s.x * sectorSize + sectorSize
    ensures pos.Some? ==> s.y * sectorSize <= pos.value.y / tileSize < s.y * sectorSize + sectorSize
  {
    if pos.None? then Coord(0, 0)
    else Coord(pos.value.x / tileSize / sectorSize, pos.value.y / tileSize / sectorSize)
  }

  /** The corner cell of sector `s`, as `load_sector` computes it. */
  function CornerOf(s: Coord, sectorSize: nat): Coord
  {
    Coord(s.x * sectorSize, s.y * sectorSize)
  }

  /** A sector's corner cell lies in that sector. */
  lemma CornerInSector(s: Coord, sectorSize: nat)
    requires sectorSize > 0
    ensures SectorCoord(Some(CornerOf(s, sectorSize)), sectorSize) == s
  {
    var r := SectorCoord(Some(CornerOf(s, sectorSize)), sectorSize);
    FloorOfMultiple(s.x, r.x, sectorSize);
    FloorOfMultiple(s.y, r.y, sectorSize);
  }

  lemma FloorOfMultiple(a: int, q: int, d: nat)
    requires d > 0 && q * d <= a * d < q * d + d
    ensures q == a
  {
    if q < a {
      assert a * d - q * d == (a - q) * d;
      SurvivalUtils.MulGrows(a - q, d);
    } else if q > a {
      assert q * d - a * d == (q - a) * d;
      SurvivalUtils.MulGrows(q - a, d);
    }
  }

  /** `get_neigh_coords`: the eight sectors around `s`. */
  function NeighCoords(s: Coord): (r: set<Coord>)
    ensures |r| == 8 && s !in r
    ensures forall c :: c in r <==> c != s && -1 <= c.x - s.x <= 1 && -1 <= c.y - s.y <= 1
  {
    var x, y := s.x, s.y;
    var r := {Coord(x, y + 1), Coord(x, y - 1), Coord(x - 1, y), Coord(x + 1, y),
              Coord(x - 1, y - 1), Coord(x + 1, y - 1), Coord(x - 1, y + 1), Coord(x + 1, y + 1)};
    assert |r| == 8 by {
      var a := {Coord(x, y + 1), Coord(x, y - 1), Coord(x - 1, y), Coord(x + 1, y)};
      var b := {Coord(x - 1, y - 1), Coord(x + 1, y - 1), Coord(x - 1, y + 1), Coord(x + 1, y + 1)};
      assert |a| == 4 && |b| == 4 && a * b == {} && r == a + b;
    }
    forall c ensures c in r <==> c != s && -1 <= c.x - s.x <= 1 && -1 <= c.y - s.y <= 1 {
    }
    r
  }

  // ------------------------------------------------------------ sectors

  /** `GameMap.add` on the sector table: the cell's sector is created
    * empty when missing, and the info (if any) is added to it. */
  function AddTo(sectors: map<Coord, Sector>, coord: Coord, info: Option<Info>, sectorSize: nat): (r: map<Coord, Sector>)
    requires sectorSize > 0
    ensures r.Keys == sectors.Keys + {SectorCoord(Some(coord), sectorSize)}
  {
    var sc := SectorCoord(Some(coord), sectorSize);
    var s := if sc in sectors then sectors[sc] else Sector(sc, sectorSize, sectorSize, []);
    sectors[sc := if info.Some? then s.(items := AppendAt(s.items, coord, info.value)) else s]
  }

  /** What the sector table records at cell `c`. */
  function Recorded(sectors: map<Coord, Sector>, c: Coord, sectorSize: nat): seq<Info>
    requires sectorSize > 0
  {
    var sc := SectorCoord(Some(c), sectorSize);
    if sc in sectors then ItemsAt(sectors[sc].items, c) else []
  }

  /** `add` appends to the cell's record and changes no other cell's. */
  lemma AddToRecords(sectors: map<Coord, Sector>, coord: Coord, info: Option<Info>, sectorSize: nat, c: Coord)
    requires sectorSize > 0
    ensures Recorded(AddTo(sectors, coord, info, sectorSize), c, sectorSize)
            == Recorded(sectors, c, sectorSize) + (if c == coord && info.Some? then [info.value] else [])
  {
  }

  /** A run of `add` calls. */
  function AddAll(sectors: map<Coord, Sector>, cells: seq<(Coord, Info)>, sectorSize: nat): (r: map<Coord, Sector>)
    requires sectorSize > 0
    ensures sectors.Keys <= r.Keys
    decreases |cells|
  {
    if cells == [] then sectors else AddAll(AddTo(sectors, cells[0].0, Some(cells[0].1), sectorSize), cells[1..], sectorSize)
  }

  /** The infos of `cells` at cell `c`, in order. */
  function InfosAt(cells: seq<(Coord, Info)>, c: Coord): seq<Info>
    decreases |cells|
  {
    if cells == [] then [] else (if cells[0].0 == c then [cells[0].1] else []) + InfosAt(cells[1..], c)
  }

  lemma AddAllCons(sectors: map<Coord, Sector>, e: (Coord, Info), rest: seq<(Coord, Info)>, sectorSize: nat)
    requires sectorSize > 0
    ensures AddAll(sectors, [e] + rest, sectorSize) == AddAll(AddTo(sectors, e.0, Some(e.1), sectorSize), rest, sectorSize)
  {
    assert ([e] + rest)[0] == e && ([e] + rest)[1..] == rest;
  }

  /** After a run of `add` calls each cell records, after what it had, the
    * infos added at it in the order they were added. */
  lemma {:induction false} AddAllRecords(sectors: map<Coord, Sector>, cells: seq<(Coord, Info)>, sectorSize: nat, c: Coord)
    requires sectorSize > 0
    ensures Recorded(AddAll(sectors, cells, sectorSize), c, sectorSize) == Recorded(sectors, c, sectorSize) + InfosAt(cells, c)
    decreases |cells|
  {
    if cells != [] {
      var next := AddTo(sectors, cells[0].0, Some(cells[0].1), sectorSize);
      AddToRecords(sectors, cells[0].0, Some(cells[0].1), sectorSize, c);
      AddAllRecords(next, cells[1..], sectorSize, c);
    }
  }

  lemma {:induction false} AddAllAppend(sectors: map<Coord, Sector>, a: seq<(Coord, Info)>, b: seq<(Coord, Info)>, sectorSize: nat)
    requires sectorSize > 0
    ensures AddAll(sectors, a + b, sectorSize) == AddAll(AddAll(sectors, a, sectorSize), b, sectorSize)
    decreases |a|
  {
    if a == [] {
      assert a + b == b;
    } else {
      assert (a + b)[0] == a[0] && (a + b)[1..] == a[1..] + b;
      AddAllAppend(AddTo(sectors, a[0].0, Some(a[0].1), sectorSize), a[1..], b, sectorSize);
    }
  }

  // ------------------------------------------------------------ layers

  /** `line[cidx:cidx+2]`: two characters, or one at the end of an odd
    * line. */
  function KeyAt(line: string, cidx: nat): (key: string)
    requires cidx < |line|
    ensures 1 <= |key| <= 2 && cidx + |key| <= |line| && key == line[cidx .. cidx + |key|]
  {
    if cidx + 2 <= |line| then line[cidx .. cidx + 2] else line[cidx ..]
  }

  /** The cells of row `ridx` from column `cidx` on whose key the index
    * knows, each with its info, in column order; cells are two characters
    * wide. */
  function LineCells(line: string, ridx: nat, index: map<string, Info>, cidx: nat): seq<(Coord, Info)>
    decreases |line| - cidx
  {
    if cidx >= |line| then []
    else
      var key := KeyAt(line, cidx);
      (if key in index then [(Coord(cidx / 2, ridx), index[key])] else []) + LineCells(line, ridx, index, cidx + 2)
  }

  lemma LineCellsHit(line: string, ridx: nat, index: map<string, Info>, col: nat)
    requires 2 * col < |line| && KeyAt(line, 2 * col) in index
    ensures LineCells(line, ridx, index, 2 * col)
            == [(Coord(col, ridx), index[KeyAt(line, 2 * col)])] + LineCells(line, ridx, index, 2 * col + 2)
  {
    assert (2 * col) / 2 == col;
  }

  lemma LineCellsMiss(line: string, ridx: nat, index: map<string, Info>, col: nat)
    requires 2 * col < |line| && KeyAt(line, 2 * col) !in index
    ensures LineCells(line, ridx, index, 2 * col) == LineCells(line, ridx, index, 2 * col + 2)
  {
  }

  /** Adding the cells of the row from column `cidx` on to `sectors`
    * gives `goal`. */
  ghost predicate RowPending(goal: map<Coord, Sector>, sectors: map<Coord, Sector>, line: string, ridx: nat,
                             index: map<string, Info>, cidx: nat, sectorSize: nat)
    requires sectorSize > 0
  {
    goal == AddAll(sectors, LineCells(line, ridx, index, cidx), sectorSize)
  }

  /** The extents a row scan reaches once its column counter `col` has
    * passed the end of the row. */
  lemma RowExtents(line: string, ridx: nat, col: nat, xmax: int, ymax: int)
    requires |line| <= 2 * col <= |line| + 1
    ensures LineX(line, xmax) == (if col == 0 then xmax else Max(xmax, col - 1))
    ensures LineY(line, ridx, ymax) == (if col == 0 then ymax else Max(ymax, ridx))
  {
  }

  /** Exactly the indexed cells of the row: cell `(cidx / 2, ridx)` for each
    * even column `cidx` from `from` on whose key the index knows. */
  lemma LineCellsExact(line: string, ridx: nat, index: map<string, Info>, from: nat, c: Coord, info: Info)
    requires from % 2 == 0
    ensures (c, info) in LineCells(line, ridx, index, from) <==>
              exists cidx :: from <= cidx < |line| && cidx % 2 == 0 && c == Coord(cidx / 2, ridx)
                             && KeyAt(line, cidx) in index && info == index[KeyAt(line, cidx)]
  {
    LineCellsFrom(line, ridx, index, from / 2, c, info);
  }

  /** Cell `c` with `info` is the indexed cell of some even column from
    * `from` on. */
  ghost predicate CellFrom(line: string, ridx: nat, index: map<string, Info>, from: nat, c: Coord, info: Info)
  {
    exists cidx :: from <= cidx < |line| && cidx % 2 == 0 && c == Coord(cidx / 2, ridx)
                   && KeyAt(line, cidx) in index && info == index[KeyAt(line, cidx)]
  }

  /** The indexed cell of column `2 * col`, if its key is known. */
  ghost predicate CellAtColumn(line: string, ridx: nat, index: map<string, Info>, col: nat, c: Coord, info: Info)
    requires 2 * col < |line|
  {
    KeyAt(line, 2 * col) in index && c == Coord(col, ridx) && info == index[KeyAt(line, 2 * col)]
  }

  lemma {:induction false} LineCellsFrom(line: string, ridx: nat, index: map<string, Info>, col: nat, c: Coord, info: Info)
    ensures (c, info) in LineCells(line, ridx, index, 2 * col) <==> CellFrom(line, ridx, index, 2 * col, c, info)
    decreases |line| - 2 * col
  {
    if 2 * col < |line| {
      LineCellsFrom(line, ridx, index, col + 1, c, info);
      CellFromSplit(line, ridx, index, col, c, info);
      if KeyAt(line, 2 * col) in index {
        LineCellsHit(line, ridx, index, col);
      } else {
        LineCellsMiss(line, ridx, index, col);
      }
    }
  }

  /** An indexed cell from column `2 * col` on is the one at that column or
    * one from the next cell on. */
  lemma CellFromSplit(line: string, ridx: nat, index: map<string, Info>, col: nat, c: Coord, info: Info)
    requires 2 * col < |line|
    ensures CellFrom(line, ridx, index, 2 * col, c, info)
            <==> CellAtColumn(line, ridx, index, col, c, info) || CellFrom(line, ridx, index, 2 * col + 2, c, info)
  {
    if CellFrom(line, ridx, index, 2 * col, c, info) {
      var cidx :| 2 * col <= cidx < |line| && cidx % 2 == 0 && c == Coord(cidx / 2, ridx)
                  && KeyAt(line, cidx) in index && info == index[KeyAt(line, cidx)];
      if cidx == 2 * col {
        assert cidx / 2 == col;
      } else {
        assert 2 * col + 2 <= cidx;
      }
    }
    if CellAtColumn(line, ridx, index, col, c, info) {
      assert (2 * col) / 2 == col;
    }
  }

  /** The cells of the rows of one layer from row `ridx` on. */
  function LayerCells(lines: seq<string>, index: map<string, Info>, ridx: nat): seq<(Coord, Info)>
    decreases |lines| - ridx
  {
    if ridx >= |lines| then [] else LineCells(lines[ridx], ridx, index, 0) + LayerCells(lines, index, ridx + 1)
  }

  /** The cells of the layers from layer `i` on, layer after layer. */
  function AllCells(layers: seq<seq<string>>, index: map<string, Info>, i: nat): seq<(Coord, Info)>
    decreases |layers| - i
  {
    if i >= |layers| then [] else LayerCells(layers[i], index, 0) + AllCells(layers, index, i + 1)
  }

  /** The largest column index a row reaches (its last, possibly partial,
    * cell), or `acc` if larger. */
  function LineX(line: string, acc: int): int
  {
    if |line| == 0 then acc else Max(acc, (|line| - 1) / 2)
  }

  /** The largest row index reached by a non-empty row, or `acc` if
    * larger. */
  function LineY(line: string, ridx: nat, acc: int): int
  {
    if |line| == 0 then acc else Max(acc, ridx)
  }

  function Max(a: int, b: int): int { if a >= b then a else b }

  /** The extents over the rows of a layer from row `ridx` on, starting
    * from `acc`. */
  function LayerX(lines: seq<string>, ridx: nat, acc: int): int
    decreases |lines| - ridx
  {
    if ridx >= |lines| then acc else LayerX(lines, ridx + 1, LineX(lines[ridx], acc))
  }

  function LayerY(lines: seq<string>, ridx: nat, acc: int): int
    decreases |lines| - ridx
  {
    if ridx >= |lines| then acc else LayerY(lines, ridx + 1, LineY(lines[ridx], ridx, acc))
  }

  function AllX(layers: seq<seq<string>>, i: nat, acc: int): int
    decreases |layers| - i
  {
    if i >= |layers| then acc else AllX(layers, i + 1, LayerX(layers[i], 0, acc))
  }

  function AllY(layers: seq<seq<string>>, i: nat, acc: int): int
    decreases |layers| - i
  {
    if i >= |layers| then acc else AllY(layers, i + 1, LayerY(layers[i], 0, acc))
  }

  /** Rows of `2 * w` visible characters and a newline each. */
  predicate NewlineRows(layers: seq<seq<string>>, w: nat)
  {
    forall i, r :: 0 <= i < |layers| && 0 <= r < |layers[i]| ==> |layers[i][r]| == 2 * w + 1
  }

  lemma {:induction false} LayerXRows(lines: seq<string>, ridx: nat, acc: int, w: nat)
    requires forall r :: 0 <= r < |lines| ==> |lines[r]| == 2 * w + 1
    ensures LayerX(lines, ridx, acc) == if ridx < |lines| then Max(acc, w) else acc
    decreases |lines| - ridx
  {
    if ridx < |lines| {
      assert (|lines[ridx]| - 1) / 2 == w;
      LayerXRows(lines, ridx + 1, LineX(lines[ridx], acc), w);
    }
  }

  /** With newline-terminated rows of `w` cells, the widest cell index the
    * parse sees is `w`: the newline's own cell, one past the last real
    * column. */
  lemma {:induction false} NewlineRowsX(layers: seq<seq<string>>, i: nat, acc: int, w: nat)
    requires NewlineRows(layers, w) && 0 <= acc <= w
    requires exists j :: i <= j < |layers| && layers[j] != []
    ensures AllX(layers, i, acc) == w
    decreases |layers| - i
  {
    LayerXRows(layers[i], 0, acc, w);
    var acc' := LayerX(layers[i], 0, acc);
    if layers[i] == [] {
      NewlineRowsX(layers, i + 1, acc, w);
    } else if exists j :: i + 1 <= j < |layers| && layers[j] != [] {
      NewlineRowsX(layers, i + 1, acc', w);
    } else {
      AllXNoRows(layers, i + 1, acc');
    }
  }

  lemma {:induction false} AllXNoRows(layers: seq<seq<string>>, i: nat, acc: int)
    requires forall j :: i <= j < |layers| ==> layers[j] == []
    ensures AllX(layers, i, acc) == acc
    decreases |layers| - i
  {
    if i < |layers| {
      AllXNoRows(layers, i + 1, acc);
    }
  }

  // ------------------------------------------------------------ boundary

  /** The map's boundary: the x and y ranges and the config of the objects
    * that form it, each possibly missing from the configuration. */
  datatype Boundary = Boundary(x: Option<(int, int)>, y: Option<(int, int)>, obj: Option<string>)

  /** An object to spawn: its config and its cell. */
  datatype Placement = Placement(configId: string, cell: Coord)

  /** The two rows of the boundary for columns `lo` to `hi - 1`. */
  function RowSpawns(lo: int, hi: int, ymin: int, ymax: int, obj: string): (r: seq<Placement>)
    ensures |r| == if hi <= lo then 0 else 2 * (hi - lo)
    decreases hi - lo
  {
    if hi <= lo then [] else RowSpawns(lo, hi - 1, ymin, ymax, obj) + [Placement(obj, Coord(hi - 1, ymin)), Placement(obj, Coord(hi - 1, ymax))]
  }

  /** The two columns of the boundary for rows `lo` to `hi - 1`. */
  function ColumnSpawns(lo: int, hi: int, xmin: int, xmax: int, obj: string): (r: seq<Placement>)
    ensures |r| == if hi <= lo then 0 else 2 * (hi - lo)
    decreases hi - lo
  {
    if hi <= lo then [] else ColumnSpawns(lo, hi - 1, xmin, xmax, obj) + [Placement(obj, Coord(xmin, hi - 1)), Placement(obj, Coord(xmax, hi - 1))]
  }

  lemma {:induction false} RowSpawnsExact(lo: int, hi: int, ymin: int, ymax: int, obj: string, p: Placement)
    ensures p in RowSpawns(lo, hi, ymin, ymax, obj) <==> p.configId == obj && lo <= p.cell.x < hi && (p.cell.y == ymin || p.cell.y == ymax)
    decreases hi - lo
  {
    if lo < hi {
      RowSpawnsExact(lo, hi - 1, ymin, ymax, obj, p);
    }
  }

  lemma {:induction false} ColumnSpawnsExact(lo: int, hi: int, xmin: int, xmax: int, obj: string, p: Placement)
    ensures p in ColumnSpawns(lo, hi, xmin, xmax, obj) <==> p.configId == obj && lo <= p.cell.y < hi && (p.cell.x == xmin || p.cell.x == xmax)
    decreases hi - lo
  {
    if lo < hi {
      ColumnSpawnsExact(lo, hi - 1, xmin, xmax, obj, p);
    }
  }

  /** The cells of the rectangle's perimeter. */
  predicate OnPerimeter(c: Coord, xmin: int, xmax: int, ymin: int, ymax: int)
  {
    (xmin <= c.x <= xmax && (c.y == ymin || c.y == ymax)) || (ymin < c.y < ymax && (c.x == xmin || c.x == xmax))
  }

  /** `load_boundary`'s spawns: rows `ymin` and `ymax` across, then columns
    * `xmin` and `xmax` strictly between them. */
  function PerimeterSpawns(xmin: int, xmax: int, ymin: int, ymax: int, obj: string): seq<Placement>
  {
    RowSpawns(xmin, xmax + 1, ymin, ymax, obj) + ColumnSpawns(ymin + 1, ymax, xmin, xmax, obj)
  }

  /** The boundary objects are all of the boundary config and sit exactly on
    * the perimeter. */
  lemma PerimeterExact(xmin: int, xmax: int, ymin: int, ymax: int, obj: string, p: Placement)
    ensures p in PerimeterSpawns(xmin, xmax, ymin, ymax, obj) <==> p.configId == obj && OnPerimeter(p.cell, xmin, xmax, ymin, ymax)
  {
    RowSpawnsExact(xmin, xmax + 1, ymin, ymax, obj, p);
    ColumnSpawnsExact(ymin + 1, ymax, xmin, xmax, obj, p);
  }

  /** `get_size` (newer version): the widths of the two ranges. */
  function Size(b: Option<Boundary>): (r: Result<(int, int)>)
    ensures r.Ok? <==> b.Some? && b.value.x.Some? && b.value.y.Some?
    ensures r.Ok? ==> r.value.0 + b.value.x.value.0 == b.value.x.value.1 && r.value.1 + b.value.y.value.0 == b.value.y.value.1
  {
    if b.None? then Err(TypeError("boundary"))
    else if b.value.x.None? then Err(MissingKey("x"))
    else if b.value.y.None? then Err(MissingKey("y"))
    else Ok((b.value.x.value.1 - b.value.x.value.0, b.value.y.value.1 - b.value.y.value.0))
  }

  /** `get_center` (newer version): each range's start plus half its width,
    * rounded as Python rounds. */
  function Center(b: Option<Boundary>): (r: Result<Coord>)
    ensures r.Ok? <==> Size(b).Ok?
    ensures r.Ok? ==> var x, y := b.value.x.value, b.value.y.value;
                      -1 <= 2 * (r.value.x - x.0) - (x.1 - x.0) <= 1 && -1 <= 2 * (r.value.y - y.0) - (y.1 - y.0) <= 1
  {
    match Size(b)
    case Err(e) => Err(e)
    case Ok(size) =>
      Ok(Coord(Rounding.RoundDiv(size.0, 2) + b.value.x.value.0, Rounding.RoundDiv(size.1, 2) + b.value.y.value.0))
  }

  // ------------------------------------------------------------ loading

  /** What loading one entry does: spawn an object, or record a spawn point
    * under a key. */
  datatype Load = Place(p: Placement) | SpawnPoint(key: string, pos: Vec)

  /** `load_obj_from_info`, with the newer version's spawn points filed
    * under their id (see `NewerSpawnPointAsWritten`). */
  function LoadOf(newer: bool, info: Info, c: Coord, contentTileSize: nat): Load
  {
    if IsSpawnPoint(info) then SpawnPoint(if newer then info.id else info.obj, SurvivalUtils.CellToVec(c, contentTileSize))
    else Place(Placement(info.obj, c))
  }

  /** `load_obj_from_info` of the newer version as written: a spawn point
    * calls `add_spawn_point`, which that class does not define. */
  function LoadOfAsWritten(info: Info, c: Coord, contentTileSize: nat): Result<Load>
  {
    if IsSpawnPoint(info) then Err(AttributeError("add_spawn_point"))
    else Ok(Place(Placement(info.obj, c)))
  }

  /** As written, the newer version cannot load a map with a spawn point;
    * the corrected loader records it. */
  lemma NewerSpawnPointAsWritten(c: Coord, contentTileSize: nat)
    ensures var info := Info(Some("spawn_point"), "player", "p1");
            && LoadOfAsWritten(info, c, contentTileSize) == Err(AttributeError("add_spawn_point"))
            && LoadOf(true, info, c, contentTileSize) == SpawnPoint("p1", SurvivalUtils.CellToVec(c, contentTileSize))
  {
  }

  /** The two loaders agree on every entry that is not a spawn point. */
  lemma AsWrittenAgreesOffSpawnPoints(info: Info, c: Coord, contentTileSize: nat)
    ensures LoadOfAsWritten(info, c, contentTileSize).Ok? <==> !IsSpawnPoint(info)
    ensures !IsSpawnPoint(info) ==> LoadOfAsWritten(info, c, contentTileSize) == Ok(LoadOf(true, info, c, contentTileSize))
  {
  }

  /** The entries of a cell list, cell by cell. */
  function Flatten(items: CellItems): seq<(Coord, Info)>
  {
    if items == [] then [] else CellEntries(items[0].0, items[0].1) + Flatten(items[1..])
  }

  function CellEntries(c: Coord, infos: seq<Info>): (r: seq<(Coord, Info)>)
    ensures |r| == |infos| && forall k {:trigger r[k]} :: 0 <= k < |r| ==> r[k] == (c, infos[k])
  {
    if infos == [] then [] else [(c, infos[0])] + CellEntries(c, infos[1..])
  }

  /** The objects loading `entries` spawns, in order. */
  function Placements(newer: bool, entries: seq<(Coord, Info)>, contentTileSize: nat): seq<Placement>
  {
    if entries == [] then []
    else
      var l := LoadOf(newer, entries[0].1, entries[0].0, contentTileSize);
      (if l.Place? then [l.p] else []) + Placements(newer, entries[1..], contentTileSize)
  }

  /** The spawn-point table after loading `entries`: each spawn point is
    * appended to its key's list (`add_spawn_point`). */
  function WithSpawnPoints(points: map<string, seq<Vec>>, newer: bool, entries: seq<(Coord, Info)>, contentTileSize: nat): map<string, seq<Vec>>
    decreases |entries|
  {
    if entries == [] then points
    else
      var l := LoadOf(newer, entries[0].1, entries[0].0, contentTileSize);
      var points' := if l.SpawnPoint? then AddPoint(points, l.key, l.pos) else points;
      WithSpawnPoints(points', newer, entries[1..], contentTileSize)
  }

  /** `add_spawn_point`: the position is appended to the key's list. */
  function AddPoint(points: map<string, seq<Vec>>, key: string, pos: Vec): (r: map<string, seq<Vec>>)
    ensures r.Keys == points.Keys + {key}
    ensures r[key] == SpawnPointsOf(points, key) + [pos]
    ensures forall k :: k in points && k != key ==> r[k] == points[k]
  {
    points[key := SpawnPointsOf(points, key) + [pos]]
  }

  /** `get_spawn_points`: the key's list, empty when it has none. */
  function SpawnPointsOf(points: map<string, seq<Vec>>, key: string): seq<Vec>
  {
    if key in points then points[key] else []
  }

  lemma FlattenStep(items: CellItems, j: nat)
    requires j < |items|
    ensures Flatten(items[j..]) == CellEntries(items[j].0, items[j].1) + Flatten(items[j + 1..])
  {
    assert items[j..][0] == items[j] && items[j..][1..] == items[j + 1..];
  }

  /** The objects of `entries` are spawned once each, in order: exactly the
    * entries that are not spawn points. */
  lemma {:induction false} PlacementsExact(newer: bool, entries: seq<(Coord, Info)>, contentTileSize: nat, p: Placement)
    ensures p in Placements(newer, entries, contentTileSize) <==>
              exists k :: 0 <= k < |entries| && !IsSpawnPoint(entries[k].1) && p == Placement(entries[k].1.obj, entries[k].0)
    decreases |entries|
  {
    if entries != [] {
      PlacementsExact(newer, entries[1..], contentTileSize, p);
      if exists k :: 0 <= k < |entries| && !IsSpawnPoint(entries[k].1) && p == Placement(entries[k].1.obj, entries[k].0) {
        var k :| 0 <= k < |entries| && !IsSpawnPoint(entries[k].1) && p == Placement(entries[k].1.obj, entries[k].0);
        if k > 0 {
          assert entries[1..][k - 1] == entries[k];
        }
      }
      if exists k :: 0 <= k < |entries[1..]| && !IsSpawnPoint(entries[1..][k].1) && p == Placement(entries[1..][k].1.obj, entries[1..][k].0) {
        var k :| 0 <= k < |entries[1..]| && !IsSpawnPoint(entries[1..][k].1) && p == Placement(entries[1..][k].1.obj, entries[1..][k].0);
        assert entries[k + 1] == entries[1..][k];
      }
    }
  }

  /** The objects the first entry spawns. */
  function HeadPlacement(newer: bool, e: (Coord, Info), contentTileSize: nat): seq<Placement>
  {
    var l := LoadOf(newer, e.1, e.0, contentTileSize);
    if l.Place? then [l.p] else []
  }

  /** The spawn-point table after the first entry. */
  function HeadPoints(points: map<string, seq<Vec>>, newer: bool, e: (Coord, Info), contentTileSize: nat): map<string, seq<Vec>>
  {
    var l := LoadOf(newer, e.1, e.0, contentTileSize);
    if l.SpawnPoint? then AddPoint(points, l.key, l.pos) else points
  }

  /** One step of loading entries `i` onward. */
  lemma LoadStep(points: map<string, seq<Vec>>, newer: bool, entries: seq<(Coord, Info)>, i: nat, contentTileSize: nat)
    requires i < |entries|
    ensures Placements(newer, entries[i..], contentTileSize)
            == HeadPlacement(newer, entries[i], contentTileSize) + Placements(newer, entries[i + 1..], contentTileSize)
    ensures WithSpawnPoints(points, newer, entries[i..], contentTileSize)
            == WithSpawnPoints(HeadPoints(points, newer, entries[i], contentTileSize), newer, entries[i + 1..], contentTileSize)
  {
    assert entries[i..][0] == entries[i] && entries[i..][1..] == entries[i + 1..];
  }

  lemma {:induction false} PlacementsAppend(newer: bool, a: seq<(Coord, Info)>, b: seq<(Coord, Info)>, contentTileSize: nat)
    ensures Placements(newer, a + b, contentTileSize) == Placements(newer, a, contentTileSize) + Placements(newer, b, contentTileSize)
    decreases |a|
  {
    if a == [] {
      assert a + b == b;
    } else {
      var h := HeadPlacement(newer, a[0], contentTileSize);
      assert (a + b)[0] == a[0] && (a + b)[1..] == a[1..] + b;
      assert Placements(newer, a + b, contentTileSize) == h + Placements(newer, a[1..] + b, contentTileSize);
      PlacementsAppend(newer, a[1..], b, contentTileSize);
      assert Placements(newer, a, contentTileSize) == h + Placements(newer, a[1..], contentTileSize);
    }
  }

  lemma {:induction false} WithSpawnPointsAppend(points: map<string, seq<Vec>>, newer: bool, a: seq<(Coord, Info)>, b: seq<(Coord, Info)>, contentTileSize: nat)
    ensures WithSpawnPoints(points, newer, a + b, contentTileSize)
            == WithSpawnPoints(WithSpawnPoints(points, newer, a, contentTileSize), newer, b, contentTileSize)
    decreases |a|
  {
    if a == [] {
      assert a + b == b;
    } else {
      assert (a + b)[0] == a[0] && (a + b)[1..] == a[1..] + b;
      var l := LoadOf(newer, a[0].1, a[0].0, contentTileSize);
      var points' := if l.SpawnPoint? then AddPoint(points, l.key, l.pos) else points;
      WithSpawnPointsAppend(points', newer, a[1..], b, contentTileSize);
    }
  }

  /** The entries of sector `s` in the table; none when it is missing. */
  function ItemsOf(sectors: map<Coord, Sector>, s: Coord): CellItems
  {
    if s in sectors then sectors[s].items else []
  }

  /** The entries of the sectors `order`, loaded one after another. */
  function SectorEntries(sectors: map<Coord, Sector>, order: seq<Coord>): seq<(Coord, Info)>
  {
    if order == [] then [] else SectorEntries(sectors, order[..|order| - 1]) + Flatten(ItemsOf(sectors, order[|order| - 1]))
  }

  // ------------------------------------------------------------ extents

  /** Every indexed cell of a row lies in that row, between column 0 and
    * the row's last cell. */
  lemma LineCellsInRow(line: string, ridx: nat, index: map<string, Info>, c: Coord, info: Info)
    requires (c, info) in LineCells(line, ridx, index, 0)
    ensures c.y == ridx && 0 <= c.x && |line| > 0 && c.x <= (|line| - 1) / 2
  {
    LineCellsExact(line, ridx, index, 0, c, info);
  }

  lemma {:induction false} LayerXGrows(lines: seq<string>, ridx: nat, acc: int)
    ensures acc <= LayerX(lines, ridx, acc)
    ensures forall r :: ridx <= r < |lines| && |lines[r]| > 0 ==> (|lines[r]| - 1) / 2 <= LayerX(lines, ridx, acc)
    decreases |lines| - ridx
  {
    if ridx < |lines| {
      LayerXGrows(lines, ridx + 1, LineX(lines[ridx], acc));
    }
  }

  lemma {:induction false} LayerYGrows(lines: seq<string>, ridx: nat, acc: int)
    ensures acc <= LayerY(lines, ridx, acc)
    ensures forall r :: ridx <= r < |lines| && |lines[r]| > 0 ==> r <= LayerY(lines, ridx, acc)
    decreases |lines| - ridx
  {
    if ridx < |lines| {
      LayerYGrows(lines, ridx + 1, LineY(lines[ridx], ridx, acc));
    }
  }

  lemma {:induction false} AllXGrows(layers: seq<seq<string>>, i: nat, acc: int)
    ensures acc <= AllX(layers, i, acc)
    ensures forall j, r :: i <= j < |layers| && 0 <= r < |layers[j]| && |layers[j][r]| > 0 ==> (|layers[j][r]| - 1) / 2 <= AllX(layers, i, acc)
    decreases |layers| - i
  {
    if i < |layers| {
      LayerXGrows(layers[i], 0, acc);
      AllXGrows(layers, i + 1, LayerX(layers[i], 0, acc));
    }
  }

  lemma {:induction false} AllYGrows(layers: seq<seq<string>>, i: nat, acc: int)
    ensures acc <= AllY(layers, i, acc)
    ensures forall j, r :: i <= j < |layers| && 0 <= r < |layers[j]| && |layers[j][r]| > 0 ==> r <= AllY(layers, i, acc)
    decreases |layers| - i
  {
    if i < |layers| {
      LayerYGrows(layers[i], 0, acc);
      AllYGrows(layers, i + 1, LayerY(layers[i], 0, acc));
    }
  }

  lemma {:induction false} LayerCellsFrom(lines: seq<string>, index: map<string, Info>, ridx: nat, c: Coord, info: Info)
    requires (c, info) in LayerCells(lines, index, ridx)
    ensures ridx <= c.y < |lines| && |lines[c.y]| > 0 && 0 <= c.x <= (|lines[c.y]| - 1) / 2
    decreases |lines| - ridx
  {
    if (c, info) in LineCells(lines[ridx], ridx, index, 0) {
      LineCellsInRow(lines[ridx], ridx, index, c, info);
    } else {
      LayerCellsFrom(lines, index, ridx + 1, c, info);
    }
  }

  lemma {:induction false} AllCellsFrom(layers: seq<seq<string>>, index: map<string, Info>, i: nat, c: Coord, info: Info)
    requires (c, info) in AllCells(layers, index, i)
    ensures exists j :: i <= j < |layers| && 0 <= c.y < |layers[j]| && |layers[j][c.y]| > 0 && 0 <= c.x <= (|layers[j][c.y]| - 1) / 2
    decreases |layers| - i
  {
    if (c, info) in LayerCells(layers[i], index, 0) {
      LayerCellsFrom(layers[i], index, 0, c, info);
    } else {
      AllCellsFrom(layers, index, i + 1, c, info);
    }
  }

  /** Every cell the static layers place lies within the extents the parse
    * computes: `0 <= x <= xmax` and `0 <= y <= ymax`. */
  lemma CellsWithinExtents(layers: seq<seq<string>>, index: map<string, Info>, c: Coord, info: Info)
    requires (c, info) in AllCells(layers, index, 0)
    ensures 0 <= c.x <= AllX(layers, 0, 0) && 0 <= c.y <= AllY(layers, 0, 0)
  {
    AllCellsFrom(layers, index, 0, c, info);
    var j :| 0 <= j < |layers| && 0 <= c.y < |layers[j]| && |layers[j][c.y]| > 0 && 0 <= c.x <= (|layers[j][c.y]| - 1) / 2;
    AllXGrows(layers, 0, 0);
    AllYGrows(layers, 0, 0);
    assert (|layers[j][c.y]| - 1) / 2 <= AllX(layers, 0, 0);
    assert c.y <= AllY(layers, 0, 0);
  }

  /** The boundary after `load_static_layers` parsed extents `xmax` and
    * `ymax`: the older version fills only missing ranges, with
    * `[-1, xmax + 1]` and `[-1, ymax + 1]`; the newer one always sets
    * `[-1, xmax]` and `[-1, ymax + 1]`. */
  function Bounded(newer: bool, b: Boundary, xmax: int, ymax: int): (r: Boundary)
    ensures r.obj == b.obj && r.x.Some? && r.y.Some?
    ensures r.y == (if b.y.Some? && !newer then b.y else Some((-1, ymax + 1)))
    ensures r.x == (if b.x.Some? && !newer then b.x else if newer then Some((-1, xmax)) else Some((-1, xmax + 1)))
  {
    if newer then b.(x := Some((-1, xmax)), y := Some((-1, ymax + 1)))
    else b.(x := if b.x.None? then Some((-1, xmax + 1)) else b.x, y := if b.y.None? then Some((-1, ymax + 1)) else b.y)
  }

  /** With rows of `w` cells ended by a newline, the newer version's walls
    * stand right beside the map (columns -1 and `w`), while the older one
    * leaves column `w` empty between the map and its wall at `w + 1`; both
    * put the bottom wall right below the last row. */
  lemma BoundaryWalls(layers: seq<seq<string>>, w: nat, b: Boundary)
    requires NewlineRows(layers, w) && exists j :: 0 <= j < |layers| && layers[j] != []
    requires b.x.None? && b.y.None?
    ensures var xmax, ymax := AllX(layers, 0, 0), AllY(layers, 0, 0);
            && Bounded(true, b, xmax, ymax).x == Some((-1, w as int))
            && Bounded(false, b, xmax, ymax).x == Some((-1, w as int + 1))
            && Bounded(true, b, xmax, ymax).y == Bounded(false, b, xmax, ymax).y
  {
    var xmax, ymax := AllX(layers, 0, 0), AllY(layers, 0, 0);
    NewlineRowsX(layers, 0, 0, w);
    assert xmax == w;
    BoundedNoRanges(b, xmax, ymax);
  }

  lemma BoundedNoRanges(b: Boundary, xmax: int, ymax: int)
    requires b.x.None? && b.y.None?
    ensures Bounded(true, b, xmax, ymax).x == Some((-1, xmax))
    ensures Bounded(false, b, xmax, ymax).x == Some((-1, xmax + 1))
    ensures Bounded(true, b, xmax, ymax).y == Bounded(false, b, xmax, ymax).y
  {
  }

  /** The range default of later `initialize` calls in the newer version. */
  function Defaulted(b: Boundary): (r: Boundary)
    ensures r.obj == b.obj && r.x.Some? && r.y.Some?
    ensures r.x == if b.x.Some? then b.x else Some((4, 20))
    ensures r.y == if b.y.Some? then b.y else Some((4, 20))
  {
    b.(x := if b.x.None? then Some((4, 20)) else b.x, y := if b.y.None? then Some((4, 20)) else b.y)
  }

  /** The objects `load_boundary` spawns for a boundary with both ranges:
    * none without an object config. */
  function Walls(b: Boundary): seq<Placement>
    requires b.x.Some? && b.y.Some?
  {
    if b.obj.None? then [] else PerimeterSpawns(b.x.value.0, b.x.value.1, b.y.value.0, b.y.value.1, b.obj.value)
  }

  /** No sequence element appears twice. */
  predicate Distinct(order: seq<Coord>)
  {
    forall a, b :: 0 <= a < b < |order| ==> order[a] != order[b]
  }

  lemma DistinctSnoc(order: seq<Coord>, n: Coord)
    requires Distinct(order) && n !in order
    ensures Distinct(order + [n])
  {
  }

  lemma DistinctPrepend(a: seq<Coord>, b: seq<Coord>)
    requires |a| <= 1 && Distinct(b) && forall k :: k in a ==> k !in b
    ensures Distinct(a + b)
  {
    if a != [] {
      forall i, j | 0 <= i < j < |a + b|
        ensures (a + b)[i] != (a + b)[j]
      {
        if i == 0 {
          assert (a + b)[0] == a[0] && a[0] in a;
          assert (a + b)[j] == b[j - 1] && b[j - 1] in b;
        } else {
          assert (a + b)[i] == b[i - 1] && (a + b)[j] == b[j - 1];
        }
      }
    }
  }

  lemma SectorEntriesSnoc(sectors: map<Coord, Sector>, order: seq<Coord>, n: Coord)
    ensures SectorEntries(sectors, order + [n]) == SectorEntries(sectors, order) + Flatten(ItemsOf(sectors, n))
  {
    assert (order + [n])[..|order|] == order;
  }

  lemma SectorEntriesAppend(sectors: map<Coord, Sector>, a: seq<Coord>, b: seq<Coord>)
    ensures SectorEntries(sectors, a + b) == SectorEntries(sectors, a) + SectorEntries(sectors, b)
  {
    SectorEntriesJoined(sectors, a + b);
    SectorEntriesJoined(sectors, a);
    SectorEntriesJoined(sectors, b);
    JoinedAppend(SectorChunk(sectors), a, b);
  }

  /** The entries of one sector of the table, as a function of its
    * coordinate. */
  function SectorChunk(sectors: map<Coord, Sector>): Coord -> seq<(Coord, Info)>
  {
    c => Flatten(ItemsOf(sectors, c))
  }

  /** `f` of each coordinate of `order`, one after another. */
  function Joined<T>(f: Coord -> seq<T>, order: seq<Coord>): seq<T>
  {
    if order == [] then [] else Joined(f, order[..|order| - 1]) + f(order[|order| - 1])
  }

  lemma {:induction false} JoinedAppend<T>(f: Coord -> seq<T>, a: seq<Coord>, b: seq<Coord>)
    ensures Joined(f, a + b) == Joined(f, a) + Joined(f, b)
    decreases |b|
  {
    if b == [] {
      assert a + b == a;
    } else {
      var b' := b[..|b| - 1];
      assert (a + b)[..|a + b| - 1] == a + b';
      JoinedAppend(f, a, b');
    }
  }

  lemma {:induction false} SectorEntriesJoined(sectors: map<Coord, Sector>, order: seq<Coord>)
    ensures SectorEntries(sectors, order) == Joined(SectorChunk(sectors), order)
    decreases |order|
  {
    if order != [] {
      SectorEntriesJoined(sectors, order[..|order| - 1]);
    }
  }

  lemma {:induction false} SectorEntriesKeeps(now: map<Coord, Sector>, before: map<Coord, Sector>, order: seq<Coord>)
    requires Keeps(now, before)
    ensures SectorEntries(now, order) == SectorEntries(before, order)
    decreases |order|
  {
    if order != [] {
      SectorEntriesKeeps(now, before, order[..|order| - 1]);
      assert ItemsOf(now, order[|order| - 1]) == ItemsOf(before, order[|order| - 1]);
    }
  }

  /** `now` keeps every sector of `before` and adds only empty ones. */
  ghost predicate Keeps(now: map<Coord, Sector>, before: map<Coord, Sector>)
  {
    forall k :: ItemsOf(now, k) == ItemsOf(before, k) && (k in before ==> k in now && now[k] == before[k])
  }

  lemma KeepsRefl(sectors: map<Coord, Sector>)
    ensures Keeps(sectors, sectors)
  {
  }

  lemma KeepsTrans(a: map<Coord, Sector>, b: map<Coord, Sector>, c: map<Coord, Sector>)
    requires Keeps(a, b) && Keeps(b, c)
    ensures Keeps(a, c)
  {
  }

  lemma KeepsAfterLoad(before: map<Coord, Sector>, s: Coord, sectorSize: nat)
    ensures Keeps(if s in before then before else before[s := Sector(s, sectorSize, sectorSize, [])], before)
  {
  }

  // ------------------------------------------------------------ the map

  /** `GameMap`: the parsed sectors, which of them are loaded, the boundary
    * and the spawn points found so far. */
  class GameMap {
    /** Whether this is the newer version of the class. */
    const newer: bool
    /** The lines of each static layer file. */
    const staticLayers: seq<seq<string>>
    const index: map<string, Info>
    const tileSize: nat
    const sectorSize: nat
    /** The content's tile size, by which `coord_to_vec` scales. */
    const contentTileSize: nat
    var boundary: Option<Boundary>
    var sectors: map<Coord, Sector>
    var sectorsLoaded: set<Coord>
    var loaded: bool
    var spawnPoints: map<string, seq<Vec>>

    predicate Valid()
      reads this
    {
      tileSize > 0 && sectorSize == 4 * tileSize
    }

    /** `GameMap(...)`: nothing parsed or loaded yet; a missing boundary is
      * `None` in the older version and empty in the newer one. */
    constructor (newer: bool, staticLayers: seq<seq<string>>, index: map<string, Info>, boundary: Option<Boundary>,
                 tileSize: nat, contentTileSize: nat)
      requires tileSize > 0
      ensures Valid() && this.newer == newer && this.staticLayers == staticLayers && this.index == index
      ensures this.tileSize == tileSize && this.contentTileSize == contentTileSize
      ensures this.boundary == if newer && boundary.None? then Some(Boundary(None, None, None)) else boundary
      ensures sectors == map[] && sectorsLoaded == {} && !loaded && spawnPoints == map[]
    {
      this.newer := newer;
      this.staticLayers := staticLayers;
      this.index := index;
      this.tileSize := tileSize;
      sectorSize := 4 * tileSize;
      this.contentTileSize := contentTileSize;
      this.boundary := if newer && boundary.None? then Some(Boundary(None, None, None)) else boundary;
      sectors := map[];
      sectorsLoaded := {};
      loaded := false;
      spawnPoints := map[];
    }

    /** `add`: records the info (if any) in its cell's sector, creating the
      * sector when missing, and returns that sector. */
    method Add(coord: Coord, info: Option<Info>) returns (sector: Sector)
      requires Valid()
      modifies this`sectors
      ensures sectors == AddTo(old(sectors), coord, info, sectorSize)
      ensures sector == sectors[SectorCoord(Some(coord), sectorSize)]
    {
      var sc := SectorCoord(Some(coord), sectorSize);
      sector := if sc in sectors then sectors[sc] else Sector(sc, sectorSize, sectorSize, []);
      if info.Some? {
        sector := sector.(items := AppendAt(sector.items, coord, info.value));
      }
      sectors := sectors[sc := sector];
    }

    /** The scan of one row: adds each indexed cell and widens the
      * extents. */
    method ScanLine(line: string, ridx: nat, xmax: int, ymax: int) returns (xmax': int, ymax': int)
      requires Valid()
      modifies this`sectors
      ensures sectors == AddAll(old(sectors), LineCells(line, ridx, index, 0), sectorSize)
      ensures xmax' == LineX(line, xmax) && ymax' == LineY(line, ridx, ymax)
    {
      xmax', ymax' := xmax, ymax;
      ghost var goal := AddAll(sectors, LineCells(line, ridx, index, 0), sectorSize);
      var col := 0;
      while 2 * col < |line|
        invariant Valid() && 2 * col <= |line| + 1
        invariant RowPending(goal, sectors, line, ridx, index, 2 * col, sectorSize)
        invariant xmax' == (if col == 0 then xmax else Max(xmax, col - 1))
        invariant ymax' == (if col == 0 then ymax else Max(ymax, ridx))
        decreases |line| - 2 * col
      {
        if col > xmax' {
          xmax' := col;
        }
        if ridx > ymax' {
          ymax' := ridx;
        }
        ScanCell(line, ridx, col, goal);
        col := col + 1;
      }
      RowExtents(line, ridx, col, xmax, ymax);
    }

    /** One cell of the row scan: the cell at column `col` is added when
      * the index knows its key. */
    method ScanCell(line: string, ridx: nat, col: nat, ghost goal: map<Coord, Sector>)
      requires Valid() && 2 * col < |line|
      requires RowPending(goal, sectors, line, ridx, index, 2 * col, sectorSize)
      modifies this`sectors
      ensures RowPending(goal, sectors, line, ridx, index, 2 * col + 2, sectorSize)
    {
      var key := KeyAt(line, 2 * col);
      ghost var rest := LineCells(line, ridx, index, 2 * col + 2);
      if key in index {
        LineCellsHit(line, ridx, index, col);
        ghost var before := sectors;
        var _ := Add(Coord(col, ridx), Some(index[key]));
        AddAllCons(before, (Coord(col, ridx), index[key]), rest, sectorSize);
      } else {
        LineCellsMiss(line, ridx, index, col);
      }
    }

    /** The scan of one layer, row by row. */
    method ScanLayer(lines: seq<string>, xmax: int, ymax: int) returns (xmax': int, ymax': int)
      requires Valid()
      modifies this`sectors
      ensures sectors == AddAll(old(sectors), LayerCells(lines, index, 0), sectorSize)
      ensures xmax' == LayerX(lines, 0, xmax) && ymax' == LayerY(lines, 0, ymax)
    {
      xmax', ymax' := xmax, ymax;
      var ridx := 0;
      while ridx < |lines|
        invariant 0 <= ridx <= |lines|
        invariant AddAll(old(sectors), LayerCells(lines, index, 0), sectorSize) == AddAll(sectors, LayerCells(lines, index, ridx), sectorSize)
        invariant LayerX(lines, 0, xmax) == LayerX(lines, ridx, xmax') && LayerY(lines, 0, ymax) == LayerY(lines, ridx, ymax')
      {
        ghost var before := sectors;
        xmax', ymax' := ScanLine(lines[ridx], ridx, xmax', ymax');
        AddAllAppend(before, LineCells(lines[ridx], ridx, index, 0), LayerCells(lines, index, ridx + 1), sectorSize);
        ridx := ridx + 1;
      }
    }

    /** `load_static_layers`: every layer is scanned into the sectors, then
      * the boundary takes the parsed extents (see `Bounded`); a `None`
      * boundary raises `TypeError` after the scan. */
    method LoadStaticLayers() returns (err: Option<Error>)
      requires Valid()
      modifies this`sectors, this`boundary
      ensures sectors == AddAll(old(sectors), AllCells(staticLayers, index, 0), sectorSize)
      ensures err.Some? <==> old(boundary).None?
      ensures old(boundary).None? ==> boundary == old(boundary)
      ensures old(boundary).Some? ==>
                boundary == Some(Bounded(newer, old(boundary).value, AllX(staticLayers, 0, 0), AllY(staticLayers, 0, 0)))
    {
      var xmax, ymax := 0, 0;
      var i := 0;
      while i < |staticLayers|
        invariant 0 <= i <= |staticLayers| && boundary == old(boundary)
        invariant AddAll(old(sectors), AllCells(staticLayers, index, 0), sectorSize) == AddAll(sectors, AllCells(staticLayers, index, i), sectorSize)
        invariant AllX(staticLayers, 0, 0) == AllX(staticLayers, i, xmax) && AllY(staticLayers, 0, 0) == AllY(staticLayers, i, ymax)
      {
        ghost var before := sectors;
        xmax, ymax := ScanLayer(staticLayers[i], xmax, ymax);
        AddAllAppend(before, LayerCells(staticLayers[i], index, 0), AllCells(staticLayers, index, i + 1), sectorSize);
        i := i + 1;
      }
      if boundary.None? {
        return Some(TypeError("NoneType"));
      }
      var b := boundary.value;
      if newer {
        b := b.(x := Some((-1, xmax)), y := Some((-1, ymax + 1)));
      } else {
        if b.x.None? {
          b := b.(x := Some((-1, xmax + 1)));
        }
        if b.y.None? {
          b := b.(y := Some((-1, ymax + 1)));
        }
      }
      boundary := Some(b);
      err := None;
    }

    /** `load_boundary`: the objects spawned around the boundary's
      * rectangle. No boundary spawns nothing; a missing range raises
      * `KeyError`, and so does a missing object config in the older
      * version, where the newer one spawns nothing. */
    method LoadBoundary() returns (r: Result<seq<Placement>>)
      ensures boundary.None? ==> r == Ok([])
      ensures boundary.Some? && (boundary.value.x.None? || boundary.value.y.None?) ==> r.Err?
      ensures boundary.Some? && boundary.value.x.Some? && boundary.value.y.Some? && boundary.value.obj.None? ==>
                r == if newer then Ok([]) else Err(MissingKey("obj"))
      ensures boundary.Some? && boundary.value.x.Some? && boundary.value.y.Some? && boundary.value.obj.Some? ==>
                var b := boundary.value;
                r == Ok(PerimeterSpawns(b.x.value.0, b.x.value.1, b.y.value.0, b.y.value.1, b.obj.value))
    {
      if boundary.None? {
        return Ok([]);
      }
      var b := boundary.value;
      if b.x.None? {
        return Err(MissingKey("x"));
      }
      if b.y.None? {
        return Err(MissingKey("y"));
      }
      var xmin, xmax := b.x.value.0, b.x.value.1;
      var ymin, ymax := b.y.value.0, b.y.value.1;
      if b.obj.None? {
        return if newer then Ok([]) else Err(MissingKey("obj"));
      }
      var obj := b.obj.value;
      var placed: seq<Placement> := [];
      var x := xmin;
      while x < xmax + 1
        invariant xmin <= x && (x <= xmax + 1 || x == xmin)
        invariant placed == RowSpawns(xmin, x, ymin, ymax, obj)
      {
        placed := placed + [Placement(obj, Coord(x, ymin)), Placement(obj, Coord(x, ymax))];
        x := x + 1;
      }
      var columns: seq<Placement> := [];
      var y := ymin + 1;
      while y < ymax
        invariant ymin + 1 <= y && (y <= ymax || y == ymin + 1)
        invariant columns == ColumnSpawns(ymin + 1, y, xmin, xmax, obj)
      {
        columns := columns + [Placement(obj, Coord(xmin, y)), Placement(obj, Coord(xmax, y))];
        y := y + 1;
      }
      r := Ok(placed + columns);
    }

    /** `add_spawn_point`. */
    method AddSpawnPoint(key: string, pos: Vec)
      modifies this`spawnPoints
      ensures spawnPoints == AddPoint(old(spawnPoints), key, pos)
    {
      var list := SpawnPointsOf(spawnPoints, key);
      spawnPoints := spawnPoints[key := list + [pos]];
    }

    /** `load_obj_from_info`: a spawn point is recorded, anything else is
      * spawned at the cell. */
    method LoadObjFromInfo(info: Info, coord: Coord) returns (placed: Option<Placement>)
      modifies this`spawnPoints
      ensures LoadOf(newer, info, coord, contentTileSize).Place? ==>
                placed == Some(LoadOf(newer, info, coord, contentTileSize).p) && spawnPoints == old(spawnPoints)
      ensures LoadOf(newer, info, coord, contentTileSize).SpawnPoint? ==>
                var l := LoadOf(newer, info, coord, contentTileSize);
                placed.None? && spawnPoints == AddPoint(old(spawnPoints), l.key, l.pos)
    {
      if IsSpawnPoint(info) {
        var key := if newer then info.id else info.obj;
        AddSpawnPoint(key, SurvivalUtils.CellToVec(coord, contentTileSize));
        placed := None;
      } else {
        placed := Some(Placement(info.obj, coord));
      }
    }

    /** The infos of one cell, loaded in order. */
    method LoadCell(c: Coord, infos: seq<Info>) returns (placed: seq<Placement>)
      modifies this`spawnPoints
      ensures placed == Placements(newer, CellEntries(c, infos), contentTileSize)
      ensures spawnPoints == WithSpawnPoints(old(spawnPoints), newer, CellEntries(c, infos), contentTileSize)
    {
      ghost var entries := CellEntries(c, infos);
      placed := [];
      var i := 0;
      while i < |infos|
        invariant 0 <= i <= |infos|
        invariant Placements(newer, entries, contentTileSize) == placed + Placements(newer, entries[i..], contentTileSize)
        invariant WithSpawnPoints(old(spawnPoints), newer, entries, contentTileSize)
                  == WithSpawnPoints(spawnPoints, newer, entries[i..], contentTileSize)
      {
        LoadStep(spawnPoints, newer, entries, i, contentTileSize);
        assert entries[i] == (c, infos[i]);
        var head := LoadNext(c, infos[i]);
        placed := placed + head;
        i := i + 1;
      }
      assert entries[i..] == [];
    }

    /** One info of a cell, loaded: what it spawns, as a list. */
    method LoadNext(c: Coord, info: Info) returns (head: seq<Placement>)
      modifies this`spawnPoints
      ensures head == HeadPlacement(newer, (c, info), contentTileSize)
      ensures spawnPoints == HeadPoints(old(spawnPoints), newer, (c, info), contentTileSize)
    {
      var p := LoadObjFromInfo(info, c);
      head := if p.Some? then [p.value] else [];
    }

    /** `load_sector`: the sector (created empty when missing) is marked
      * loaded and its entries are loaded, cell by cell in the order the
      * cells were first used. */
    method LoadSector(s: Coord) returns (placed: seq<Placement>)
      requires Valid()
      modifies this`sectors, this`sectorsLoaded, this`spawnPoints
      ensures sectorsLoaded == old(sectorsLoaded) + {s}
      ensures sectors == if s in old(sectors) then old(sectors) else old(sectors)[s := Sector(s, sectorSize, sectorSize, [])]
      ensures placed == Placements(newer, Flatten(ItemsOf(old(sectors), s)), contentTileSize)
      ensures spawnPoints == WithSpawnPoints(old(spawnPoints), newer, Flatten(ItemsOf(old(sectors), s)), contentTileSize)
    {
      var sector: Sector;
      if s in sectors {
        sector := sectors[s];
      } else {
        CornerInSector(s, sectorSize);
        sector := Add(CornerOf(s, sectorSize), None);
      }
      sectorsLoaded := sectorsLoaded + {s};
      assert sector.items == ItemsOf(old(sectors), s);
      placed := LoadCells(sector.items);
    }

    /** The entries of a sector, cell by cell in the order the cells were
      * first used. */
    method LoadCells(items: CellItems) returns (placed: seq<Placement>)
      modifies this`spawnPoints
      ensures placed == Placements(newer, Flatten(items), contentTileSize)
      ensures spawnPoints == WithSpawnPoints(old(spawnPoints), newer, Flatten(items), contentTileSize)
    {
      placed := [];
      var j := 0;
      while j < |items|
        invariant 0 <= j <= |items|
        invariant Placements(newer, Flatten(items), contentTileSize) == placed + Placements(newer, Flatten(items[j..]), contentTileSize)
        invariant WithSpawnPoints(old(spawnPoints), newer, Flatten(items), contentTileSize)
                  == WithSpawnPoints(spawnPoints, newer, Flatten(items[j..]), contentTileSize)
      {
        var cell := CellEntries(items[j].0, items[j].1);
        FlattenStep(items, j);
        PlacementsAppend(newer, cell, Flatten(items[j + 1..]), contentTileSize);
        WithSpawnPointsAppend(spawnPoints, newer, cell, Flatten(items[j + 1..]), contentTileSize);
        var more := LoadCell(items[j].0, items[j].1);
        placed := placed + more;
        j := j + 1;
      }
      assert items[j..] == [];
    }
  
    /** `load_sectors_near_coord`: the sector and its eight neighbours are
      * loaded, each at most once and only if not loaded before; `order` is
      * the order they were loaded in. */
    method LoadSectorsNearCoord(s: Coord) returns (placed: seq<Placement>, ghost order: seq<Coord>)
      requires Valid()
      modifies this`sectors, this`sectorsLoaded, this`spawnPoints
      ensures sectorsLoaded == old(sectorsLoaded) + {s} + NeighCoords(s)
      ensures forall k :: k in order <==> k in ({s} + NeighCoords(s)) - old(sectorsLoaded)
      ensures Distinct(order)
      ensures placed == Placements(newer, SectorEntries(old(sectors), order), contentTileSize)
      ensures spawnPoints == WithSpawnPoints(old(spawnPoints), newer, SectorEntries(old(sectors), order), contentTileSize)
      ensures Keeps(sectors, old(sectors))
    {
      var todo := NeighCoords(s) - sectorsLoaded;
      var first: seq<Placement> := [];
      ghost var firstOrder: seq<Coord> := [];
      KeepsRefl(sectors);
      if s !in sectorsLoaded {
        first := LoadSector(s);
        firstOrder := [s];
        KeepsAfterLoad(old(sectors), s, sectorSize);
        SectorEntriesSnoc(old(sectors), [], s);
        assert [] + [s] == [s];
        assert SectorEntries(old(sectors), []) == [];
        assert SectorEntries(old(sectors), firstOrder) == Flatten(ItemsOf(old(sectors), s));
      } else {
        assert SectorEntries(old(sectors), firstOrder) == [];
      }
      ghost var mid := sectors;
      ghost var entries := SectorEntries(old(sectors), firstOrder);
      var rest;
      ghost var restOrder;
      rest, restOrder := LoadEach(todo);
      KeepsTrans(sectors, mid, old(sectors));
      SectorEntriesKeeps(mid, old(sectors), restOrder);
      SectorEntriesAppend(old(sectors), firstOrder, restOrder);
      PlacementsAppend(newer, entries, SectorEntries(old(sectors), restOrder), contentTileSize);
      WithSpawnPointsAppend(old(spawnPoints), newer, entries, SectorEntries(old(sectors), restOrder), contentTileSize);
      placed := first + rest;
      order := firstOrder + restOrder;
      DistinctPrepend(firstOrder, restOrder);
    }

    /** The sectors of `todo`, loaded one by one in the set's iteration
      * order. */
    method LoadEach(todo: set<Coord>) returns (placed: seq<Placement>, ghost order: seq<Coord>)
      requires Valid()
      modifies this`sectors, this`sectorsLoaded, this`spawnPoints
      ensures sectorsLoaded == old(sectorsLoaded) + todo
      ensures forall k :: k in order <==> k in todo
      ensures Distinct(order)
      ensures placed == Placements(newer, SectorEntries(old(sectors), order), contentTileSize)
      ensures spawnPoints == WithSpawnPoints(old(spawnPoints), newer, SectorEntries(old(sectors), order), contentTileSize)
      ensures Keeps(sectors, old(sectors))
    {
      placed, order := [], [];
      KeepsRefl(sectors);
      var left := todo;
      while left != {}
        invariant left <= todo
        invariant sectorsLoaded == old(sectorsLoaded) + (todo - left)
        invariant forall k :: k in order <==> k in todo - left
        invariant Distinct(order)
        invariant Keeps(sectors, old(sectors))
        invariant placed == Placements(newer, SectorEntries(old(sectors), order), contentTileSize)
        invariant spawnPoints == WithSpawnPoints(old(spawnPoints), newer, SectorEntries(old(sectors), order), contentTileSize)
        decreases left
      {
        var n := Pick(left);
        ghost var entries := SectorEntries(old(sectors), order);
        ghost var before := sectors;
        var more := LoadSector(n);
        KeepsAfterLoad(before, n, sectorSize);
        KeepsTrans(sectors, before, old(sectors));
        assert ItemsOf(before, n) == ItemsOf(old(sectors), n);
        PlacementsAppend(newer, entries, Flatten(ItemsOf(old(sectors), n)), contentTileSize);
        WithSpawnPointsAppend(old(spawnPoints), newer, entries, Flatten(ItemsOf(old(sectors), n)), contentTileSize);
        DistinctSnoc(order, n);
        SectorEntriesSnoc(old(sectors), order, n);
        placed := placed + more;
        order := order + [n];
        left := left - {n};
      }
    }

    /** `initialize`: on the first call the static layers are parsed, the
      * boundary set and its objects spawned; on later calls the newer
      * version fills missing ranges with `[4, 20]`. Then the sectors around
      * the coordinate's sector are loaded. */
    method Initialize(coord: Option<Coord>) returns (r: Result<seq<Placement>>, ghost order: seq<Coord>)
      requires Valid()
      modifies this`sectors, this`sectorsLoaded, this`spawnPoints, this`boundary, this`loaded
      ensures old(loaded) ==> loaded && (r.Ok? <==> !newer || old(boundary).Some?)
      ensures old(loaded) ==> boundary == if newer && old(boundary).Some? then Some(Defaulted(old(boundary).value)) else old(boundary)
      ensures !old(loaded) ==> (r.Ok? <==> old(boundary).Some? && (newer || old(boundary).value.obj.Some?))
      ensures !old(loaded) && old(boundary).Some? ==>
                boundary == Some(Bounded(newer, old(boundary).value, AllX(staticLayers, 0, 0), AllY(staticLayers, 0, 0)))
      ensures r.Ok? ==> loaded
      ensures r.Ok? ==> var sc := SectorCoord(coord, sectorSize);
                        && sectorsLoaded == old(sectorsLoaded) + {sc} + NeighCoords(sc)
                        && forall k :: k in order <==> k in ({sc} + NeighCoords(sc)) - old(sectorsLoaded)
      ensures r.Ok? ==> var parsed := if old(loaded) then old(sectors) else AddAll(old(sectors), AllCells(staticLayers, index, 0), sectorSize);
                        r.value == (if old(loaded) then [] else Walls(boundary.value))
                                   + Placements(newer, SectorEntries(parsed, order), contentTileSize)
    {
      var walls: seq<Placement> := [];
      order := [];
      if !loaded {
        var err := LoadStaticLayers();
        if err.Some? {
          return Err(err.value), [];
        }
        var b := LoadBoundary();
        if b.Err? {
          return Err(b.error), [];
        }
        walls := b.value;
        loaded := true;
      } else {
        if boundary.None? {
          if newer {
            return Err(TypeError("NoneType")), [];
          }
        } else if newer {
          var b := boundary.value;
          if b.x.None? {
            b := b.(x := Some((4, 20)));
          }
          if b.y.None? {
            b := b.(y := Some((4, 20)));
          }
          boundary := Some(b);
        }
      }
      var near;
      near, order := LoadSectorsNearCoord(SectorCoord(coord, sectorSize));
      r := Ok(walls + near);
    }
  }
}
