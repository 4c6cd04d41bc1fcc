/** `GridPhysicsEngine` of `simpleland/physics_engine.py`: objects sit on
  * grid cells; a move is either applied at once or buffered for the tick,
  * and `update()` commits each buffered move unless a collision callback
  * registered for the pair of shape types vetoes it. */
module Physics {
  import opened Base
  import opened GameObject
  import opened GridIndex
  import opened Events
  import EventBus
  import Ids
  import opened Rounding

  /** The collision-callback table holds every pair in both orders. */
  ghost predicate Symmetric(cbs: map<(int, int), nat>)
  {
    forall a, b :: (a, b) in cbs ==> (b, a) in cbs && cbs[(b, a)] == cbs[(a, b)]
  }

  /** The table after `set_collision_callback(cb, a, b)`. */
  function WithCallback(cbs: map<(int, int), nat>, cb: nat, a: int, b: int): (r: map<(int, int), nat>)
    ensures (a, b) in r && r[(a, b)] == cb && (b, a) in r && r[(b, a)] == cb
    ensures r.Keys == cbs.Keys + {(a, b), (b, a)}
    ensures forall p :: p in cbs && p != (a, b) && p != (b, a) ==> r[p] == cbs[p]
  {
    cbs[(a, b) := cb][(b, a) := cb]
  }

  /** Registering a callback keeps the table symmetric. */
  lemma WithCallbackSymmetric(cbs: map<(int, int), nat>, cb: nat, a: int, b: int)
    requires Symmetric(cbs)
    ensures Symmetric(WithCallback(cbs, cb, a, b))
  {
    var r := WithCallback(cbs, cb, a, b);
    forall x, y | (x, y) in r ensures (y, x) in r && r[(y, x)] == r[(x, y)] {
      if (x, y) != (a, b) && (x, y) != (b, a) {
        assert (x, y) in cbs;
        assert (y, x) in cbs;
      }
    }
  }

  /** A buffered move request: `(obj, new_pos, callback)`; a callback is a
    * token, its `callback(True)` calls are recorded by the engine. */
  datatype Request = Request(obj: GObject, newPos: Option<Vec>, callback: Option<nat>)

  /** No two buffered requests are for the same object id. */
  ghost predicate DistinctRequests(q: seq<Request>)
  {
    forall i, j :: 0 <= i < j < |q| ==> q[i].obj.id != q[j].obj.id
  }

  /** `position_updates[obj.get_id()] = (obj, new_pos, callback)`: the dict
    * keeps its insertion order, so a request for an object already buffered
    * takes that request's place and a new one goes to the end. */
  function Buffered(q: seq<Request>, r: Request): (q2: seq<Request>)
    ensures r in q2
  {
    if q == [] then [r]
    else if q[0].obj.id == r.obj.id then [r] + q[1..]
    else [q[0]] + Buffered(q[1..], r)
  }

  /** A later request for a buffered object takes the earlier one's place. */
  lemma {:induction false} BufferedReplaces(q: seq<Request>, r: Request, i: nat)
    requires DistinctRequests(q) && i < |q| && q[i].obj.id == r.obj.id
    ensures Buffered(q, r) == q[i := r]
  {
    if q[0].obj.id != r.obj.id {
      assert i > 0;
      assert DistinctRequests(q[1..]) by {
        forall a, b | 0 <= a < b < |q[1..]| ensures q[1..][a].obj.id != q[1..][b].obj.id {
          assert q[1..][a] == q[a + 1] && q[1..][b] == q[b + 1];
        }
      }
      assert q[1..][i - 1] == q[i];
      BufferedReplaces(q[1..], r, i - 1);
      assert [q[0]] + q[1..][i - 1 := r] == q[i := r];
    } else if i > 0 {
      assert false;
    }
  }

  /** A request for an object not yet buffered goes to the end. */
  lemma {:induction false} BufferedAppends(q: seq<Request>, r: Request)
    requires forall i :: 0 <= i < |q| ==> q[i].obj.id != r.obj.id
    ensures Buffered(q, r) == q + [r]
  {
    if q != [] {
      assert q[0].obj.id != r.obj.id;
      assert forall i :: 0 <= i < |q[1..]| ==> q[1..][i].obj.id != r.obj.id by {
        forall i | 0 <= i < |q[1..]| ensures q[1..][i].obj.id != r.obj.id {
          assert q[1..][i] == q[i + 1];
        }
      }
      BufferedAppends(q[1..], r);
      assert [q[0]] + (q[1..] + [r]) == q + [r];
    }
  }

  /** Buffering keeps one request per object id. */
  lemma BufferedDistinct(q: seq<Request>, r: Request)
    requires DistinctRequests(q)
    ensures DistinctRequests(Buffered(q, r))
  {
    if i :| 0 <= i < |q| && q[i].obj.id == r.obj.id {
      BufferedReplaces(q, r, i);
      var b := q[i := r];
      forall a, c | 0 <= a < c < |b| ensures b[a].obj.id != b[c].obj.id {
        assert b[a].obj.id == q[a].obj.id && b[c].obj.id == q[c].obj.id;
      }
    } else {
      BufferedAppends(q, r);
      var b := q + [r];
      forall a, c | 0 <= a < c < |b| ensures b[a].obj.id != b[c].obj.id {
        if c < |q| {
          assert b[a] == q[a] && b[c] == q[c];
        } else {
          assert b[a] == q[a];
        }
      }
    }
  }

  /** What the collision check sees of an object: whether it is enabled and
    * the collision types of its shapes. */
  datatype Occupant = Occupant(enabled: bool, types: set<int>)

  function Occ(o: GObject): Occupant
    reads o`enabled, o`shapes
  {
    Occupant(o.enabled, o.CollisionTypes())
  }

  /** The index and the objects as the resolver sees them. */
  datatype Grid = Grid(fwd: map<Coord, seq<Id>>, rev: map<Id, Coord>, occ: map<Id, Occupant>,
                       tracked: map<Id, GObject>)

  /** One buffered request as the resolver sees it: the target cell, the
    * mover's occupant view, and what the change event and the callback need. */
  datatype Move = Move(id: Id, obj: GObject, target: Coord, newPos: Vec, mover: Occupant,
                       oldPos: Option<Vec>, isPlayer: bool, callback: Option<nat>)

  /** Some callback registered for a pair of shape types of the two objects
    * returns true when called as `cb(obj, obj2)`; `decide` stands for the
    * callbacks' answers. */
  ghost predicate Fires(cbs: map<(int, int), nat>, decide: (nat, Id, Id) -> bool,
                        id: Id, mover: Occupant, id2: Id, other: Occupant)
  {
    exists t1, t2 :: t1 in mover.types && t2 in other.types && (t1, t2) in cbs && decide(cbs[(t1, t2)], id, id2)
  }

  /** An enabled other occupant of the target cell makes some callback fire. */
  ghost predicate Hits(g: Grid, cbs: map<(int, int), nat>, decide: (nat, Id, Id) -> bool,
                       id: Id, mover: Occupant, id2: Id)
  {
    id2 != id && id2 in g.occ && g.occ[id2].enabled && Fires(cbs, decide, id, mover, id2, g.occ[id2])
  }

  ghost predicate Blocked(g: Grid, cbs: map<(int, int), nat>, decide: (nat, Id, Id) -> bool,
                          id: Id, mover: Occupant, target: Coord)
  {
    exists id2 :: id2 in GetBucket(g.fwd, target) && Hits(g, cbs, decide, id, mover, id2)
  }

  /** The tracked objects as the collision check sees them. */
  ghost function Occupancy(tracked: map<Id, GObject>, objs: set<GObject>): (occ: map<Id, Occupant>)
    requires forall id :: id in tracked ==> tracked[id] in objs
    reads objs`enabled, objs`shapes
    ensures occ.Keys == tracked.Keys
    ensures forall id :: id in tracked ==> occ[id] == Occ(tracked[id])
  {
    map id | id in tracked :: Occ(tracked[id])
  }

  /** The occupant views depend only on the objects' `enabled` flags and
    * shapes. */
  twostate lemma OccupancyFrame(new tracked: map<Id, GObject>, new objs: set<GObject>)
    requires forall id :: id in tracked ==> tracked[id] in objs
    requires forall o :: o in objs ==> old(allocated(o))
    requires forall o :: o in objs ==> unchanged(o`enabled, o`shapes)
    ensures Occupancy(tracked, objs) == old(Occupancy(tracked, objs))
  {
  }

  /** Tracking one more object adds its occupant view and nothing else. */
  lemma OccupancyTrack(tracked: map<Id, GObject>, objs: set<GObject>, o: GObject)
    requires forall id :: id in tracked ==> tracked[id] in objs
    ensures Occupancy(tracked[o.id := o], objs + {o}) == Occupancy(tracked, objs)[o.id := Occ(o)]
  {
  }

  /** A committed move: `move_obj_to(coord, obj)`. */
  function Commit(g: Grid, m: Move): Grid
  {
    Place(g, m.id, m.obj, m.target, m.mover)
  }

  /** `move_obj_to(target, obj)` on the resolver's view. */
  function Place(g: Grid, id: Id, obj: GObject, target: Coord, mover: Occupant): Grid
  {
    Grid(Appended(Unindexed(g.fwd, g.rev, id), id, target), g.rev[id := target],
         g.occ[id := mover], g.tracked[id := obj])
  }

  datatype PassResult = PassResult(grid: Grid, commits: seq<Move>)

  /** Reference definition of one `update()` pass: requests in buffer order;
    * a disabled mover is skipped; a blocked move changes nothing; any other
    * move commits against the index as the earlier moves left it. */
  ghost function Pass(g: Grid, ms: seq<Move>, cbs: map<(int, int), nat>, decide: (nat, Id, Id) -> bool): PassResult
  {
    if ms == [] then PassResult(g, [])
    else PassOne(Pass(g, ms[..|ms| - 1], cbs, decide), ms[|ms| - 1], cbs, decide)
  }

  /** One request of a pass. */
  ghost function PassOne(p: PassResult, m: Move, cbs: map<(int, int), nat>, decide: (nat, Id, Id) -> bool): PassResult
  {
    if m.mover.enabled && !Blocked(p.grid, cbs, decide, m.id, m.mover, m.target)
    then PassResult(Commit(p.grid, m), p.commits + [m])
    else p
  }

  lemma PassSnoc(g: Grid, ms: seq<Move>, m: Move, cbs: map<(int, int), nat>, decide: (nat, Id, Id) -> bool)
    ensures Pass(g, ms + [m], cbs, decide) == PassOne(Pass(g, ms, cbs, decide), m, cbs, decide)
  {
    assert (ms + [m])[..|ms|] == ms;
  }

  /** The index invariant of the engine. */
  ghost predicate GridOk(g: Grid)
  {
    && Agrees(g.fwd, g.rev)
    && g.rev.Keys == g.occ.Keys == g.tracked.Keys
    && (forall id :: id in g.tracked ==> g.tracked[id].id == id)
  }

  ghost predicate MovesOk(ms: seq<Move>)
  {
    forall i :: 0 <= i < |ms| ==> ms[i].obj.id == ms[i].id
  }

  /** Committing a move keeps the index invariant. */
  lemma CommitKeepsGrid(g: Grid, m: Move)
    requires GridOk(g) && m.obj.id == m.id
    ensures GridOk(Commit(g, m))
  {
    MovedAgrees(g.fwd, g.rev, m.id, m.target);
  }

  lemma MovesOkPrefix(ms: seq<Move>)
    requires MovesOk(ms) && ms != []
    ensures MovesOk(ms[..|ms| - 1])
  {
    var init := ms[..|ms| - 1];
    forall i | 0 <= i < |init| ensures init[i].obj.id == init[i].id {
      assert init[i] == ms[i];
    }
  }

  /** A pass keeps the index invariant. */
  lemma {:induction false} PassKeepsGrid(g: Grid, ms: seq<Move>, cbs: map<(int, int), nat>, decide: (nat, Id, Id) -> bool)
    requires GridOk(g) && MovesOk(ms)
    ensures GridOk(Pass(g, ms, cbs, decide).grid)
  {
    if ms != [] {
      MovesOkPrefix(ms);
      PassKeepsGrid(g, ms[..|ms| - 1], cbs, decide);
      CommitKeepsGrid(Pass(g, ms[..|ms| - 1], cbs, decide).grid, ms[|ms| - 1]);
    }
  }

  /** Only enabled requests commit, in buffer order, each taken from the
    * buffer. */
  lemma {:induction false} PassCommitsEnabled(g: Grid, ms: seq<Move>, cbs: map<(int, int), nat>, decide: (nat, Id, Id) -> bool)
    ensures forall m :: m in Pass(g, ms, cbs, decide).commits ==> m in ms && m.mover.enabled
  {
    if ms != [] {
      var init := ms[..|ms| - 1];
      PassCommitsEnabled(g, init, cbs, decide);
      forall x | x in Pass(g, init, cbs, decide).commits ensures x in ms {
        assert x in init;
      }
    }
  }

  /** The cell of an id no request is for is left alone. */
  lemma {:induction false} PassKeepsOthers(g: Grid, ms: seq<Move>, cbs: map<(int, int), nat>, decide: (nat, Id, Id) -> bool, id: Id)
    requires forall m :: m in ms ==> m.id != id
    ensures (id in g.rev <==> id in Pass(g, ms, cbs, decide).grid.rev)
    ensures id in g.rev ==> Pass(g, ms, cbs, decide).grid.rev[id] == g.rev[id]
  {
    if ms != [] {
      var init := ms[..|ms| - 1];
      assert forall m :: m in init ==> m in ms;
      PassKeepsOthers(g, init, cbs, decide, id);
    }
  }

  /** A committed move puts its id at the target cell, when no other
    * request in the pass is for the same id. */
  lemma {:induction false} PassPlacesCommits(g: Grid, ms: seq<Move>, cbs: map<(int, int), nat>, decide: (nat, Id, Id) -> bool)
    requires forall i, j :: 0 <= i < j < |ms| ==> ms[i].id != ms[j].id
    ensures forall m :: m in Pass(g, ms, cbs, decide).commits ==>
              m.id in Pass(g, ms, cbs, decide).grid.rev && Pass(g, ms, cbs, decide).grid.rev[m.id] == m.target
  {
    if ms != [] {
      var init := ms[..|ms| - 1];
      var m := ms[|ms| - 1];
      PassPlacesCommits(g, init, cbs, decide);
      PassCommitsEnabled(g, init, cbs, decide);
      forall x | x in Pass(g, init, cbs, decide).commits ensures x.id != m.id {
        var k :| 0 <= k < |init| && init[k] == x;
        assert ms[k] == x;
      }
    }
  }

  /** Order matters inside one pass: once a move commits, a later move of
    * another object into the same cell is checked against it, and a
    * callback that fires for the pair blocks the later move. */
  lemma EarlierCommitBlocksLater(g: Grid, a: Move, b: Move, cbs: map<(int, int), nat>,
                                 decide: (nat, Id, Id) -> bool, t1: int, t2: int)
    requires GridOk(g) && a.obj.id == a.id && b.obj.id == b.id
    requires a.mover.enabled && !Blocked(g, cbs, decide, a.id, a.mover, a.target)
    requires b.target == a.target && b.id != a.id && b.mover.enabled
    requires t1 in b.mover.types && t2 in a.mover.types && (t1, t2) in cbs && decide(cbs[(t1, t2)], b.id, a.id)
    ensures Pass(g, [a, b], cbs, decide).commits == [a]
  {
    assert [a, b][..1] == [a];
    assert [a][..0] == [];
    assert Pass(g, [a], cbs, decide) == PassResult(Commit(g, a), [a]);
    var g1 := Commit(g, a);
    MovedAgrees(g.fwd, g.rev, a.id, a.target);
    assert a.id in GetBucket(g1.fwd, b.target);
    assert g1.occ[a.id] == a.mover;
    assert Fires(cbs, decide, b.id, b.mover, a.id, g1.occ[a.id]);
    assert Hits(g1, cbs, decide, b.id, b.mover, a.id);
    assert Blocked(g1, cbs, decide, b.id, b.mover, b.target);
  }

  /** The events `update()` adds, one `PositionChangeEvent` per committed
    * move, with ids `base + 1`, `base + 2`, ... from `gen_id`. */
  function ChangeEvents(cs: seq<Move>, base: nat, now: int): (es: seq<Event>)
    ensures |es| == |cs|
  {
    if cs == [] then []
    else
      var m := cs[|cs| - 1];
      ChangeEvents(cs[..|cs| - 1], base, now)
        + [Build(base + |cs|, PositionChangeEvent(m.id, m.oldPos, Some(m.newPos), m.isPlayer), None, None, None, now)]
  }

  lemma ChangeEventsSnoc(cs: seq<Move>, m: Move, base: nat, now: int)
    ensures ChangeEvents(cs + [m], base, now)
            == ChangeEvents(cs, base, now) + [ChangeEvent(base + |cs| + 1, m.id, m.oldPos, Some(m.newPos), m.isPlayer, now)]
  {
    assert (cs + [m])[..|cs|] == cs;
  }

  lemma ConfirmationsSnoc(cs: seq<Move>, m: Move)
    ensures Confirmations(cs + [m]) == Confirmations(cs) + (if m.callback.Some? then [m.callback.value] else [])
  {
    assert (cs + [m])[..|cs|] == cs;
  }

  /** The `callback(True)` calls of the committed moves, in order. */
  function Confirmations(cs: seq<Move>): seq<nat>
  {
    if cs == [] then []
    else
      var m := cs[|cs| - 1];
      Confirmations(cs[..|cs| - 1]) + (if m.callback.Some? then [m.callback.value] else [])
  }

  /** The event generated for an immediate (unchecked) position change. */
  function ChangeEvent(id: Id, obj: Id, oldPos: Option<Vec>, newPos: Option<Vec>, isPlayer: bool, now: int): (e: Event)
    ensures e.id == id && e.kind == PositionChangeEvent(obj, oldPos, newPos, isPlayer)
    ensures e.creationTime == now && !e.isClientEvent && e.isServerEvent
  {
    Build(id, PositionChangeEvent(obj, oldPos, newPos, isPlayer), None, None, None, now)
  }

  /** `update()` reads a request's new position only for an enabled object;
    * the position of a request that is never read stands as the origin. */
  function RequestedPos(r: Request): (p: Vec)
    ensures r.newPos.Some? ==> p == r.newPos.value
  {
    if r.newPos.Some? then r.newPos.value else Vec(0, 0)
  }

  /** A request `update()` can resolve without raising: it names a new
    * position, or its object is disabled and skipped before the position is
    * read. */
  ghost predicate Resolvable(r: Request)
    reads r.obj`enabled
  {
    r.newPos.Some? || !r.obj.enabled
  }

  /** One buffered request as the resolver sees it at the start of the pass. */
  ghost function MoveOf(r: Request, tileSize: nat): (m: Move)
    requires tileSize > 0
    reads r.obj
    ensures m.id == r.obj.id && m.obj == r.obj && m.target == VecToCoord(RequestedPos(r), tileSize)
    ensures m.mover == Occ(r.obj) && m.newPos == RequestedPos(r)
  {
    Move(r.obj.id, r.obj, VecToCoord(RequestedPos(r), tileSize), RequestedPos(r), Occ(r.obj),
         r.obj.position, r.obj.playerId.Some?, r.callback)
  }

  ghost function MovesOf(rs: seq<Request>, tileSize: nat): (ms: seq<Move>)
    requires tileSize > 0
    reads set r | r in rs :: r.obj
    ensures |ms| == |rs| && forall j :: 0 <= j < |rs| ==> ms[j] == MoveOf(rs[j], tileSize)
  {
    if rs == [] then [] else [MoveOf(rs[0], tileSize)] + MovesOf(rs[1..], tileSize)
  }

  /** Whether the `j`-th move of a pass commits: its object is enabled and
    * no callback vetoes it against the index the earlier moves left. */
  ghost predicate CommitsAt(g: Grid, ms: seq<Move>, j: nat, cbs: map<(int, int), nat>, decide: (nat, Id, Id) -> bool)
    requires j < |ms|
  {
    ms[j].mover.enabled && !Blocked(Pass(g, ms[..j], cbs, decide).grid, cbs, decide, ms[j].id, ms[j].mover, ms[j].target)
  }

  /** The position and change stamp of each request's object. */
  ghost function Stamps(rs: seq<Request>): (st: seq<(Option<Vec>, Option<int>)>)
    reads set r | r in rs :: r.obj
    ensures |st| == |rs| && forall j :: 0 <= j < |rs| ==> st[j] == (rs[j].obj.position, rs[j].obj.lastChange)
  {
    if rs == [] then [] else [(rs[0].obj.position, rs[0].obj.lastChange)] + Stamps(rs[1..])
  }

  /** After a whole pass each request's object either keeps its stamp or
    * stands at its requested position stamped with `now`. */
  lemma PlacedMoved(rs: seq<Request>, st: seq<(Option<Vec>, Option<int>)>, before: seq<(Option<Vec>, Option<int>)>,
                    g: Grid, ms: seq<Move>, tileSize: nat, cbs: map<(int, int), nat>, decide: (nat, Id, Id) -> bool, now: int)
    requires |ms| == |rs| && forall j :: 0 <= j < |rs| ==> ms[j].newPos == RequestedPos(rs[j])
    requires Placed(st, before, g, ms, |ms|, cbs, decide, now)
    ensures forall j :: 0 <= j < |rs| ==> st[j] == before[j] || st[j] == (Some(RequestedPos(rs[j])), Some(now))
  {
  }

  /** The positions after one request differ from `st0` at most in slot `i`. */
  lemma {:induction false} StampsFrom(rs: seq<Request>, st0: seq<(Option<Vec>, Option<int>)>, i: nat, committed: bool,
                   v: (Option<Vec>, Option<int>))
    requires |st0| == |rs| && i < |rs|
    requires forall j :: 0 <= j < |rs| && j != i ==> st0[j] == (rs[j].obj.position, rs[j].obj.lastChange)
    requires (rs[i].obj.position, rs[i].obj.lastChange) == if committed then v else st0[i]
    ensures Stamps(rs) == if committed then st0[i := v] else st0
  {
    var e := if committed then st0[i := v] else st0;
    forall j | 0 <= j < |rs| ensures Stamps(rs)[j] == e[j] {
    }
  }

  /** After the first `i` moves of a pass over `ms` from the index `g`,
    * the objects' positions and stamps `st`: the object of each move that
    * committed is at the move's new position, stamped `now`; every other
    * object keeps the position and stamp `before` records. */
  ghost predicate Placed(st: seq<(Option<Vec>, Option<int>)>, before: seq<(Option<Vec>, Option<int>)>, g: Grid,
                         ms: seq<Move>, i: nat, cbs: map<(int, int), nat>, decide: (nat, Id, Id) -> bool, now: int)
  {
    && |st| == |before| == |ms| && i <= |ms|
    && forall j :: 0 <= j < |ms| ==>
         st[j] == if j < i && CommitsAt(g, ms, j, cbs, decide) then (Some(ms[j].newPos), Some(now)) else before[j]
  }

  /** One more move of the pass keeps `Placed`. */
  lemma PlacedNext(st: seq<(Option<Vec>, Option<int>)>, st': seq<(Option<Vec>, Option<int>)>,
                   before: seq<(Option<Vec>, Option<int>)>, g: Grid, ms: seq<Move>, i: nat,
                   cbs: map<(int, int), nat>, decide: (nat, Id, Id) -> bool, now: int)
    requires i < |ms| && Placed(st, before, g, ms, i, cbs, decide, now)
    requires st' == if CommitsAt(g, ms, i, cbs, decide) then st[i := (Some(ms[i].newPos), Some(now))] else st
    ensures Placed(st', before, g, ms, i + 1, cbs, decide, now)
  {
  }

  /** The requests from the `i`-th on still describe the moves `ms`. */
  ghost predicate Pending(rs: seq<Request>, ms: seq<Move>, i: nat, tileSize: nat)
    reads set r | r in rs :: r.obj
  {
    && tileSize > 0 && i <= |rs| == |ms|
    && forall j :: i <= j < |rs| ==> Resolvable(rs[j]) && MoveOf(rs[j], tileSize) == ms[j]
  }

  /** What the engine has produced part way through a pass: the index, the
    * `gen_id` counter, the event bus and the `callback(True)` calls. */
  datatype Tally = Tally(grid: Grid, uid: nat, events: map<Id, Event>, confirmed: seq<nat>)

  /** The tally a pass predicts: its index, one `gen_id` value and one
    * change event per commit, and the commits' callbacks. */
  function TallyOf(p: PassResult, uid0: nat, ev0: map<Id, Event>, now: int): Tally
  {
    Tally(p.grid, uid0 + |p.commits|, EventBus.AddedAll(ev0, ChangeEvents(p.commits, uid0, now)), Confirmations(p.commits))
  }

  /** One more request: a commit moves the object, announces the move under
    * the next `gen_id` value and records its callback; a skipped or blocked
    * request changes nothing. */
  ghost function Advance(t: Tally, m: Move, cbs: map<(int, int), nat>, decide: (nat, Id, Id) -> bool, now: int): Tally
  {
    if m.mover.enabled && !Blocked(t.grid, cbs, decide, m.id, m.mover, m.target) then
      Tally(Commit(t.grid, m), t.uid + 1,
            t.events[t.uid + 1 := ChangeEvent(t.uid + 1, m.id, m.oldPos, Some(m.newPos), m.isPlayer, now)],
            t.confirmed + (if m.callback.Some? then [m.callback.value] else []))
    else t
  }

  /** `Advance` by cases: either the move commits, or nothing changes. */
  lemma AdvanceCases(t: Tally, t': Tally, m: Move, cbs: map<(int, int), nat>, decide: (nat, Id, Id) -> bool, now: int, committed: bool)
    requires committed <==> m.mover.enabled && !Blocked(t.grid, cbs, decide, m.id, m.mover, m.target)
    requires committed ==> && t'.grid == Commit(t.grid, m) && t'.uid == t.uid + 1
                           && t'.events == t.events[t'.uid := ChangeEvent(t'.uid, m.id, m.oldPos, Some(m.newPos), m.isPlayer, now)]
                           && t'.confirmed == t.confirmed + (if m.callback.Some? then [m.callback.value] else [])
    requires !committed ==> t' == t
    ensures t' == Advance(t, m, cbs, decide, now)
  {
  }

  /** `Pass` taken one request at a time is `Advance`. */
  lemma TallyOfOne(p: PassResult, m: Move, cbs: map<(int, int), nat>, decide: (nat, Id, Id) -> bool,
                   uid0: nat, ev0: map<Id, Event>, now: int)
    ensures TallyOf(PassOne(p, m, cbs, decide), uid0, ev0, now) == Advance(TallyOf(p, uid0, ev0, now), m, cbs, decide, now)
  {
    if m.mover.enabled && !Blocked(p.grid, cbs, decide, m.id, m.mover, m.target) {
      var e := TallyOf(p, uid0, ev0, now);
      var ce := ChangeEvent(e.uid + 1, m.id, m.oldPos, Some(m.newPos), m.isPlayer, now);
      ChangeEventsSnoc(p.commits, m, uid0, now);
      EventBus.AddedAllSnoc(ev0, ChangeEvents(p.commits, uid0, now), ce);
      ConfirmationsSnoc(p.commits, m);
    }
  }

  /** The callback registered for `(t1, t2)` exists and returns true. */
  ghost predicate PairFires(cbs: map<(int, int), nat>, decide: (nat, Id, Id) -> bool, id: Id, id2: Id, t1: int, t2: int)
  {
    (t1, t2) in cbs && decide(cbs[(t1, t2)], id, id2)
  }

  /** The collision types of an object as a list, as `update()` builds them. */
  method TypeList(ts: set<int>) returns (xs: seq<int>)
    ensures forall t :: t in xs <==> t in ts
  {
    xs := [];
    var todo := ts;
    while todo != {}
      invariant todo <= ts
      invariant forall t :: t in xs <==> t in ts - todo
      decreases todo
    {
      var t := Pick(todo);
      xs := xs + [t];
      todo := todo - {t};
    }
  }

  /** Whether some callback for a pair of the two objects' shape types
    * fires; every such callback is asked, as in the nested loops of
    * `update()`. */
  method AnyCallbackFires(cbs: map<(int, int), nat>, id: Id, mover: Occupant, id2: Id, other: Occupant, decide: (nat, Id, Id) -> bool)
    returns (hit: bool)
    ensures hit <==> Fires(cbs, decide, id, mover, id2, other)
  {
    var types1 := TypeList(mover.types);
    var types2 := TypeList(other.types);
    hit := false;
    var i := 0;
    while i < |types1|
      invariant 0 <= i <= |types1|
      invariant hit <==> exists a, b :: 0 <= a < i && 0 <= b < |types2| && PairFires(cbs, decide, id, id2, types1[a], types2[b])
    {
      var j := 0;
      while j < |types2|
        invariant 0 <= j <= |types2|
        invariant hit <==> || (exists a, b :: 0 <= a < i && 0 <= b < |types2| && PairFires(cbs, decide, id, id2, types1[a], types2[b]))
                           || (exists b :: 0 <= b < j && PairFires(cbs, decide, id, id2, types1[i], types2[b]))
      {
        var t1, t2 := types1[i], types2[j];
        if (t1, t2) in cbs && decide(cbs[(t1, t2)], id, id2) {
          hit := true;
        }
        j := j + 1;
      }
      i := i + 1;
    }
    if hit {
      ghost var a, b :| 0 <= a < |types1| && 0 <= b < |types2| && PairFires(cbs, decide, id, id2, types1[a], types2[b]);
      assert types1[a] in mover.types && types2[b] in other.types;
    } else {
      forall t1, t2 | t1 in mover.types && t2 in other.types ensures !PairFires(cbs, decide, id, id2, t1, t2) {
        ghost var a :| 0 <= a < |types1| && types1[a] == t1;
        ghost var b :| 0 <= b < |types2| && types2[b] == t2;
      }
    }
  }

  class GridPhysicsEngine {
    /** `config.tile_size` */
    const tileSize: nat
    const space: GridSpace
    /** the game's event bus, where position changes are announced */
    const em: EventBus.EventManager
    /** the shared `gen_id` counter */
    const ids: Ids.IdGen
    /** `position_updates`, in the dict's insertion order */
    var positionUpdates: seq<Request>
    /** `collision_callbacks`: (type a, type b) -> callback token */
    var collisionCallbacks: map<(int, int), nat>

    ghost predicate Valid()
      reads this`positionUpdates, this`collisionCallbacks, space, em, ids
    {
      && tileSize > 0 && space.Valid() && em.Valid() && ids.Valid()
      && DistinctRequests(positionUpdates) && Symmetric(collisionCallbacks)
    }

    constructor (tileSize: nat, em: EventBus.EventManager, ids: Ids.IdGen)
      requires tileSize > 0 && em.Valid() && ids.Valid()
      ensures Valid() && this.tileSize == tileSize && this.em == em && this.ids == ids
      ensures fresh(space) && space.coordToObj == map[] && space.objToCoord == map[] && space.tracked == map[]
      ensures positionUpdates == [] && collisionCallbacks == map[]
    {
      this.tileSize := tileSize;
      this.em := em;
      this.ids := ids;
      space := new GridSpace();
      positionUpdates := [];
      collisionCallbacks := map[];
    }

    ghost function View(): Grid
      requires space.Valid()
      reads space, space.objs`enabled, space.objs`shapes
    {
      Grid(space.coordToObj, space.objToCoord, Occupancy(space.tracked, space.objs), space.tracked)
    }

    /** The view only changes with the index or an object's `enabled` flag
      * or shapes. */
    twostate lemma ViewUnchanged()
      requires old(space.Valid()) && unchanged(space)
      requires forall o :: o in old(space.objs) ==> unchanged(o`enabled, o`shapes)
      ensures space.Valid() && View() == old(View())
    {
    }

    lemma ViewOk()
      requires Valid()
      ensures GridOk(View())
    {
    }

    /** `set_collision_callback(cb, a, b)`: both orders map to `cb`. */
    method SetCollisionCallback(cb: nat, a: int, b: int)
      requires Valid()
      modifies this`collisionCallbacks
      ensures Valid()
      ensures collisionCallbacks == WithCallback(old(collisionCallbacks), cb, a, b)
    {
      WithCallbackSymmetric(collisionCallbacks, cb, a, b);
      collisionCallbacks := collisionCallbacks[(a, b) := cb];
      collisionCallbacks := collisionCallbacks[(b, a) := cb];
    }

    /** The immediate branch of `update_obj_position`: announce the change,
      * move the object in the index (or drop it for `None`), set its
      * position and confirm through the callback. */
    method ApplyPosition(obj: GObject, newPos: Option<Vec>, callback: Option<nat>, now: int) returns (confirmed: Option<nat>)
      requires Valid()
      modifies space, em, ids, obj`position, obj`lastChange
      ensures Valid()
      ensures ids.uid == old(ids.uid) + 1
      ensures em.events == old(em.events)[ids.uid := ChangeEvent(ids.uid, obj.id, old(obj.position), newPos, obj.playerId.Some?, now)]
      ensures newPos.Some? ==>
                && space.objToCoord == old(space.objToCoord)[obj.id := VecToCoord(newPos.value, tileSize)]
                && space.coordToObj == Appended(Unindexed(old(space.coordToObj), old(space.objToCoord), obj.id), obj.id, VecToCoord(newPos.value, tileSize))
                && space.tracked == old(space.tracked)[obj.id := obj]
      ensures newPos.None? ==>
                && space.objToCoord == old(space.objToCoord) - {obj.id}
                && space.coordToObj == Unindexed(old(space.coordToObj), old(space.objToCoord), obj.id)
                && space.tracked == old(space.tracked) - {obj.id}
      ensures newPos.Some? ==> View() == Place(old(View()), obj.id, obj, VecToCoord(newPos.value, tileSize), old(Occ(obj)))
      ensures obj.position == newPos && obj.lastChange == Some(now)
      ensures confirmed == callback
    {
      var id := ids.GenId();
      em.AddEvent(ChangeEvent(id, obj.id, obj.position, newPos, obj.playerId.Some?, now));
      ViewUnchanged();
      Relocate(obj, newPos, now);
      confirmed := callback;
    }

    /** The index and position half of an applied change. */
    method Relocate(obj: GObject, newPos: Option<Vec>, now: int)
      requires tileSize > 0 && space.Valid()
      modifies space, obj`position, obj`lastChange
      ensures space.Valid()
      ensures newPos.Some? ==>
                && space.objToCoord == old(space.objToCoord)[obj.id := VecToCoord(newPos.value, tileSize)]
                && space.coordToObj == Appended(Unindexed(old(space.coordToObj), old(space.objToCoord), obj.id), obj.id, VecToCoord(newPos.value, tileSize))
                && space.tracked == old(space.tracked)[obj.id := obj]
                && View() == Place(old(View()), obj.id, obj, VecToCoord(newPos.value, tileSize), old(Occ(obj)))
      ensures newPos.None? ==>
                && space.objToCoord == old(space.objToCoord) - {obj.id}
                && space.coordToObj == Unindexed(old(space.coordToObj), old(space.objToCoord), obj.id)
                && space.tracked == old(space.tracked) - {obj.id}
      ensures obj.position == newPos && obj.lastChange == Some(now)
    {
      ghost var t0, o0 := space.tracked, space.objs;
      ghost var v0 := View();
      if newPos.Some? {
        space.MoveObjTo(VecToCoord(newPos.value, tileSize), obj);
        obj.SetPosition(newPos, now);
        OccupancyFrame(t0, o0);
        OccupancyTrack(t0, o0, obj);
      } else {
        space.RemoveObj(obj.id);
        obj.SetPosition(newPos, now);
      }
    }

    /** `update_obj_position`: with `skip_collision_check` the change is
      * applied at once; otherwise the request is buffered under the object's
      * id and nothing else changes. */
    method UpdateObjPosition(obj: GObject, newPos: Option<Vec>, skip: bool, callback: Option<nat>, now: int)
      returns (confirmed: Option<nat>)
      requires Valid()
      modifies this`positionUpdates, space, em, ids, obj`position, obj`lastChange
      ensures Valid()
      ensures skip ==> positionUpdates == old(positionUpdates) && ids.uid == old(ids.uid) + 1
      ensures skip ==> em.events == old(em.events)[ids.uid := ChangeEvent(ids.uid, obj.id, old(obj.position), newPos, obj.playerId.Some?, now)]
      ensures skip && newPos.Some? ==> space.objToCoord == old(space.objToCoord)[obj.id := VecToCoord(newPos.value, tileSize)]
      ensures skip && newPos.None? ==> space.objToCoord == old(space.objToCoord) - {obj.id}
      ensures skip ==> obj.position == newPos && obj.lastChange == Some(now)
      ensures skip ==> confirmed == callback
      ensures !skip ==> positionUpdates == Buffered(old(positionUpdates), Request(obj, newPos, callback))
      ensures !skip ==> unchanged(space, em, ids) && confirmed == None
      ensures !skip ==> obj.position == old(obj.position) && obj.lastChange == old(obj.lastChange)
    {
      confirmed := None;
      if skip {
        confirmed := ApplyPosition(obj, newPos, callback, now);
      } else {
        BufferedDistinct(positionUpdates, Request(obj, newPos, callback));
        positionUpdates := Buffered(positionUpdates, Request(obj, newPos, callback));
      }
    }

    /** `add_object`: stamps the change, installs the engine's position
      * callback on the object and places it at its current position. */
    method AddObject(obj: GObject, now: int)
      requires Valid()
      modifies space, em, ids, obj`position, obj`lastChange, obj`positionCallbackInstalled
      ensures Valid() && obj.positionCallbackInstalled
      ensures ids.uid == old(ids.uid) + 1
      ensures em.events == old(em.events)[ids.uid := ChangeEvent(ids.uid, obj.id, old(obj.position), old(obj.position), obj.playerId.Some?, now)]
      ensures old(obj.position).Some? ==> space.objToCoord == old(space.objToCoord)[obj.id := VecToCoord(old(obj.position).value, tileSize)]
      ensures old(obj.position).Some? ==> obj.id in space.GetObjsAt(VecToCoord(old(obj.position).value, tileSize))
      ensures old(obj.position).None? ==> space.objToCoord == old(space.objToCoord) - {obj.id}
      ensures obj.position == old(obj.position) && obj.lastChange == Some(now)
    {
      obj.SetLastChange(now);
      obj.SetPositionCallbackInstalled();
      var _ := ApplyPosition(obj, obj.position, None, now);
    }

    /** `remove_object`: drops the object from the index. */
    method RemoveObject(obj: GObject)
      requires Valid()
      modifies space
      ensures Valid()
      ensures space.objToCoord == old(space.objToCoord) - {obj.id} && space.tracked == old(space.tracked) - {obj.id}
      ensures space.coordToObj == Unindexed(old(space.coordToObj), old(space.objToCoord), obj.id)
    {
      space.RemoveObj(obj.id);
    }

    /** `GObject.update_position`: goes through the installed callback; an
      * object never added to an engine has the no-op callback. */
    method UpdatePosition(obj: GObject, pos: Option<Vec>, skip: bool, callback: Option<nat>, now: int)
      returns (confirmed: Option<nat>)
      requires Valid()
      modifies this`positionUpdates, space, em, ids, obj`position, obj`lastChange
      ensures Valid()
      ensures !obj.positionCallbackInstalled ==> unchanged(this, space, em, ids) && unchanged(obj) && confirmed == None
      ensures obj.positionCallbackInstalled && skip ==> obj.position == pos && ids.uid == old(ids.uid) + 1 && confirmed == callback
      ensures obj.positionCallbackInstalled && !skip ==> positionUpdates == Buffered(old(positionUpdates), Request(obj, pos, callback))
    {
      confirmed := None;
      if obj.positionCallbackInstalled {
        confirmed := UpdateObjPosition(obj, pos, skip, callback, now);
      }
    }

    /** `GObject.sync_position`: re-submits the current position with the
      * collision check skipped. */
    method SyncPosition(obj: GObject, now: int)
      requires Valid()
      modifies this`positionUpdates, space, em, ids, obj`position, obj`lastChange
      ensures Valid()
      ensures !obj.positionCallbackInstalled ==> unchanged(this, space, em, ids) && unchanged(obj)
      ensures obj.positionCallbackInstalled ==>
                && obj.position == old(obj.position) && ids.uid == old(ids.uid) + 1
                && positionUpdates == old(positionUpdates)
                && em.events == old(em.events)[ids.uid := ChangeEvent(ids.uid, obj.id, old(obj.position), old(obj.position), obj.playerId.Some?, now)]
    {
      if obj.positionCallbackInstalled {
        var _ := UpdateObjPosition(obj, obj.position, true, None, now);
      }
    }

    /** The collision check of `update()` for a move of `obj` to `coord`:
      * every other enabled occupant of the cell is tried. */
    method CheckCollision(coord: Coord, obj: GObject, decide: (nat, Id, Id) -> bool) returns (hit: bool)
      requires space.Valid()
      ensures hit <==> Blocked(View(), collisionCallbacks, decide, obj.id, Occ(obj), coord)
    {
      ghost var g := View();
      var bucket := space.GetObjsAt(coord);
      var mover := Occ(obj);
      hit := false;
      var i := 0;
      while i < |bucket|
        invariant 0 <= i <= |bucket|
        invariant hit <==> exists j :: 0 <= j < i && Hits(g, collisionCallbacks, decide, obj.id, mover, bucket[j])
      {
        var f := HitBy(g, obj, mover, bucket[i], decide);
        hit := hit || f;
        i := i + 1;
      }
      if hit {
        ghost var j :| 0 <= j < i && Hits(g, collisionCallbacks, decide, obj.id, mover, bucket[j]);
        assert bucket[j] in bucket;
      }
    }

    /** One entry of the target cell's bucket: a different, enabled object
      * one of whose type pairs has a callback that fires. */
    method HitBy(ghost g: Grid, obj: GObject, mover: Occupant, id2: Id, decide: (nat, Id, Id) -> bool) returns (hit: bool)
      requires space.Valid() && g == View() && id2 in space.objToCoord
      ensures hit <==> Hits(g, collisionCallbacks, decide, obj.id, mover, id2)
    {
      hit := false;
      if id2 != obj.id {
        var obj2 := space.tracked[id2];
        if obj2.enabled {
          hit := AnyCallbackFires(collisionCallbacks, obj.id, mover, id2, Occ(obj2), decide);
        }
      }
    }

    /** The objects of the buffered requests. */
    ghost function Movers(): set<GObject>
      reads this`positionUpdates
    {
      set r | r in positionUpdates :: r.obj
    }

    /** One request of `update()`: a disabled object is skipped; otherwise
      * the collision check runs against the current index and, unless some
      * callback vetoes the move, the change is applied (`move_obj_to`, the
      * change event, `set_position`, `callback(True)`). `m` is the request
      * as `Pass` sees it. */
    method Resolve(r: Request, ghost m: Move, confirmed: seq<nat>, now: int, decide: (nat, Id, Id) -> bool)
      returns (committed: bool, confirmed': seq<nat>)
      requires Valid() && Resolvable(r)
      requires m.id == r.obj.id && m.obj == r.obj && m.target == VecToCoord(RequestedPos(r), tileSize)
      requires m.newPos == RequestedPos(r) && m.mover == Occ(r.obj) && m.oldPos == r.obj.position
      requires m.isPlayer == r.obj.playerId.Some? && m.callback == r.callback
      modifies space, em, ids, r.obj`position, r.obj`lastChange
      ensures Valid()
      ensures committed <==> m.mover.enabled && !Blocked(old(View()), collisionCallbacks, decide, m.id, m.mover, m.target)
      ensures Tally(View(), ids.uid, em.events, confirmed')
              == Advance(Tally(old(View()), old(ids.uid), old(em.events), confirmed), m, collisionCallbacks, decide, now)
      ensures committed ==> r.obj.position == Some(m.newPos) && r.obj.lastChange == Some(now)
      ensures !committed ==> unchanged(space, em, ids, r.obj)
    {
      committed, confirmed' := false, confirmed;
      if r.obj.enabled {
        // `round(new_pos.x)` leaves the integer positions of this model alone
        var hit := CheckCollision(VecToCoord(r.newPos.value, tileSize), r.obj, decide);
        ViewUnchanged();
        if !hit {
          confirmed' := Apply(r, m, confirmed, now, decide);
          committed := true;
          return;
        }
      }
      ViewUnchanged();
      AdvanceCases(old(Tally(View(), ids.uid, em.events, confirmed)), Tally(View(), ids.uid, em.events, confirmed'),
                   m, collisionCallbacks, decide, now, false);
    }

    /** A request that passed the collision check is applied: `move_obj_to`,
      * the change event, `set_position`, `callback(True)`. */
    method Apply(r: Request, ghost m: Move, confirmed: seq<nat>, now: int, decide: (nat, Id, Id) -> bool)
      returns (confirmed': seq<nat>)
      requires Valid() && r.newPos.Some?
      requires m.id == r.obj.id && m.obj == r.obj && m.target == VecToCoord(r.newPos.value, tileSize)
      requires m.newPos == r.newPos.value && m.mover == Occ(r.obj) && m.oldPos == r.obj.position
      requires m.isPlayer == r.obj.playerId.Some? && m.callback == r.callback
      requires m.mover.enabled && !Blocked(View(), collisionCallbacks, decide, m.id, m.mover, m.target)
      modifies space, em, ids, r.obj`position, r.obj`lastChange
      ensures Valid()
      ensures Tally(View(), ids.uid, em.events, confirmed')
              == Advance(Tally(old(View()), old(ids.uid), old(em.events), confirmed), m, collisionCallbacks, decide, now)
      ensures r.obj.position == Some(m.newPos) && r.obj.lastChange == Some(now)
    {
      ghost var t := Tally(View(), ids.uid, em.events, confirmed);
      var c := ApplyPosition(r.obj, r.newPos, r.callback, now);
      confirmed' := if c.Some? then confirmed + [c.value] else confirmed;
      AdvanceCases(t, Tally(View(), ids.uid, em.events, confirmed'), m, collisionCallbacks, decide, now, true);
    }

    /** Where `update()` stands after the first `i` requests of `rs`: the
      * engine holds what `Pass` predicts for them, and the requests still
      * to come are as they were when the pass began. */
    ghost predicate Resolved(rs: seq<Request>, ms: seq<Move>, i: nat, g0: Grid, uid0: nat, ev0: map<Id, Event>,
                             confirmed: seq<nat>, now: int, decide: (nat, Id, Id) -> bool)
      reads this`positionUpdates, this`collisionCallbacks, space, em, ids, space.objs`enabled, space.objs`shapes
      reads set r | r in rs :: r.obj
    {
      && Valid() && positionUpdates == rs && Pending(rs, ms, i, tileSize)
      && Tally(View(), ids.uid, em.events, confirmed) == TallyOf(Pass(g0, ms[..i], collisionCallbacks, decide), uid0, ev0, now)
    }

    /** One iteration of `update()`. */
    method Step(rs: seq<Request>, i: nat, confirmed: seq<nat>, now: int, decide: (nat, Id, Id) -> bool,
                ghost ms: seq<Move>, ghost g0: Grid, ghost uid0: nat, ghost ev0: map<Id, Event>,
                ghost before: seq<(Option<Vec>, Option<int>)>)
      returns (confirmed': seq<nat>)
      requires i < |rs| && Resolved(rs, ms, i, g0, uid0, ev0, confirmed, now, decide)
      requires Placed(Stamps(rs), before, g0, ms, i, collisionCallbacks, decide, now)
      modifies space, em, ids, rs[i].obj`position, rs[i].obj`lastChange
      ensures Resolved(rs, ms, i + 1, g0, uid0, ev0, confirmed', now, decide)
      ensures Placed(Stamps(rs), before, g0, ms, i + 1, collisionCallbacks, decide, now)
    {
      assert ms[..i + 1] == ms[..i] + [ms[i]];
      PassSnoc(g0, ms[..i], ms[i], collisionCallbacks, decide);
      TallyOfOne(Pass(g0, ms[..i], collisionCallbacks, decide), ms[i], collisionCallbacks, decide, uid0, ev0, now);
      ghost var st := Stamps(rs);
      var committed;
      committed, confirmed' := ResolveAt(rs, i, ms[i], confirmed, now, decide);
      PlacedNext(st, Stamps(rs), before, g0, ms, i, collisionCallbacks, decide, now);
      // the later requests are for other objects, which the step leaves alone
      forall j | i + 1 <= j < |rs| ensures Resolvable(rs[j]) && MoveOf(rs[j], tileSize) == ms[j] {
        assert unchanged(rs[j].obj);
      }
    }

    /** `Resolve` for the `i`-th buffered request: only that request's
      * object can change its position and stamp. */
    method ResolveAt(rs: seq<Request>, i: nat, ghost m: Move, confirmed: seq<nat>, now: int, decide: (nat, Id, Id) -> bool)
      returns (committed: bool, confirmed': seq<nat>)
      requires i < |rs| && Valid() && positionUpdates == rs && Resolvable(rs[i])
      requires m == MoveOf(rs[i], tileSize)
      modifies space, em, ids, rs[i].obj`position, rs[i].obj`lastChange
      ensures Valid()
      ensures committed <==> m.mover.enabled && !Blocked(old(View()), collisionCallbacks, decide, m.id, m.mover, m.target)
      ensures Tally(View(), ids.uid, em.events, confirmed')
              == Advance(Tally(old(View()), old(ids.uid), old(em.events), confirmed), m, collisionCallbacks, decide, now)
      ensures Stamps(rs) == if committed then old(Stamps(rs))[i := (Some(m.newPos), Some(now))] else old(Stamps(rs))
      ensures forall j :: 0 <= j < |rs| && j != i ==> unchanged(rs[j].obj)
    {
      ghost var st := Stamps(rs);
      committed, confirmed' := Resolve(rs[i], m, confirmed, now, decide);
      forall j | 0 <= j < |rs| && j != i ensures unchanged(rs[j].obj) {
        assert rs[j].obj.id != rs[i].obj.id;
      }
      StampsFrom(rs, st, i, committed, (Some(m.newPos), Some(now)));
    }

    /** `update()`: the buffered requests are resolved in buffer order
      * against the index as the earlier ones left it (see `Pass`); each
      * committed move is announced with a fresh id and its callback is
      * called with true; the buffer is emptied. `decide` stands for the
      * collision callbacks' answers. */
    method Update(now: int, decide: (nat, Id, Id) -> bool) returns (confirmed: seq<nat>)
      requires Valid()
      requires forall j :: 0 <= j < |positionUpdates| ==> Resolvable(positionUpdates[j])
      modifies this`positionUpdates, space, em, ids, Movers()`position, Movers()`lastChange
      ensures Valid() && positionUpdates == []
      ensures var p := Pass(old(View()), old(MovesOf(positionUpdates, tileSize)), collisionCallbacks, decide);
              && View() == p.grid
              && ids.uid == old(ids.uid) + |p.commits|
              && em.events == EventBus.AddedAll(old(em.events), ChangeEvents(p.commits, old(ids.uid), now))
              && confirmed == Confirmations(p.commits)
      ensures Placed(Stamps(old(positionUpdates)), old(Stamps(positionUpdates)), old(View()),
                     old(MovesOf(positionUpdates, tileSize)), |old(positionUpdates)|, collisionCallbacks, decide, now)
    {
      var rs := positionUpdates;
      ghost var g0, ms := View(), MovesOf(rs, tileSize);
      ghost var uid0, ev0, before := ids.uid, em.events, Stamps(rs);
      confirmed := ResolveAll(rs, now, decide, ms, g0, uid0, ev0, before);
      AllResolved(rs, ms, g0, uid0, ev0, confirmed, now, decide);
      ClearBuffer(rs);
    }

    /** The loop of `update()`: every buffered request in buffer order. */
    method ResolveAll(rs: seq<Request>, now: int, decide: (nat, Id, Id) -> bool,
                      ghost ms: seq<Move>, ghost g0: Grid, ghost uid0: nat, ghost ev0: map<Id, Event>,
                      ghost before: seq<(Option<Vec>, Option<int>)>)
      returns (confirmed: seq<nat>)
      requires Resolved(rs, ms, 0, g0, uid0, ev0, [], now, decide)
      requires Placed(Stamps(rs), before, g0, ms, 0, collisionCallbacks, decide, now)
      modifies space, em, ids, Movers()`position, Movers()`lastChange
      ensures Resolved(rs, ms, |rs|, g0, uid0, ev0, confirmed, now, decide)
      ensures Placed(Stamps(rs), before, g0, ms, |rs|, collisionCallbacks, decide, now)
    {
      confirmed := [];
      for i := 0 to |rs|
        invariant Resolved(rs, ms, i, g0, uid0, ev0, confirmed, now, decide)
        invariant Placed(Stamps(rs), before, g0, ms, i, collisionCallbacks, decide, now)
      {
        confirmed := Step(rs, i, confirmed, now, decide, ms, g0, uid0, ev0, before);
      }
    }

    /** Once every request is resolved, the engine's state is the tally of
      * the whole pass. */
    lemma AllResolved(rs: seq<Request>, ms: seq<Move>, g0: Grid, uid0: nat, ev0: map<Id, Event>,
                      confirmed: seq<nat>, now: int, decide: (nat, Id, Id) -> bool)
      requires Resolved(rs, ms, |rs|, g0, uid0, ev0, confirmed, now, decide)
      ensures Valid() && positionUpdates == rs
      ensures Tally(View(), ids.uid, em.events, confirmed) == TallyOf(Pass(g0, ms, collisionCallbacks, decide), uid0, ev0, now)
    {
      assert ms[..|rs|] == ms;
    }

    /** The buffer emptied at the end of `update()`. */
    method ClearBuffer(ghost rs: seq<Request>)
      requires Valid()
      modifies this`positionUpdates
      ensures Valid() && positionUpdates == []
      ensures View() == old(View()) && Stamps(rs) == old(Stamps(rs))
    {
      positionUpdates := [];
    }
  }
}
