/** `GridSpace` of `simpleland/physics_engine.py`: the spatial index of the
  * grid engine, a two-way map between integer cells and object ids. */
module GridIndex {
  import opened Base
  import opened GameObject

  /** No id appears twice in a bucket. */
  ghost predicate NoDup(s: seq<Id>)
  {
    forall i, j :: 0 <= i < j < |s| ==> s[i] != s[j]
  }

  /** `list.remove(x)`: drops the first occurrence of `x`. */
  function RemoveFirst(s: seq<Id>, x: Id): (r: seq<Id>)
    ensures |r| == if x in s then |s| - 1 else |s|
    ensures forall y :: y in r ==> y in s
    ensures forall y :: y in s && y != x ==> y in r
  {
    if s == [] then []
    else if s[0] == x then s[1..]
    else [s[0]] + RemoveFirst(s[1..], x)
  }

  /** Removing from a bucket without duplicates keeps it free of them and
    * removes the id altogether. */
  lemma {:induction false} RemoveFirstNoDup(s: seq<Id>, x: Id)
    requires NoDup(s)
    ensures NoDup(RemoveFirst(s, x)) && x !in RemoveFirst(s, x)
  {
    if s != [] && s[0] != x {
      assert NoDup(s[1..]);
      RemoveFirstNoDup(s[1..], x);
      var r := RemoveFirst(s[1..], x);
      assert s[0] !in s[1..];
      assert s[0] !in r;
      assert NoDup([s[0]] + r) by {
        forall i, j | 0 <= i < j < |[s[0]] + r| ensures ([s[0]] + r)[i] != ([s[0]] + r)[j] {
          if i > 0 {
            assert ([s[0]] + r)[i] == r[i - 1];
          }
          assert ([s[0]] + r)[j] == r[j - 1];
        }
      }
    } else if s != [] {
      assert s[0] !in s[1..];
    }
  }

  lemma {:induction false} RemoveFirstAbsent(s: seq<Id>, x: Id)
    requires x !in s
    ensures RemoveFirst(s, x) == s
  {
    if s != [] {
      RemoveFirstAbsent(s[1..], x);
    }
  }

  /** The bucket of a cell, `[]` when the cell is unoccupied. */
  function GetBucket(fwd: map<Coord, seq<Id>>, c: Coord): seq<Id>
  {
    if c in fwd then fwd[c] else []
  }

  /** The forward map (cell -> bucket) and the reverse map (id -> cell)
    * agree, no bucket is empty and no id sits twice in a bucket. */
  ghost predicate Agrees(fwd: map<Coord, seq<Id>>, rev: map<Id, Coord>)
  {
    && (forall c {:trigger fwd[c]} :: c in fwd ==> |fwd[c]| > 0 && NoDup(fwd[c]))
    && (forall c, id {:trigger id in fwd[c]} :: c in fwd && id in fwd[c] ==> id in rev && rev[id] == c)
    && (forall id {:trigger id in rev} :: id in rev ==> rev[id] in fwd && id in fwd[rev[id]])
  }

  /** The forward map after `remove_obj(id)`: nothing for an untracked id;
    * the bucket is deleted when it holds at most this id; otherwise the id
    * is removed from it. */
  function Unindexed(fwd: map<Coord, seq<Id>>, rev: map<Id, Coord>, id: Id): map<Coord, seq<Id>>
  {
    if id !in rev then fwd
    else if |GetBucket(fwd, rev[id])| <= 1 then fwd - {rev[id]}
    else fwd[rev[id] := RemoveFirst(fwd[rev[id]], id)]
  }

  /** The forward map after appending `id` to the bucket of `c`. */
  function Appended(fwd: map<Coord, seq<Id>>, id: Id, c: Coord): map<Coord, seq<Id>>
  {
    fwd[c := GetBucket(fwd, c) + [id]]
  }

  /** Removing an id keeps the two maps in agreement, and no bucket is left
    * empty. */
  lemma UnindexedAgrees(fwd: map<Coord, seq<Id>>, rev: map<Id, Coord>, id: Id)
    requires Agrees(fwd, rev)
    ensures Agrees(Unindexed(fwd, rev, id), rev - {id})
    ensures forall c :: c in Unindexed(fwd, rev, id) ==> id !in Unindexed(fwd, rev, id)[c]
  {
    var f2 := Unindexed(fwd, rev, id);
    var r2 := rev - {id};
    if id in rev {
      var last := rev[id];
      if |fwd[last]| <= 1 {
        assert fwd[last] == [id];
      } else {
        RemoveFirstNoDup(fwd[last], id);
      }
      forall c, x | c in f2 && x in f2[c] ensures x in r2 && r2[x] == c {
        assert x in fwd[c];
      }
      forall x | x in r2 ensures r2[x] in f2 && x in f2[r2[x]] {
        assert x in fwd[rev[x]];
      }
    } else {
      assert forall c :: c in fwd ==> id !in fwd[c];
    }
  }

  /** Appending an untracked id to a cell keeps the maps in agreement. */
  lemma AppendedAgrees(fwd: map<Coord, seq<Id>>, rev: map<Id, Coord>, id: Id, c: Coord)
    requires Agrees(fwd, rev) && id !in rev
    ensures Agrees(Appended(fwd, id, c), rev[id := c])
  {
    var b := GetBucket(fwd, c);
    assert id !in b;
    assert NoDup(b + [id]) by {
      forall i, j | 0 <= i < j < |b + [id]| ensures (b + [id])[i] != (b + [id])[j] {
        if j < |b| {
          assert (b + [id])[i] == b[i] && (b + [id])[j] == b[j];
        } else {
          assert (b + [id])[i] == b[i];
        }
      }
    }
    var f2 := Appended(fwd, id, c);
    var r2 := rev[id := c];
    forall c', x | c' in f2 && x in f2[c'] ensures x in r2 && r2[x] == c' {
      if c' == c && x != id {
        assert x in b;
      }
    }
    forall x | x in r2 ensures r2[x] in f2 && x in f2[r2[x]] {
      if x != id && rev[x] == c {
        assert x in b;
        assert x in b + [id];
      }
    }
  }

  /** The index is consistent: the reverse map and the object table have
    * the same ids, each object is filed under its own id, and the forward
    * and reverse maps agree. */
  ghost predicate Indexed(fwd: map<Coord, seq<Id>>, rev: map<Id, Coord>, tracked: map<Id, GObject>, objs: set<GObject>)
  {
    && rev.Keys == tracked.Keys
    && (forall id :: id in tracked ==> tracked[id].id == id && tracked[id] in objs)
    && Agrees(fwd, rev)
  }

  /** `remove_obj` keeps the index consistent and leaves the id in no
    * bucket. */
  lemma RemovedIndexed(fwd: map<Coord, seq<Id>>, rev: map<Id, Coord>, tracked: map<Id, GObject>, objs: set<GObject>, id: Id)
    requires Indexed(fwd, rev, tracked, objs)
    ensures Indexed(Unindexed(fwd, rev, id), rev - {id}, tracked - {id}, objs)
    ensures forall c :: c in Unindexed(fwd, rev, id) ==> id !in Unindexed(fwd, rev, id)[c]
  {
    UnindexedAgrees(fwd, rev, id);
  }

  class GridSpace {
    /** cell -> ids of the objects in that cell, in arrival order */
    var coordToObj: map<Coord, seq<Id>>
    /** id -> the cell it occupies */
    var objToCoord: map<Id, Coord>
    /** id -> the object itself */
    var tracked: map<Id, GObject>
    /** every object ever tracked, a superset of the values of `tracked` */
    ghost var objs: set<GObject>

    ghost predicate Valid()
      reads this
    {
      Indexed(coordToObj, objToCoord, tracked, objs)
    }

    constructor ()
      ensures Valid() && coordToObj == map[] && objToCoord == map[] && tracked == map[]
    {
      coordToObj := map[];
      objToCoord := map[];
      tracked := map[];
      objs := {};
    }

    /** `get_objs_at`: the ids in a cell, `[]` for an unoccupied cell; they
      * are exactly the ids the reverse map places there. */
    function GetObjsAt(c: Coord): (ids: seq<Id>)
      reads this
      ensures c !in coordToObj ==> ids == []
      ensures Valid() ==> forall id :: id in ids <==> id in objToCoord && objToCoord[id] == c
    {
      GetBucket(coordToObj, c)
    }

    /** `get_obj_by_id`. */
    function GetObjById(id: Id): (o: Option<GObject>)
      reads this
      ensures id in tracked <==> o.Some?
      ensures o.Some? ==> o.value == tracked[id]
    {
      if id in tracked then Some(tracked[id]) else None
    }

    /** `remove_obj`: an untracked id changes nothing; otherwise the id
      * leaves its bucket (the bucket is deleted when the id was its only
      * entry) and both reverse maps. */
    method RemoveObj(id: Id)
      requires Valid()
      modifies this`coordToObj, this`objToCoord, this`tracked
      ensures Valid()
      ensures coordToObj == Unindexed(old(coordToObj), old(objToCoord), id)
      ensures objToCoord == old(objToCoord) - {id} && tracked == old(tracked) - {id}
      ensures forall c :: c in coordToObj ==> id !in coordToObj[c]
      ensures objs == old(objs)
    {
      ghost var f0, r0, t0 := coordToObj, objToCoord, tracked;
      RemovedIndexed(f0, r0, t0, objs, id);
      if id !in objToCoord {
        assert r0 - {id} == r0 && t0 - {id} == t0;
        return;
      }
      var last := objToCoord[id];
      var ids := GetBucket(coordToObj, last);
      if |ids| <= 1 {
        coordToObj := coordToObj - {last};
      } else {
        coordToObj := coordToObj[last := RemoveFirst(ids, id)];
      }
      objToCoord := objToCoord - {id};
      tracked := tracked - {id};
      assert coordToObj == Unindexed(f0, r0, id);
      assert Indexed(coordToObj, objToCoord, tracked, objs);
    }

    /** `move_obj_to`: the object leaves its old cell and is appended to the
      * bucket of `c`; afterwards it is indexed at `c` and in no other bucket. */
    method MoveObjTo(c: Coord, obj: GObject)
      requires Valid()
      modifies this
      ensures Valid()
      ensures objToCoord == old(objToCoord)[obj.id := c]
      ensures tracked == old(tracked)[obj.id := obj]
      ensures coordToObj == Appended(Unindexed(old(coordToObj), old(objToCoord), obj.id), obj.id, c)
      ensures obj.id in GetBucket(coordToObj, c)
      ensures forall c' :: c' != c ==> obj.id !in GetBucket(coordToObj, c')
      ensures objs == old(objs) + {obj}
    {
      ghost var f0, r0 := coordToObj, objToCoord;
      MovedAgrees(f0, r0, obj.id, c);
      coordToObj := Appended(Unindexed(coordToObj, objToCoord, obj.id), obj.id, c);
      objToCoord := objToCoord[obj.id := c];
      tracked := tracked[obj.id := obj];
      objs := objs + {obj};
      assert objToCoord == r0[obj.id := c];
    }
  }

  /** `move_obj_to` keeps the two maps in agreement. */
  lemma MovedAgrees(fwd: map<Coord, seq<Id>>, rev: map<Id, Coord>, id: Id, c: Coord)
    requires Agrees(fwd, rev)
    ensures Agrees(Appended(Unindexed(fwd, rev, id), id, c), rev[id := c])
    ensures id in GetBucket(Appended(Unindexed(fwd, rev, id), id, c), c)
    ensures forall c' :: c' != c ==> id !in GetBucket(Appended(Unindexed(fwd, rev, id), id, c), c')
  {
    UnindexedAgrees(fwd, rev, id);
    AppendedAgrees(Unindexed(fwd, rev, id), rev - {id}, id, c);
    assert (rev - {id})[id := c] == rev[id := c];
  }
}
