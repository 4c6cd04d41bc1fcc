/** `GObjectManager` of `simpleland/object_manager.py`: the object table
  * (id -> object) with a secondary index from config id to the ids of the
  * objects of that config, and the full and delta snapshot exports. */
module ObjectTable {
  import opened Base
  import opened GameObject

  /** The ids filed under config `c`; `[]`-like empty set when none. */
  function IndexOf(index: map<Option<string>, set<Id>>, c: Option<string>): set<Id>
  {
    if c in index then index[c] else {}
  }

  /** The index after `add`: `id` joins the set of its config. */
  function Indexed(index: map<Option<string>, set<Id>>, c: Option<string>, id: Id): map<Option<string>, set<Id>>
  {
    index[c := IndexOf(index, c) + {id}]
  }

  /** The index after `remove_by_id`: `id` is discarded from the set of the
    * config the object has at removal time; a config with no set stays
    * without one. */
  function Unindexed(index: map<Option<string>, set<Id>>, c: Option<string>, id: Id): map<Option<string>, set<Id>>
  {
    if c in index then index[c := index[c] - {id}] else index
  }

  /** The index and the objects' config ids (`cfg`: id -> config id) agree:
    * an id is filed under a config exactly when it is in the table with
    * that config. */
  ghost predicate Consistent(cfg: map<Id, Option<string>>, index: map<Option<string>, set<Id>>)
  {
    forall c, id :: id in IndexOf(index, c) <==> id in cfg && cfg[id] == c
  }

  /** Adding an object keeps the index consistent, provided an object it
    * replaces had the same config. */
  lemma AddConsistent(cfg: map<Id, Option<string>>, index: map<Option<string>, set<Id>>, id: Id, c: Option<string>)
    requires Consistent(cfg, index)
    requires id in cfg ==> cfg[id] == c
    ensures Consistent(cfg[id := c], Indexed(index, c, id))
  {
    var cfg', index' := cfg[id := c], Indexed(index, c, id);
    forall c', id' ensures id' in IndexOf(index', c') <==> id' in cfg' && cfg'[id'] == c' {
      if c' != c {
        assert IndexOf(index', c') == IndexOf(index, c');
      }
    }
  }

  /** Removing an object keeps the index consistent. */
  lemma RemoveConsistent(cfg: map<Id, Option<string>>, index: map<Option<string>, set<Id>>, id: Id)
    requires Consistent(cfg, index) && id in cfg
    ensures Consistent(cfg - {id}, Unindexed(index, cfg[id], id))
  {
    var cfg', index' := cfg - {id}, Unindexed(index, cfg[id], id);
    forall c', id' ensures id' in IndexOf(index', c') <==> id' in cfg' && cfg'[id'] == c' {
      if c' != cfg[id] {
        assert IndexOf(index', c') == IndexOf(index, c');
      } else {
        assert id in IndexOf(index, c');
        assert IndexOf(index', c') == IndexOf(index, c') - {id};
      }
    }
  }

  /** An object whose config changes after it was added is discarded from
    * its new config's set on removal, so its id stays filed under the old
    * config while the table no longer holds it. */
  lemma StaleIndexAfterConfigChange()
    ensures var cfg := map[1 := Some("a")];
            var index := Indexed(map[], Some("a"), 1);
            Consistent(cfg, index) &&
            1 in IndexOf(Unindexed(index, Some("b"), 1), Some("a")) &&
            1 !in (cfg - {1})
  {
    var index := Indexed(map[], Some("a"), 1);
    forall c, id ensures id in IndexOf(index, c) <==> id in map[1 := Some("a")] && map[1 := Some("a")][id] == c {
      if c != Some("a") {
        assert IndexOf(index, c) == {};
      }
    }
  }

  class GObjectManager {
    /** id -> object */
    var objects: map<Id, GObject>
    /** config id -> ids of the objects added with that config */
    var configIndex: map<Option<string>, set<Id>>

    /** Every object is filed under its own id. */
    ghost predicate Valid()
      reads this
    {
      forall id :: id in objects ==> objects[id].id == id
    }

    /** The config id of every object in the table. */
    ghost function Configs(): map<Id, Option<string>>
      reads this, objects.Values
    {
      map id | id in objects :: objects[id].configId
    }

    constructor ()
      ensures Valid() && objects == map[] && configIndex == map[]
    {
      objects := map[];
      configIndex := map[];
    }

    /** `add`: filed under its id (replacing an object with that id) and
      * added to the set of its config. */
    method Add(obj: GObject)
      requires Valid()
      modifies this
      ensures Valid()
      ensures objects == old(objects)[obj.id := obj]
      ensures configIndex == Indexed(old(configIndex), obj.configId, obj.id)
      ensures GetById(obj.id) == Some(obj) && obj.id in IndexOf(configIndex, obj.configId)
      ensures old(Consistent(Configs(), configIndex)) && (obj.id in old(objects) ==> old(objects[obj.id].configId) == obj.configId)
              ==> Consistent(Configs(), configIndex)
    {
      if Consistent(Configs(), configIndex) && (obj.id in objects ==> objects[obj.id].configId == obj.configId) {
        AddConsistent(Configs(), configIndex, obj.id, obj.configId);
      }
      objects := objects[obj.id := obj];
      configIndex := Indexed(configIndex, obj.configId, obj.id);
      assert Configs() == old(Configs())[obj.id := obj.configId];
    }

    /** `clear_objects`: both the table and the index are emptied. */
    method ClearObjects()
      modifies this
      ensures Valid() && objects == map[] && configIndex == map[]
    {
      objects := map[];
      configIndex := map[];
    }

    /** `get_by_id`: `None` for an absent id. */
    function GetById(id: Id): (o: Option<GObject>)
      reads this
      ensures o.Some? <==> id in objects
      ensures o.Some? ==> o.value == objects[id]
    {
      if id in objects then Some(objects[id]) else None
    }

    /** `remove_by_id`: an absent id raises `KeyError` and changes nothing;
      * otherwise the object leaves the table and the set of its current
      * config, and every other entry stays. */
    method RemoveById(id: Id) returns (r: Result<GObject>)
      requires Valid()
      modifies this
      ensures Valid()
      ensures r.Err? <==> id !in old(objects)
      ensures r.Err? ==> r.error == KeyError(id) && objects == old(objects) && configIndex == old(configIndex)
      ensures r.Ok? ==> r.value == old(objects)[id]
      ensures r.Ok? ==> objects == old(objects) - {id}
      ensures r.Ok? ==> configIndex == Unindexed(old(configIndex), r.value.configId, id)
      ensures old(Consistent(Configs(), configIndex)) ==> Consistent(Configs(), configIndex)
    {
      if id !in objects {
        return Err(KeyError(id));
      }
      var obj := objects[id];
      if Consistent(Configs(), configIndex) {
        RemoveConsistent(Configs(), configIndex, id);
      }
      objects := objects - {id};
      configIndex := Unindexed(configIndex, obj.configId, obj.id);
      assert Configs() == old(Configs()) - {id};
      r := Ok(obj);
    }

    /** `get_objects_by_config_id`: the objects filed under `c`, one per
      * indexed id; an indexed id missing from the table raises `KeyError`. */
    method GetObjectsByConfigId(c: Option<string>) returns (r: Result<seq<GObject>>)
      ensures r.Err? <==> exists id :: id in IndexOf(configIndex, c) && id !in objects
      ensures r.Err? ==> r.error.KeyError? && r.error.key in IndexOf(configIndex, c) && r.error.key !in objects
      ensures Consistent(Configs(), configIndex) ==> r.Ok?
      ensures r.Ok? ==> |r.value| == |IndexOf(configIndex, c)|
      ensures r.Ok? ==> forall o :: o in r.value <==> exists id :: id in IndexOf(configIndex, c) && id in objects && o == objects[id]
    {
      var ids := IndexOf(configIndex, c);
      var todo := ids;
      var found: seq<GObject> := [];
      while todo != {}
        invariant todo <= ids
        invariant forall id :: id in ids - todo ==> id in objects
        invariant |found| == |ids - todo|
        invariant forall o :: o in found <==> exists id :: id in ids - todo && id in objects && o == objects[id]
        decreases todo
      {
        var id := Pick(todo);
        if id !in objects {
          assert id !in Configs() && id in IndexOf(configIndex, c);
          return Err(KeyError(id));
        }
        found := found + [objects[id]];
        assert ids - (todo - {id}) == (ids - todo) + {id};
        todo := todo - {id};
      }
      r := Ok(found);
    }

    /** `get_snapshot_update`: snapshots of exactly the objects changed at or
      * after `changedSince`; an object that never changed has no
      * `last_change`, and comparing `None` with a tick raises `TypeError`. */
    method GetSnapshotUpdate(changedSince: int) returns (r: Result<seq<ObjectSnapshot>>)
      ensures r.Err? <==> exists id :: id in objects && objects[id].lastChange.None?
      ensures r.Err? ==> r.error.TypeError?
      ensures r.Ok? ==> forall s :: s in r.value <==>
                exists id :: id in objects && objects[id].lastChange.value >= changedSince && s == objects[id].Snapshot()
      ensures r.Ok? ==> |r.value| == |set id | id in objects && objects[id].lastChange.value >= changedSince|
    {
      var todo := objects.Keys;
      ghost var kept: set<Id> := {};
      var list: seq<ObjectSnapshot> := [];
      while todo != {}
        invariant todo <= objects.Keys
        invariant forall id :: id in objects.Keys - todo ==> objects[id].lastChange.Some?
        invariant kept == set id | id in objects.Keys - todo && objects[id].lastChange.value >= changedSince
        invariant forall s :: s in list <==> exists id :: id in kept && s == objects[id].Snapshot()
        invariant |list| == |kept|
        decreases todo
      {
        var id := Pick(todo);
        var obj := objects[id];
        if obj.lastChange.None? {
          return Err(TypeError("'>=' not supported between NoneType and int"));
        }
        assert id !in kept;
        if obj.lastChange.value >= changedSince {
          list := list + [obj.Snapshot()];
          kept := kept + {id};
        }
        todo := todo - {id};
      }
      assert kept == set id | id in objects && objects[id].lastChange.value >= changedSince;
      r := Ok(list);
    }

    /** `get_snapshot_full`: one snapshot per object in the table. */
    method GetSnapshotFull() returns (list: seq<ObjectSnapshot>)
      ensures forall s :: s in list <==> exists id :: id in objects && s == objects[id].Snapshot()
      ensures |list| == |objects.Keys|
    {
      var todo := objects.Keys;
      list := [];
      while todo != {}
        invariant todo <= objects.Keys
        invariant forall s :: s in list <==> exists id :: id in objects.Keys - todo && s == objects[id].Snapshot()
        invariant |list| == |objects.Keys - todo|
        decreases todo
      {
        var id := Pick(todo);
        list := list + [objects[id].Snapshot()];
        assert objects.Keys - (todo - {id}) == (objects.Keys - todo) + {id};
        todo := todo - {id};
      }
    }
  }
}
