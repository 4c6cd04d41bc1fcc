/** The game-object rules of `simpleland/contentbundles/survival_objects.py`:
  * the type tree, the trigger wrapper that lets controllers veto an
  * object's actions, collisions and damage, the ten-slot inventory, the
  * craft menu and the stat upkeep of animate objects. */
module SurvivalObjects {
  import opened Base
  import StateDicts
  import SurvivalCommon
  import Players

  // ---------------------------------------------------------------- types

  /** `type_tree`: each type's parent; `physical_object` (parent `None`)
    * and `animate` (not listed) have none. */
  const TypeTree: map<string, string> :=
    map["plant" := "physical_object", "tree" := "plant", "bush" := "plant",
        "animal" := "animate", "monster" := "animal", "human" := "animal",
        "deer" := "animal", "rock" := "physical_object"]

  /** How many parent steps lie above a type. */
  function Height(t: string): nat
  {
    if t in {"tree", "bush", "monster", "human", "deer"} then 2
    else if t in {"plant", "animal", "rock"} then 1
    else 0
  }

  /** The tree has no cycle: a parent sits lower than its child. */
  lemma ParentLower(t: string)
    requires t in TypeTree
    ensures Height(TypeTree[t]) < Height(t)
  {
  }

  /** A type and all its ancestors. */
  function Lineage(t: string): (r: set<string>)
    ensures t in r
    ensures forall u :: u in r && u in TypeTree ==> TypeTree[u] in r
    decreases Height(t)
  {
    if t in TypeTree then
      ParentLower(t);
      {t} + Lineage(TypeTree[t])
    else {t}
  }

  /** `get_types`: starting from `curType`, every type up the tree, until
    * one has no parent. */
  method GetTypes(curType: string) returns (allTypes: set<string>)
    ensures allTypes == Lineage(curType)
  {
    allTypes := {};
    var cur := curType;
    while true
      invariant allTypes + Lineage(cur) == Lineage(curType)
      decreases Height(cur)
    {
      allTypes := allTypes + {cur};
      if cur !in TypeTree {
        break;
      }
      ParentLower(cur);
      cur := TypeTree[cur];
    }
  }

  /** The types of a human and of a tree, as the tree lists them; a type
    * that is not in the tree is its own only type. */
  lemma LineageExamples()
    ensures Lineage("human") == {"human", "animal", "animate"}
    ensures Lineage("tree") == {"tree", "plant", "physical_object"}
    ensures Lineage("liquid") == {"liquid"}
  {
  }

  // ------------------------------------------------------------- triggers

  /** A registered trigger: its id and the callback it runs, by name. */
  type Trigger = (string, string)

  /** How a wrapped action call went: the action is disabled (nothing ran),
    * a trigger vetoed it (all triggers `ran`, in order), or it may proceed. */
  datatype Gate = Disabled | Vetoed(ran: seq<Trigger>) | Allowed(ran: seq<Trigger>)

  /** Some trigger among `ts` answers falsy. */
  predicate SomeVeto(ts: seq<Trigger>, verdict: Trigger -> bool)
  {
    exists k :: 0 <= k < |ts| && !verdict(ts[k])
  }

  /** The part of a survival object that the rules below read and change. */
  /** The configuration keys the constructor reads (`config.get(key,
    * default)`); an absent key is `None`. */
  datatype ObjectConfig = ObjectConfig(healthMax: Option<int>, healthStart: Option<int>, permanent: Option<bool>,
                                       collisionType: Option<int>, collectable: Option<bool>)

  /** `config.get(key, default)`. */
  function Setting<T>(value: Option<T>, default: T): (r: T)
    ensures value.Some? ==> r == value.value
    ensures value.None? ==> r == default
  {
    if value.Some? then value.value else default
  }

  class PhysicalObject {
    const id: Id
    var configId: string
    /** `_l_triggers`: per action name, the triggers by id in insertion
      * order. */
    var triggers: map<string, StateDicts.Dict<string>>
    var disabledActions: set<string>
    var health: int
    var healthMax: int
    var permanent: bool
    var collisionType: int
    var collectable: bool
    /** The object's tags, which the game modes use to mark their players. */
    var tags: set<string>
    var action: SurvivalCommon.Action?
    /** `_action_queue`: actions waiting to follow the current one. */
    var actionQueue: seq<SurvivalCommon.Action>

    /** Every trigger list has distinct ids, as a dict does. */
    ghost predicate Valid()
      reads this`triggers
    {
      forall fn :: fn in triggers ==> StateDicts.UniqueKeys(triggers[fn])
    }

    /** A fresh object read from its configuration: health 100 and its
      * maximum 100, not permanent, collision type 1 and not collectable
      * unless configured otherwise; the configured tags and disabled
      * actions; no triggers; and `default_action()`, a continuous,
      * non-blocking idle action of three step durations starting at the
      * current tick `now`. */
    constructor (id: Id, configId: string, config: ObjectConfig, disabledActions: set<string>, tags: set<string>,
                 stepDuration: int, now: int)
      ensures Valid()
      ensures this.id == id && this.configId == configId && this.disabledActions == disabledActions && this.tags == tags
      ensures healthMax == (if config.healthMax.Some? then config.healthMax.value else 100)
      ensures health == (if config.healthStart.Some? then config.healthStart.value else 100)
      ensures permanent == (config.permanent.Some? && config.permanent.value)
      ensures collisionType == (if config.collisionType.Some? then config.collisionType.value else 1)
      ensures collectable == (config.collectable.Some? && config.collectable.value)
      ensures triggers == map[] && actionQueue == []
      ensures fresh(action) && action.kind == "idle" && action.ticks == 3 * stepDuration && action.startTick == now
      ensures !action.blocking && action.continuous && action.startPosition.None? && !action.expired
    {
      this.tags := tags;
      this.id := id;
      this.configId := configId;
      triggers := map[];
      this.disabledActions := disabledActions;
      healthMax := Setting(config.healthMax, 100);
      health := Setting(config.healthStart, 100);
      permanent := Setting(config.permanent, false);
      collisionType := Setting(config.collisionType, 1);
      collectable := Setting(config.collectable, false);
      actionQueue := [];
      new;
      DefaultAction(stepDuration, now);
    }

    /** `default_action()`: a continuous, non-blocking idle action lasting
      * three step durations, started at the current tick. */
    method DefaultAction(stepDuration: int, now: int)
      modifies this`action
      ensures fresh(action) && action.kind == "idle" && action.ticks == 3 * stepDuration && action.startTick == now
      ensures !action.blocking && action.continuous && action.startPosition.None? && !action.expired
    {
      action := new SurvivalCommon.Action("idle", 3 * stepDuration, Some(now), false, true, None, now);
    }

    /** `add_tag`. */
    method AddTag(tag: string)
      modifies this`tags
      ensures tags == old(tags) + {tag}
    {
      tags := tags + {tag};
    }

    /** `remove_tag`: removing an absent tag is no error. */
    method RemoveTag(tag: string)
      modifies this`tags
      ensures tags == old(tags) - {tag}
    {
      tags := tags - {tag};
    }

    /** The triggers registered for `fnName`, in order. */
    function TriggersOf(fnName: string): seq<Trigger>
      reads this`triggers
    {
      if fnName in triggers then triggers[fnName] else []
    }

    /** `add_trigger`: registers `func` under `id` for `fnName`; an id
      * already there keeps its place and takes the new callback. */
    method AddTrigger(fnName: string, id: string, func: string)
      requires Valid()
      modifies this`triggers
      ensures Valid()
      ensures triggers == old(triggers)[fnName := StateDicts.Put(old(TriggersOf(fnName)), id, func)]
    {
      var fnTriggers := TriggersOf(fnName);
      StateDicts.PutUnique(fnTriggers, id, func);
      triggers := triggers[fnName := StateDicts.Put(fnTriggers, id, func)];
    }

    /** `remove_trigger`: `del self._l_triggers.get(fn_name)[id]` raises
      * when `fnName` has no triggers or `id` is not among them. */
    method RemoveTrigger(fnName: string, id: string) returns (err: Option<Error>)
      requires Valid()
      modifies this`triggers
      ensures Valid()
      ensures fnName !in old(triggers) ==> err == Some(TypeError("'NoneType' object does not support item deletion"))
      ensures fnName in old(triggers) && !StateDicts.HasKey(old(triggers)[fnName], id) ==> err.Some? && err.value.MissingKey?
      ensures err.Some? ==> triggers == old(triggers)
      ensures err.None? <==> fnName in old(triggers) && StateDicts.HasKey(old(triggers)[fnName], id)
      ensures err.None? ==> triggers.Keys == old(triggers).Keys && triggers[fnName] == Without(old(triggers)[fnName], id)
      ensures err.None? ==> forall fn :: fn in triggers && fn != fnName ==> triggers[fn] == old(triggers)[fn]
    {
      if fnName !in triggers {
        return Some(TypeError("'NoneType' object does not support item deletion"));
      }
      if !StateDicts.HasKey(triggers[fnName], id) {
        return Some(MissingKey(id));
      }
      WithoutUnique(triggers[fnName], id);
      triggers := triggers[fnName := Without(triggers[fnName], id)];
      err := None;
    }

    /** `_invoke_triggers`: every trigger registered for `fnName` runs, in
      * order, even after one has vetoed; the call is cancelled when any
      * of them answered falsy. `verdict` stands for what each callback
      * returns. */
    method InvokeTriggers(fnName: string, verdict: Trigger -> bool) returns (cancel: bool, ran: seq<Trigger>)
      ensures ran == TriggersOf(fnName)
      ensures cancel <==> SomeVeto(ran, verdict)
    {
      cancel := false;
      ran := [];
      var ts := TriggersOf(fnName);
      var i := 0;
      while i < |ts|
        invariant 0 <= i <= |ts| && ran == ts[..i]
        invariant cancel <==> SomeVeto(ran, verdict)
      {
        if !verdict(ts[i]) {
          cancel := true;
        }
        ran := ran + [ts[i]];
        i := i + 1;
      }
      assert ts[..i] == ts;
    }

    /** The `invoke_triggers` wrapper in front of an action: a disabled
      * action is refused before any trigger runs; otherwise all its
      * triggers run and any falsy answer refuses it. */
    method Gate(fnName: string, verdict: Trigger -> bool) returns (g: Gate)
      ensures g.Disabled? <==> fnName in disabledActions
      ensures !g.Disabled? ==> g.ran == TriggersOf(fnName) && (g.Vetoed? <==> SomeVeto(g.ran, verdict))
    {
      if fnName in disabledActions {
        return Disabled;
      }
      var cancel, ran := InvokeTriggers(fnName, verdict);
      g := if cancel then Vetoed(ran) else Allowed(ran);
    }

    /** `collision_with` (wrapped): two objects of the same positive
      * collision type collide, and this one then performs a blocking idle
      * action lasting one step; the result says whether they collided,
      * and a refused call answers false. */
    method CollisionWith(other: PhysicalObject, verdict: Trigger -> bool, stepDuration: int, now: int)
      returns (collided: bool, g: Gate)
      modifies this`action
      ensures g.Disabled? <==> "collision_with" in disabledActions
      ensures !g.Disabled? ==> g.ran == TriggersOf("collision_with") && (g.Vetoed? <==> SomeVeto(g.ran, verdict))
      ensures collided <==> g.Allowed? && collisionType > 0 && collisionType == other.collisionType
      ensures !collided ==> action == old(action)
      ensures collided ==> fresh(action) && action.kind == "idle" && action.ticks == stepDuration
      ensures collided ==> action.blocking && !action.continuous && action.startTick == now && !action.expired
    {
      g := Gate("collision_with", verdict);
      if !g.Allowed? {
        return false, g;
      }
      if collisionType > 0 && collisionType == other.collisionType {
        action := new SurvivalCommon.Action("idle", stepDuration, Some(now), true, false, None, now);
        collided := true;
      } else {
        collided := false;
      }
    }

    /** `receive_damage` (wrapped): unless refused, a permanent object is
      * unharmed and any other loses `damage` health. */
    method ReceiveDamage(attacker: Id, damage: int, verdict: Trigger -> bool) returns (g: Gate)
      modifies this`health
      ensures g.Disabled? <==> "receive_damage" in disabledActions
      ensures !g.Disabled? ==> g.ran == TriggersOf("receive_damage") && (g.Vetoed? <==> SomeVeto(g.ran, verdict))
      ensures health == if g.Allowed? && !permanent then old(health) - damage else old(health)
    {
      g := Gate("receive_damage", verdict);
      if g.Allowed? && !permanent {
        health := health - damage;
      }
    }
  }

  /** A dict with the entry for `k` deleted; the others keep their order. */
  function Without<V>(d: StateDicts.Dict<V>, k: string): (r: StateDicts.Dict<V>)
    ensures |r| <= |d|
    ensures forall i :: 0 <= i < |r| ==> r[i] in d && r[i].0 != k
    ensures forall i :: 0 <= i < |d| && d[i].0 != k ==> d[i] in r
  {
    if d == [] then []
    else if d[0].0 == k then Without(d[1..], k)
    else [d[0]] + Without(d[1..], k)
  }

  lemma {:induction false} WithoutUnique<V>(d: StateDicts.Dict<V>, k: string)
    requires StateDicts.UniqueKeys(d)
    ensures StateDicts.UniqueKeys(Without(d, k))
    ensures !StateDicts.HasKey(Without(d, k), k)
    decreases |d|
  {
    if d != [] {
      WithoutUnique(d[1..], k);
      var rest := Without(d[1..], k);
      if d[0].0 != k {
        var r := [d[0]] + rest;
        forall i, j | 0 <= i < j < |r| ensures r[i].0 != r[j].0 {
          if i == 0 {
            assert r[j] in d[1..];
            var m :| 0 <= m < |d[1..]| && d[1..][m] == r[j];
            assert d[m + 1] == r[j];
          }
        }
      }
    }
  }

  // ------------------------------------------------------------ inventory

  /** The counters of an object that inventories read: its config id, its
    * stack count and the most one stack may hold. */
  datatype Item = Item(configId: string, count: int, countMax: int)

  /** The counters of the objects in the game's table, by id. */
  type Stock = map<Id, Item>

  /** What an inventory operation asks of the game besides its own slots:
    * enqueue the removal of an object, disable an object, or spawn (and
    * disable) a fresh object of a config. */
  datatype WorldOp = RemoveObject(id: Id) | Disable(id: Id) | SpawnUnit(configId: string) | Spawn(id: Id, configId: string)

  /** The number of inventory slots; slot 0 is reserved for the owner. */
  const Slots: nat := 10

  /** The slots, the selected slot and the counters of the game's objects,
    * with the requests made of the game so far. */
  datatype InvState = InvState(items: seq<Option<Id>>, selected: int, stock: Stock, ops: seq<WorldOp>)

  /** A slot holds an object of config `cfg` that is still in the game. */
  predicate Holds(slot: Option<Id>, stock: Stock, cfg: string)
  {
    slot.Some? && slot.value in stock && stock[slot.value].configId == cfg
  }

  /** A slot holds a stack of `cfg` with room for one more. */
  predicate Stackable(slot: Option<Id>, stock: Stock, cfg: string)
  {
    Holds(slot, stock, cfg) && stock[slot.value].count < stock[slot.value].countMax
  }

  /** The first slot from `from` on holding a stack of `cfg` with room. */
  function FirstStack(items: seq<Option<Id>>, stock: Stock, cfg: string, from: nat): (r: Option<nat>)
    requires from <= |items|
    ensures r.Some? ==> from <= r.value < |items| && Stackable(items[r.value], stock, cfg)
    ensures r.Some? ==> forall j :: from <= j < r.value ==> !Stackable(items[j], stock, cfg)
    ensures r.None? ==> forall j :: from <= j < |items| ==> !Stackable(items[j], stock, cfg)
    decreases |items| - from
  {
    if from == |items| then None
    else if Stackable(items[from], stock, cfg) then Some(from)
    else FirstStack(items, stock, cfg, from + 1)
  }

  /** The first empty slot from `from` on, never slot 0. */
  function FirstFree(items: seq<Option<Id>>, from: nat): (r: Option<nat>)
    requires from <= |items|
    ensures r.Some? ==> from <= r.value < |items| && r.value != 0 && items[r.value].None?
    ensures r.Some? ==> forall j :: from <= j < r.value && j != 0 ==> items[j].Some?
    ensures r.None? ==> forall j :: from <= j < |items| && j != 0 ==> items[j].Some?
    decreases |items| - from
  {
    if from == |items| then None
    else if from != 0 && items[from].None? then Some(from)
    else FirstFree(items, from + 1)
  }

  /** `Inventory.add` on values: an object whose config stacks joins the
    * first stack of its config with room (one more unit; the object itself
    * is removed from the game); otherwise it takes the first empty slot
    * after slot 0 and is disabled; with neither, nothing happens and the
    * answer is false. */
  function AddSpec(st: InvState, objId: Id, obj: Item, selectOnAdd: bool): (r: (bool, InvState))
    requires |st.items| == Slots
  {
    var s := if obj.countMax > 1 then FirstStack(st.items, st.stock, obj.configId, 0) else None;
    var f := FirstFree(st.items, 0);
    if s.Some? then
      var id := st.items[s.value].value;
      (true, st.(stock := st.stock[id := st.stock[id].(count := st.stock[id].count + 1)],
                 selected := if selectOnAdd then s.value else st.selected,
                 ops := st.ops + [RemoveObject(objId)]))
    else if f.Some? then
      (true, st.(items := st.items[f.value := Some(objId)],
                 selected := if selectOnAdd then f.value else st.selected,
                 ops := st.ops + [Disable(objId)]))
    else (false, st)
  }

  /** Adding never touches slot 0, keeps ten slots and the selection in
    * range, and never pushes a stack past its maximum. */
  lemma AddKeepsShape(st: InvState, objId: Id, obj: Item, selectOnAdd: bool)
    requires |st.items| == Slots && 0 <= st.selected < Slots
    requires forall id :: id in st.stock ==> st.stock[id].count <= st.stock[id].countMax
    ensures var r := AddSpec(st, objId, obj, selectOnAdd).1;
            |r.items| == Slots && r.items[0] == st.items[0] && 0 <= r.selected < Slots
            && r.stock.Keys == st.stock.Keys
            && forall id :: id in r.stock ==> r.stock[id].count <= r.stock[id].countMax
  {
  }

  /** Adding fails exactly when no stack has room and slots 1 to 9 are all
    * taken. */
  lemma AddFailsWhenFull(st: InvState, objId: Id, obj: Item, selectOnAdd: bool)
    requires |st.items| == Slots
    ensures !AddSpec(st, objId, obj, selectOnAdd).0 <==>
              (obj.countMax <= 1 || forall j :: 0 <= j < Slots ==> !Stackable(st.items[j], st.stock, obj.configId))
              && forall j :: 0 < j < Slots ==> st.items[j].Some?
  {
    if obj.countMax > 1 && FirstStack(st.items, st.stock, obj.configId, 0).None? {
      assert forall j :: 0 <= j < Slots ==> !Stackable(st.items[j], st.stock, obj.configId);
    }
  }

  /** What `remove_by_slot` hands back: nothing, a fresh one-unit object
    * split off a stack, or the slot's object (`None` when its id no longer
    * names an object in the game). */
  datatype Taken = NoItem | NewUnit(configId: string) | Whole(obj: Option<Id>)

  /** `Inventory.remove_by_slot` on values: slot 0 and empty slots give
    * nothing; a stack of more than one gives up one unit as a fresh object
    * unless `removeAll`; otherwise the slot is emptied and its object
    * handed back. */
  function TakeSpec(st: InvState, slot: nat, removeAll: bool): (r: (Taken, InvState))
    requires slot < |st.items|
  {
    if slot == 0 || st.items[slot].None? then (NoItem, st)
    else
      var id := st.items[slot].value;
      if id in st.stock && !removeAll && st.stock[id].count > 1 then
        (NewUnit(st.stock[id].configId),
         st.(stock := st.stock[id := st.stock[id].(count := st.stock[id].count - 1)],
             ops := st.ops + [SpawnUnit(st.stock[id].configId)]))
      else
        (Whole(if id in st.stock then Some(id) else None), st.(items := st.items[slot := None]))
  }

  /** Removing never touches slot 0 or any slot but `slot`, and keeps the
    * game's object ids. */
  lemma TakeKeepsOthers(st: InvState, slot: nat, removeAll: bool)
    requires slot < |st.items|
    ensures var r := TakeSpec(st, slot, removeAll).1;
            |r.items| == |st.items| && r.items[0] == st.items[0] && r.stock.Keys == st.stock.Keys
            && forall j :: 0 <= j < |st.items| && j != slot ==> r.items[j] == st.items[j]
  {
  }

  /** The slots holding objects of config `cfg` among the first `n`, in
    * slot order, with their ids (`Inventory.find`). */
  function Found(items: seq<Option<Id>>, stock: Stock, cfg: string, n: nat): (r: seq<(nat, Id)>)
    requires n <= |items|
    ensures |r| <= n && forall k :: 0 <= k < |r| ==> r[k].0 < n
  {
    if n == 0 then []
    else if Holds(items[n - 1], stock, cfg) then Found(items, stock, cfg, n - 1) + [(n - 1, items[n - 1].value)]
    else Found(items, stock, cfg, n - 1)
  }

  /** Every entry of `find` is a slot holding `cfg`, with the id it holds,
    * and the slots come in increasing order. */
  lemma {:induction false} FoundSound(items: seq<Option<Id>>, stock: Stock, cfg: string, n: nat)
    requires n <= |items|
    ensures forall k :: 0 <= k < |Found(items, stock, cfg, n)| ==>
              var e := Found(items, stock, cfg, n)[k]; items[e.0] == Some(e.1) && Holds(items[e.0], stock, cfg)
    ensures forall k, l :: 0 <= k < l < |Found(items, stock, cfg, n)| ==> Found(items, stock, cfg, n)[k].0 < Found(items, stock, cfg, n)[l].0
  {
    if n > 0 {
      FoundSound(items, stock, cfg, n - 1);
      var f := Found(items, stock, cfg, n - 1);
      if Holds(items[n - 1], stock, cfg) {
        var e: (nat, Id) := (n - 1, items[n - 1].value);
        assert Found(items, stock, cfg, n) == f + [e];
        forall k | 0 <= k < |f| + 1 ensures (f + [e])[k] == if k < |f| then f[k] else e {
        }
      } else {
        assert Found(items, stock, cfg, n) == f;
      }
    }
  }

  /** Every slot holding `cfg` appears in `find`. */
  lemma {:induction false} FoundComplete(items: seq<Option<Id>>, stock: Stock, cfg: string, n: nat, j: nat)
    requires j < n <= |items| && Holds(items[j], stock, cfg)
    ensures exists k :: 0 <= k < |Found(items, stock, cfg, n)| && Found(items, stock, cfg, n)[k].0 == j
  {
    var f := Found(items, stock, cfg, n - 1);
    if j == n - 1 {
      var e: (nat, Id) := (n - 1, items[n - 1].value);
      assert Found(items, stock, cfg, n) == f + [e];
      assert (f + [e])[|f|] == e;
    } else {
      FoundComplete(items, stock, cfg, n - 1, j);
      var k :| 0 <= k < |f| && f[k].0 == j;
      if Holds(items[n - 1], stock, cfg) {
        var e: (nat, Id) := (n - 1, items[n - 1].value);
        assert Found(items, stock, cfg, n) == f + [e];
        assert (f + [e])[k] == f[k];
      } else {
        assert Found(items, stock, cfg, n) == f;
      }
      assert 0 <= k < |Found(items, stock, cfg, n)| && Found(items, stock, cfg, n)[k].0 == j;
    }
  }

  /** The units held in one slot, counted for config `cfg`. */
  function Units(slot: Option<Id>, stock: Stock, cfg: string): int
  {
    if Holds(slot, stock, cfg) then stock[slot.value].count else 0
  }

  /** The units of config `cfg` over all the slots. */
  function Total(items: seq<Option<Id>>, stock: Stock, cfg: string): int
  {
    if items == [] then 0 else Total(items[..|items| - 1], stock, cfg) + Units(items[|items| - 1], stock, cfg)
  }

  /** The summed counts of found objects (`sum([o.count for _, o in objs])`). */
  function SumCounts(found: seq<(nat, Id)>, stock: Stock): int
  {
    if found == [] then 0
    else (if found[0].1 in stock then stock[found[0].1].count else 0) + SumCounts(found[1..], stock)
  }

  lemma {:induction false} SumCountsSnoc(found: seq<(nat, Id)>, e: (nat, Id), stock: Stock)
    ensures SumCounts(found + [e], stock) == SumCounts(found, stock) + (if e.1 in stock then stock[e.1].count else 0)
    decreases |found|
  {
    if found != [] {
      assert (found + [e])[1..] == found[1..] + [e];
      SumCountsSnoc(found[1..], e, stock);
    }
  }

  /** `find` sees every unit: the found counts add up to the total. */
  lemma {:induction false} FoundTotal(items: seq<Option<Id>>, stock: Stock, cfg: string, n: nat)
    requires n <= |items|
    ensures SumCounts(Found(items, stock, cfg, n), stock) == Total(items[..n], stock, cfg)
  {
    if n > 0 {
      FoundTotal(items, stock, cfg, n - 1);
      assert items[..n][..n - 1] == items[..n - 1];
      if Holds(items[n - 1], stock, cfg) {
        SumCountsSnoc(Found(items, stock, cfg, n - 1), (n - 1, items[n - 1].value), stock);
      }
    }
  }

  /** No object sits in two slots. */
  predicate DistinctIds(items: seq<Option<Id>>)
  {
    forall i, j :: 0 <= i < j < |items| && items[i].Some? ==> items[i] != items[j]
  }

  /** The ten slots. */
  class Inventory {
    var items: seq<Option<Id>>
    var selectedSlot: int
    var ownerObjId: Option<Id>

    /** Ten slots and a selection among them. */
    ghost predicate Valid()
      reads this
    {
      |items| == Slots && 0 <= selectedSlot < Slots && items[0].None?
    }

    /** The state of the slots, for the value-level rules above. */
    function State(stock: Stock, ops: seq<WorldOp>): InvState
      reads this
    {
      InvState(items, selectedSlot, stock, ops)
    }

    /** A new inventory: ten empty slots, slot 0 selected, no owner. */
    constructor ()
      ensures Valid() && items == seq(Slots, _ => None) && selectedSlot == 0 && ownerObjId == None
    {
      items := seq(Slots, _ => None);
      selectedSlot := 0;
      ownerObjId := None;
    }

    method SetOwnerObjId(objId: Id)
      modifies this`ownerObjId
      ensures ownerObjId == Some(objId)
    {
      ownerObjId := Some(objId);
    }

    /** `select_item`: the selection moves one slot back or forward,
      * wrapping around at both ends. */
    method SelectItem(prev: bool)
      requires Valid()
      modifies this`selectedSlot
      ensures Valid()
      ensures selectedSlot == (old(selectedSlot) + (if prev then -1 else 1)) % Slots
    {
      if prev {
        if selectedSlot == 0 {
          selectedSlot := Slots - 1;
        } else {
          selectedSlot := selectedSlot - 1;
        }
      } else {
        if selectedSlot == Slots + 1 {
          // The source compares with `slots + 1`, which a selection in
          // range never equals; the modulo below does the wrapping.
          assert false;
        } else {
          selectedSlot := selectedSlot + 1;
          selectedSlot := selectedSlot % Slots;
        }
      }
    }

    /** `add`: see `AddSpec`. */
    method Add(stock: Stock, ops: seq<WorldOp>, objId: Id, obj: Item, selectOnAdd: bool) returns (added: bool, stock': Stock, ops': seq<WorldOp>)
      requires Valid()
      modifies this`items, this`selectedSlot
      ensures Valid()
      ensures (added, State(stock', ops')) == AddSpec(old(State(stock, ops)), objId, obj, selectOnAdd)
    {
      stock', ops' := stock, ops;
      if obj.countMax > 1 {
        var i := 0;
        while i < |items|
          invariant 0 <= i <= |items| && items == old(items) && selectedSlot == old(selectedSlot)
          invariant FirstStack(items, stock, obj.configId, 0) == FirstStack(items, stock, obj.configId, i)
        {
          if items[i].Some? {
            var invId := items[i].value;
            if invId in stock && stock[invId].configId == obj.configId && stock[invId].count < stock[invId].countMax {
              assert FirstStack(old(items), stock, obj.configId, 0) == Some(i);
              stock' := stock[invId := stock[invId].(count := stock[invId].count + 1)];
              ops' := ops + [RemoveObject(objId)];
              if selectOnAdd {
                selectedSlot := i;
              }
              return true, stock', ops';
            }
          }
          i := i + 1;
        }
        assert FirstStack(items, stock, obj.configId, 0) == None;
      }
      var i := 0;
      while i < |items|
        invariant 0 <= i <= |items| && items == old(items) && selectedSlot == old(selectedSlot)
        invariant FirstFree(items, 0) == FirstFree(items, i)
      {
        if i != 0 && items[i].None? {
          assert FirstFree(old(items), 0) == Some(i);
          items := items[i := Some(objId)];
          if selectOnAdd {
            selectedSlot := i;
          }
          return true, stock', ops + [Disable(objId)];
        }
        i := i + 1;
      }
      added := false;
    }

    /** `find`: the slots holding objects of `cfg`, in slot order. */
    method Find(stock: Stock, cfg: string) returns (found: seq<(nat, Id)>)
      ensures found == Found(items, stock, cfg, |items|)
    {
      found := [];
      var i := 0;
      while i < |items|
        invariant 0 <= i <= |items| && found == Found(items, stock, cfg, i)
      {
        if items[i].Some? && items[i].value in stock && stock[items[i].value].configId == cfg {
          found := found + [(i, items[i].value)];
        }
        i := i + 1;
      }
    }

    /** `remove_by_slot`: see `TakeSpec`. */
    method RemoveBySlot(stock: Stock, ops: seq<WorldOp>, slot: nat, removeAll: bool) returns (taken: Taken, stock': Stock, ops': seq<WorldOp>)
      requires Valid() && slot < Slots
      modifies this`items
      ensures Valid()
      ensures (taken, State(stock', ops')) == TakeSpec(old(State(stock, ops)), slot, removeAll)
    {
      stock', ops' := stock, ops;
      if slot == 0 {
        return NoItem, stock', ops';
      }
      var objId := items[slot];
      if objId.None? {
        return NoItem, stock', ops';
      }
      var id := objId.value;
      if id in stock && !removeAll && stock[id].count > 1 {
        stock' := stock[id := stock[id].(count := stock[id].count - 1)];
        return NewUnit(stock[id].configId), stock', ops + [SpawnUnit(stock[id].configId)];
      }
      items := items[slot := None];
      taken := Whole(if id in stock then Some(id) else None);
    }

    /** `remove_selected`: `remove_by_slot` on the selected slot. */
    method RemoveSelected(stock: Stock, ops: seq<WorldOp>, removeAll: bool) returns (taken: Taken, stock': Stock, ops': seq<WorldOp>)
      requires Valid()
      modifies this`items
      ensures Valid()
      ensures (taken, State(stock', ops')) == TakeSpec(old(State(stock, ops)), old(selectedSlot), removeAll)
    {
      taken, stock', ops' := RemoveBySlot(stock, ops, selectedSlot, removeAll);
    }
  }

  // ------------------------------------------------------------ crafting

  /** A craft's consumption of one requirement: the inventory so far and
    * the units still to take. */
  datatype Consumption = Consumption(inv: InvState, count: int)

  /** The count of a found object, as the loop reads it. */
  function CountOf(stock: Stock, id: Id): int
  {
    if id in stock then stock[id].count else 0
  }

  /** One found stack as `craft_selected` consumes it AS WRITTEN: a stack
    * no larger than what is still needed goes through
    * `remove_by_slot(i)` (without `remove_all`) and its object is removed
    * from the game; a larger stack gives up what is needed, but the
    * amount still needed is left as it was. */
  function StepAsWritten(c: Consumption, entry: (nat, Id)): (r: Consumption)
    requires entry.0 < |c.inv.items|
    ensures |r.inv.items| == |c.inv.items| && r.inv.stock.Keys == c.inv.stock.Keys
  {
    var have := CountOf(c.inv.stock, entry.1);
    var remainder := c.count - have;
    if remainder >= 0 then
      var t := TakeSpec(c.inv, entry.0, false).1;
      Consumption(t.(ops := t.ops + [RemoveObject(entry.1)]), remainder)
    else if entry.1 in c.inv.stock then
      Consumption(c.inv.(stock := c.inv.stock[entry.1 := c.inv.stock[entry.1].(count := have - c.count)]), c.count)
    else c
  }

  /** The consumption loop over the found stacks, stopping once nothing
    * more is needed. */
  function FoldAsWritten(found: seq<(nat, Id)>, c: Consumption): (r: Consumption)
    requires forall k :: 0 <= k < |found| ==> found[k].0 < |c.inv.items|
    ensures |r.inv.items| == |c.inv.items| && r.inv.stock.Keys == c.inv.stock.Keys
  {
    if found == [] then c
    else
      var c' := StepAsWritten(c, found[0]);
      if c'.count == 0 then c' else FoldAsWritten(found[1..], c')
  }

  /** The same step as evidently intended: a stack no larger than what is
    * still needed is taken whole (`remove_all`), and a larger one gives up
    * exactly what is needed, after which nothing more is. */
  function StepFixed(c: Consumption, entry: (nat, Id)): (r: Consumption)
    requires entry.0 < |c.inv.items|
    ensures |r.inv.items| == |c.inv.items| && r.inv.stock.Keys == c.inv.stock.Keys && r.inv.selected == c.inv.selected
  {
    var have := CountOf(c.inv.stock, entry.1);
    var remainder := c.count - have;
    if remainder >= 0 then
      var t := TakeSpec(c.inv, entry.0, true).1;
      Consumption(t.(ops := t.ops + [RemoveObject(entry.1)]), remainder)
    else if entry.1 in c.inv.stock then
      Consumption(c.inv.(stock := c.inv.stock[entry.1 := c.inv.stock[entry.1].(count := have - c.count)]), 0)
    else c
  }

  function FoldFixed(found: seq<(nat, Id)>, c: Consumption): (r: Consumption)
    requires forall k :: 0 <= k < |found| ==> found[k].0 < |c.inv.items|
    ensures |r.inv.items| == |c.inv.items| && r.inv.stock.Keys == c.inv.stock.Keys && r.inv.selected == c.inv.selected
  {
    if found == [] then c
    else
      var c' := StepFixed(c, found[0]);
      if c'.count == 0 then c' else FoldFixed(found[1..], c')
  }

  /** Two inventories that differ only at slot `s` differ in total by
    * what that slot holds. */
  lemma {:induction false} TotalAtSlot(items: seq<Option<Id>>, stock: Stock, items': seq<Option<Id>>, stock': Stock, g: string, s: nat)
    requires |items'| == |items| && s < |items|
    requires forall j :: 0 <= j < |items| && j != s ==> Units(items'[j], stock', g) == Units(items[j], stock, g)
    ensures Total(items', stock', g) - Total(items, stock, g) == Units(items'[s], stock', g) - Units(items[s], stock, g)
    decreases |items|
  {
    var n := |items| - 1;
    if n == s {
      TotalSame(items[..n], stock, items'[..n], stock', g);
    } else {
      TotalAtSlot(items[..n], stock, items'[..n], stock', g, s);
    }
  }

  lemma {:induction false} TotalSame(items: seq<Option<Id>>, stock: Stock, items': seq<Option<Id>>, stock': Stock, g: string)
    requires |items'| == |items|
    requires forall j :: 0 <= j < |items| ==> Units(items'[j], stock', g) == Units(items[j], stock, g)
    ensures Total(items', stock', g) == Total(items, stock, g)
    decreases |items|
  {
    if items != [] {
      TotalSame(items[..|items| - 1], stock, items'[..|items| - 1], stock', g);
    }
  }

  /** The shape an inventory keeps: ten slots, slot 0 empty, no object in
    * two slots. */
  ghost predicate Shape(st: InvState)
  {
    |st.items| == Slots && st.items[0].None? && DistinctIds(st.items)
  }

  /** What a correct consumption of one requirement needs: an inventory
    * of the right shape, and found stacks of `cfg` in increasing slots
    * whose objects are in the game. */
  ghost predicate ConsumableFrom(c: Consumption, found: seq<(nat, Id)>, cfg: string)
  {
    && Shape(c.inv)
    && (forall k :: 0 <= k < |found| ==> found[k].0 < Slots && c.inv.items[found[k].0] == Some(found[k].1) && Holds(c.inv.items[found[k].0], c.inv.stock, cfg))
    && (forall k, l :: 0 <= k < l < |found| ==> found[k].0 < found[l].0)
  }

  /** Counts at ids outside `found` do not enter its sum. */
  lemma {:induction false} SumCountsFrame(found: seq<(nat, Id)>, stock: Stock, stock': Stock)
    requires forall k :: 0 <= k < |found| ==> CountOf(stock', found[k].1) == CountOf(stock, found[k].1)
    ensures SumCounts(found, stock') == SumCounts(found, stock)
    decreases |found|
  {
    if found != [] {
      SumCountsFrame(found[1..], stock, stock');
    }
  }

  /** One corrected step keeps the inventory's shape, moves units from the
    * total of `cfg` into what is no longer needed, one for one, and leaves
    * every other config's total alone. */
  lemma StepFixedAccounts(c: Consumption, found: seq<(nat, Id)>, cfg: string)
    requires found != [] && ConsumableFrom(c, found, cfg) && c.count >= 0
    ensures var r := StepFixed(c, found[0]);
            && Shape(r.inv) && r.count >= 0
            && (r.count == 0 || r.count == c.count - CountOf(c.inv.stock, found[0].1))
            && Total(r.inv.items, r.inv.stock, cfg) - r.count == Total(c.inv.items, c.inv.stock, cfg) - c.count
            && (forall g :: g != cfg ==> Total(r.inv.items, r.inv.stock, g) == Total(c.inv.items, c.inv.stock, g))
            && (r.count != 0 ==> ConsumableFrom(r, found[1..], cfg))
            && (r.count != 0 ==> SumCounts(found[1..], r.inv.stock) == SumCounts(found[1..], c.inv.stock))
  {
    var s, id := found[0].0, found[0].1;
    var r := StepFixed(c, found[0]);
    var have := CountOf(c.inv.stock, id);
    assert s != 0;
    forall j | 0 <= j < Slots && j != s
      ensures r.inv.items[j] == c.inv.items[j] && c.inv.items[j] != Some(id)
    {
    }
    forall g, j | 0 <= j < Slots && j != s
      ensures Units(r.inv.items[j], r.inv.stock, g) == Units(c.inv.items[j], c.inv.stock, g)
    {
    }
    forall g ensures Total(r.inv.items, r.inv.stock, g) - Total(c.inv.items, c.inv.stock, g)
                     == Units(r.inv.items[s], r.inv.stock, g) - Units(c.inv.items[s], c.inv.stock, g)
    {
      TotalAtSlot(c.inv.items, c.inv.stock, r.inv.items, r.inv.stock, g, s);
    }
    forall i, j | 0 <= i < j < Slots && r.inv.items[i].Some? ensures r.inv.items[i] != r.inv.items[j] {
      assert c.inv.items[i].Some?;
    }
    if r.count != 0 {
      forall k | 0 <= k < |found[1..]| ensures CountOf(r.inv.stock, found[1..][k].1) == CountOf(c.inv.stock, found[1..][k].1) {
        assert found[1..][k] == found[k + 1];
        assert found[k + 1].0 != s;
      }
      SumCountsFrame(found[1..], c.inv.stock, r.inv.stock);
      forall k | 0 <= k < |found[1..]|
        ensures found[1..][k].0 < Slots && r.inv.items[found[1..][k].0] == Some(found[1..][k].1)
        ensures Holds(r.inv.items[found[1..][k].0], r.inv.stock, cfg)
      {
        assert found[1..][k] == found[k + 1];
        assert found[k + 1].0 != s;
      }
    }
  }

  /** The corrected loop over `find`'s stacks takes exactly what is needed
    * when the stacks hold enough: the total of `cfg` drops by `count`, and
    * every other config's total is unchanged. */
  lemma {:induction false} FoldFixedConsumesExactly(c: Consumption, found: seq<(nat, Id)>, cfg: string)
    requires ConsumableFrom(c, found, cfg) && c.count >= 0
    ensures var r := FoldFixed(found, c);
            && Shape(r.inv) && r.count >= 0
            && (r.count == 0 || r.count == c.count - SumCounts(found, c.inv.stock))
            && Total(r.inv.items, r.inv.stock, cfg) - r.count == Total(c.inv.items, c.inv.stock, cfg) - c.count
            && (forall g :: g != cfg ==> Total(r.inv.items, r.inv.stock, g) == Total(c.inv.items, c.inv.stock, g))
    decreases |found|
  {
    if found != [] {
      StepFixedAccounts(c, found, cfg);
      var c' := StepFixed(c, found[0]);
      if c'.count != 0 {
        FoldFixedConsumesExactly(c', found[1..], cfg);
      }
    }
  }

  /** `craft_selected`'s check: every requirement is found in the
    * inventory and its found stacks hold at least the required count. */
  function HaveReqs(reqs: StateDicts.Dict<int>, st: InvState): bool
    requires |st.items| == Slots
  {
    forall i :: 0 <= i < |reqs| ==> ReqMet(reqs[i], st)
  }

  /** One requirement `(config, count)` is met. */
  predicate ReqMet(req: (string, int), st: InvState)
    requires |st.items| == Slots
  {
    Found(st.items, st.stock, req.0, Slots) != [] && SumCounts(Found(st.items, st.stock, req.0, Slots), st.stock) >= req.1
  }

  /** The corrected consumption of the requirements, in the dict's order,
    * each from the stacks `find` returns at that point. */
  function ConsumeFixed(reqs: StateDicts.Dict<int>, st: InvState): (r: InvState)
    requires |st.items| == Slots
    ensures |r.items| == Slots && r.stock.Keys == st.stock.Keys && r.selected == st.selected
    decreases |reqs|
  {
    if reqs == [] then st
    else ConsumeFixed(reqs[1..], FoldFixed(Found(st.items, st.stock, reqs[0].0, Slots), Consumption(st, reqs[0].1)).inv)
  }

  /** The check in terms of totals: when it passes, each requirement's
    * config has at least the required units in the inventory. */
  lemma HaveReqsTotals(reqs: StateDicts.Dict<int>, st: InvState)
    requires |st.items| == Slots && HaveReqs(reqs, st)
    ensures forall i :: 0 <= i < |reqs| ==> Total(st.items, st.stock, reqs[i].0) >= reqs[i].1
  {
    assert st.items[..Slots] == st.items;
    forall i | 0 <= i < |reqs| ensures Total(st.items, st.stock, reqs[i].0) >= reqs[i].1 {
      assert ReqMet(reqs[i], st);
      FoundTotal(st.items, st.stock, reqs[i].0, Slots);
    }
  }

  /** With enough units of each (distinct) requirement, the corrected
    * consumption takes exactly the required count of each and leaves
    * every other config's total alone. */
  lemma {:induction false} ConsumeFixedExact(reqs: StateDicts.Dict<int>, st: InvState)
    requires Shape(st) && StateDicts.UniqueKeys(reqs)
    requires forall i :: 0 <= i < |reqs| ==> 0 <= reqs[i].1 <= Total(st.items, st.stock, reqs[i].0)
    ensures Shape(ConsumeFixed(reqs, st))
    ensures forall i :: 0 <= i < |reqs| ==>
              Total(ConsumeFixed(reqs, st).items, ConsumeFixed(reqs, st).stock, reqs[i].0) == Total(st.items, st.stock, reqs[i].0) - reqs[i].1
    ensures forall g :: !StateDicts.HasKey(reqs, g) ==>
              Total(ConsumeFixed(reqs, st).items, ConsumeFixed(reqs, st).stock, g) == Total(st.items, st.stock, g)
    decreases |reqs|
  {
    if reqs != [] {
      var g0, n0 := reqs[0].0, reqs[0].1;
      var found := Found(st.items, st.stock, g0, Slots);
      FoundSound(st.items, st.stock, g0, Slots);
      assert st.items[..Slots] == st.items;
      FoundTotal(st.items, st.stock, g0, Slots);
      FoldFixedConsumesExactly(Consumption(st, n0), found, g0);
      var mid := FoldFixed(found, Consumption(st, n0)).inv;
      assert Total(mid.items, mid.stock, g0) == Total(st.items, st.stock, g0) - n0;
      var rest := reqs[1..];
      assert forall i :: 0 <= i < |rest| ==> rest[i] == reqs[i + 1] && rest[i].0 != g0;
      ConsumeFixedExact(rest, mid);
      var r := ConsumeFixed(reqs, st);
      assert r == ConsumeFixed(rest, mid);
      assert !StateDicts.HasKey(rest, g0);
      forall g | !StateDicts.HasKey(reqs, g) ensures Total(r.items, r.stock, g) == Total(st.items, st.stock, g) {
        assert g != g0;
      }
    }
  }

  /** `craft_selected` with the consumption corrected: when the config has
    * requirements the inventory does not meet, nothing happens; otherwise
    * they are consumed, the new object (`newId`) is created, spawned and
    * disabled, and added to the inventory (where it may join a stack). */
  function CraftSpec(cfg: string, reqs: Option<StateDicts.Dict<int>>, st: InvState, newId: Id, newItem: Item): (r: InvState)
    requires |st.items| == Slots
    ensures |r.items| == Slots
  {
    if reqs.Some? && !HaveReqs(reqs.value, st) then st
    else
      var st1 := if reqs.Some? then ConsumeFixed(reqs.value, st) else st;
      var st2 := st1.(stock := st1.stock[newId := newItem], ops := st1.ops + [Spawn(newId, cfg)]);
      AddSpec(st2, newId, newItem, false).1
  }

  /** Adding an object never changes the total of another config. */
  lemma AddKeepsOtherTotals(st: InvState, objId: Id, obj: Item, g: string)
    requires |st.items| == Slots && obj.configId != g
    requires objId in st.stock ==> st.stock[objId].configId != g
    ensures var r := AddSpec(st, objId, obj, false).1;
            Total(r.items, r.stock, g) == Total(st.items, st.stock, g)
  {
    var r := AddSpec(st, objId, obj, false).1;
    forall j | 0 <= j < Slots ensures Units(r.items[j], r.stock, g) == Units(st.items[j], st.stock, g) {
    }
    TotalSame(st.items, st.stock, r.items, r.stock, g);
  }

  /** Creating an object under a fresh id never changes the total of
    * another config. */
  lemma SpawnKeepsOtherTotals(st: InvState, newId: Id, newItem: Item, g: string)
    requires newId !in st.stock && newItem.configId != g
    ensures Total(st.items, st.stock[newId := newItem], g) == Total(st.items, st.stock, g)
  {
    forall j | 0 <= j < |st.items| ensures Units(st.items[j], st.stock[newId := newItem], g) == Units(st.items[j], st.stock, g) {
    }
    TotalSame(st.items, st.stock, st.items, st.stock[newId := newItem], g);
  }

  /** A craft that goes ahead takes exactly the required units of each
    * requirement other than the crafted config itself, and leaves every
    * config that is neither required nor crafted alone. */
  lemma CraftTakesRequirements(cfg: string, reqs: StateDicts.Dict<int>, st: InvState, newId: Id, newCount: int, newCountMax: int)
    requires Shape(st) && StateDicts.UniqueKeys(reqs) && HaveReqs(reqs, st) && newId !in st.stock
    requires forall i :: 0 <= i < |reqs| ==> reqs[i].1 >= 0
    ensures var r := CraftSpec(cfg, Some(reqs), st, newId, Item(cfg, newCount, newCountMax));
            forall i :: 0 <= i < |reqs| && reqs[i].0 != cfg ==>
              Total(r.items, r.stock, reqs[i].0) == Total(st.items, st.stock, reqs[i].0) - reqs[i].1
    ensures var r := CraftSpec(cfg, Some(reqs), st, newId, Item(cfg, newCount, newCountMax));
            forall g :: g != cfg && !StateDicts.HasKey(reqs, g) ==> Total(r.items, r.stock, g) == Total(st.items, st.stock, g)
  {
    var item := Item(cfg, newCount, newCountMax);
    HaveReqsTotals(reqs, st);
    ConsumeFixedExact(reqs, st);
    var st1 := ConsumeFixed(reqs, st);
    var st2 := st1.(stock := st1.stock[newId := item], ops := st1.ops + [Spawn(newId, cfg)]);
    forall g | g != cfg ensures Total(AddSpec(st2, newId, item, false).1.items, AddSpec(st2, newId, item, false).1.stock, g) == Total(st1.items, st1.stock, g) {
      SpawnKeepsOtherTotals(st1, newId, item, g);
      AddKeepsOtherTotals(st2, newId, item, g);
    }
  }

  /** As written, two stacks of 5 and 3 wood and a requirement of 2 lose 4
    * wood: after taking 2 from the first stack the loop goes on to the
    * second, since the amount needed was never set to 0. */
  lemma AsWrittenTakesTooMuch()
    ensures var items := [None, Some(1), Some(2), None, None, None, None, None, None, None];
            var stock := map[1 := Item("wood", 5, 10), 2 := Item("wood", 3, 10)];
            var r := FoldAsWritten([(1, 1), (2, 2)], Consumption(InvState(items, 0, stock, []), 2));
            && r.inv.items == items
            && r.inv.stock == map[1 := Item("wood", 3, 10), 2 := Item("wood", 1, 10)]
  {
    var items := [None, Some(1), Some(2), None, None, None, None, None, None, None];
    var stock := map[1 := Item("wood", 5, 10), 2 := Item("wood", 3, 10)];
    var c1 := StepAsWritten(Consumption(InvState(items, 0, stock, []), 2), (1, 1));
    assert c1.inv.stock == map[1 := Item("wood", 3, 10), 2 := Item("wood", 3, 10)] && c1.count == 2;
  }

  /** Slots holding no stack of `cfg` add nothing to `find`. */
  lemma {:induction false} FoundSkips(items: seq<Option<Id>>, stock: Stock, cfg: string, m: nat, n: nat)
    requires m <= n <= |items|
    requires forall j :: m <= j < n ==> !Holds(items[j], stock, cfg)
    ensures Found(items, stock, cfg, n) == Found(items, stock, cfg, m)
    decreases n
  {
    if m < n {
      FoundSkips(items, stock, cfg, m, n - 1);
    }
  }

  /** `find` returns both stacks of that example, in slot order, whatever
    * their counts. */
  lemma AsWrittenFound(a: int, b: int)
    ensures Found([None, Some(1), Some(2), None, None, None, None, None, None, None],
                  map[1 := Item("wood", a, 10), 2 := Item("wood", b, 10)], "wood", Slots) == [(1, 1), (2, 2)]
  {
    var items: seq<Option<Id>> := [None, Some(1), Some(2), None, None, None, None, None, None, None];
    var stock := map[1 := Item("wood", a, 10), 2 := Item("wood", b, 10)];
    assert forall j :: 3 <= j < Slots ==> !Holds(items[j], stock, "wood") by {
      forall j | 3 <= j < Slots ensures items[j] == None {
        if j < 7 { assert j in {3, 4, 5, 6}; } else { assert j in {7, 8, 9}; }
      }
    }
    FoundSkips(items, stock, "wood", 3, Slots);
    assert Found(items, stock, "wood", 1) == [];
    assert Found(items, stock, "wood", 2) == [(1, 1)];
  }

  /** The totals in that example: 8 wood before, 4 after, where taking 2
    * should leave 6. */
  lemma AsWrittenTotals()
    ensures var items := [None, Some(1), Some(2), None, None, None, None, None, None, None];
            && Total(items, map[1 := Item("wood", 5, 10), 2 := Item("wood", 3, 10)], "wood") == 8
            && Total(items, map[1 := Item("wood", 3, 10), 2 := Item("wood", 1, 10)], "wood") == 4
  {
    var items: seq<Option<Id>> := [None, Some(1), Some(2), None, None, None, None, None, None, None];
    assert items[..Slots] == items;
    var before := map[1 := Item("wood", 5, 10), 2 := Item("wood", 3, 10)];
    var after := map[1 := Item("wood", 3, 10), 2 := Item("wood", 1, 10)];
    AsWrittenFound(5, 3);
    FoundTotal(items, before, "wood", Slots);
    assert SumCounts([(1, 1), (2, 2)], before) == 8;
    AsWrittenFound(3, 1);
    FoundTotal(items, after, "wood", Slots);
    assert SumCounts([(1, 1), (2, 2)], after) == 4;
  }

  /** As written, a stack of exactly the needed size (2 wood for a
    * requirement of 2) only loses one unit to `remove_by_slot`, which
    * splits off a fresh one-unit object, and its object is then queued
    * for removal while its slot still names it. */
  lemma AsWrittenLeavesStaleSlot()
    ensures var items := [None, Some(1), None, None, None, None, None, None, None, None];
            var st := InvState(items, 0, map[1 := Item("wood", 2, 10)], []);
            var r := FoldAsWritten([(1, 1)], Consumption(st, 2));
            r.inv.items[1] == Some(1) && r.inv.ops == [SpawnUnit("wood"), RemoveObject(1)]
  {
  }

  /** The corrected step empties that slot instead. */
  lemma FixedClearsSlot()
    ensures var items := [None, Some(1), None, None, None, None, None, None, None, None];
            var st := InvState(items, 0, map[1 := Item("wood", 2, 10)], []);
            var r := FoldFixed([(1, 1)], Consumption(st, 2));
            r.inv.items[1] == None && r.inv.ops == [RemoveObject(1)]
  {
  }

  /** The requirement check of `craft_selected`, stopping at the first
    * requirement not met. */
  method CheckReqs(inv: Inventory, stock: Stock, reqs: StateDicts.Dict<int>) returns (have: bool)
    requires inv.Valid()
    ensures have == HaveReqs(reqs, inv.State(stock, []))
  {
    var i := 0;
    while i < |reqs|
      invariant 0 <= i <= |reqs|
      invariant forall k :: 0 <= k < i ==> ReqMet(reqs[k], inv.State(stock, []))
    {
      var objs := inv.Find(stock, reqs[i].0);
      if |objs| == 0 {
        assert !ReqMet(reqs[i], inv.State(stock, []));
        return false;
      }
      var invCount := SumCounts(objs, stock);
      if invCount < reqs[i].1 {
        assert !ReqMet(reqs[i], inv.State(stock, []));
        return false;
      }
      i := i + 1;
    }
    return true;
  }

  /** The corrected removal loop for one requirement `(cfg, count)`. */
  method ConsumeReq(inv: Inventory, stock: Stock, ops: seq<WorldOp>, cfg: string, count: int) returns (stock': Stock, ops': seq<WorldOp>)
    requires inv.Valid()
    modifies inv`items
    ensures inv.Valid()
    ensures inv.State(stock', ops') == FoldFixed(Found(old(inv.items), stock, cfg, Slots), Consumption(old(inv.State(stock, ops)), count)).inv
  {
    var objs := inv.Find(stock, cfg);
    ghost var c0 := Consumption(inv.State(stock, ops), count);
    stock', ops' := stock, ops;
    var n := count;
    var j := 0;
    while j < |objs|
      invariant 0 <= j <= |objs| && inv.Valid()
      invariant FoldFixed(objs, c0) == FoldFixed(objs[j..], Consumption(inv.State(stock', ops'), n))
    {
      var slot, id := objs[j].0, objs[j].1;
      ghost var cur := Consumption(inv.State(stock', ops'), n);
      assert objs[j..][0] == objs[j] && objs[j..][1..] == objs[j + 1..];
      var have := CountOf(stock', id);
      var remainder := n - have;
      if remainder >= 0 {
        var _, s2, o2 := inv.RemoveBySlot(stock', ops', slot, true);
        stock', ops' := s2, o2 + [RemoveObject(id)];
        n := remainder;
      } else if id in stock' {
        stock' := stock'[id := stock'[id].(count := have - n)];
        n := 0;
      }
      assert Consumption(inv.State(stock', ops'), n) == StepFixed(cur, objs[j]);
      if n == 0 {
        break;
      }
      j := j + 1;
    }
  }

  /** The menu of craftable configs, one of them selected. */
  /** One step back or forward among `n` entries wraps around at both
    * ends. */
  lemma WrapStep(s: int, n: int)
    requires 0 <= s < n
    ensures (s + 1) % n == (if s == n - 1 then 0 else s + 1)
    ensures (s - 1) % n == (if s == 0 then n - 1 else s - 1)
  {
    if s == n - 1 {
      assert s + 1 == n;
    }
    if s == 0 {
      assert s - 1 == -1 == (n - 1) - n;
    }
  }

  class CraftMenu {
    var items: seq<string>
    var selectedSlot: int

    /** A non-empty menu has its selection in range. */
    ghost predicate Valid()
      reads this
    {
      items != [] ==> 0 <= selectedSlot < |items|
    }

    constructor (items: seq<string>)
      ensures Valid() && this.items == items && selectedSlot == 0
    {
      this.items := items;
      selectedSlot := 0;
    }

    /** `select_item`: the selection moves one entry back or forward,
      * wrapping around at both ends. */
    method SelectItem(prev: bool)
      requires Valid()
      modifies this`selectedSlot
      ensures Valid()
      ensures items != [] ==> selectedSlot == (old(selectedSlot) + (if prev then -1 else 1)) % |items|
    {
      if items != [] {
        WrapStep(selectedSlot, |items|);
      }
      if prev {
        if selectedSlot == 0 {
          selectedSlot := |items| - 1;
        } else {
          selectedSlot := selectedSlot - 1;
        }
      } else {
        if selectedSlot == |items| - 1 {
          selectedSlot := 0;
        } else {
          selectedSlot := selectedSlot + 1;
        }
      }
    }

    /** `craft_selected`, with the consumption of requirements corrected
      * (see `StepFixed`): the selected config's requirements (`recipes`,
      * none when it has no entry) are checked, consumed, and the new object
      * `newId` with the given counts is created and added to `inv`. An
      * empty menu has no selection and raises `IndexError`. */
    method CraftSelected(inv: Inventory, stock: Stock, recipes: map<string, StateDicts.Dict<int>>, newId: Id, newCount: int, newCountMax: int)
      returns (err: Option<Error>, stock': Stock, ops: seq<WorldOp>)
      requires Valid() && inv.Valid()
      modifies inv`items, inv`selectedSlot
      ensures inv.Valid()
      ensures err.Some? <==> items == []
      ensures items == [] ==> inv.State(stock', ops) == old(inv.State(stock, []))
      ensures items != [] ==>
                var cfg := items[selectedSlot];
                inv.State(stock', ops) == CraftSpec(cfg, if cfg in recipes then Some(recipes[cfg]) else None, old(inv.State(stock, [])), newId, Item(cfg, newCount, newCountMax))
    {
      if items == [] {
        return Some(IndexError(selectedSlot)), stock, [];
      }
      var cfg := items[selectedSlot];
      stock', ops := stock, [];
      if cfg in recipes {
        var reqs := recipes[cfg];
        var have := CheckReqs(inv, stock, reqs);
        if !have {
          return None, stock, [];
        }
        ghost var st0 := inv.State(stock, []);
        var i := 0;
        while i < |reqs|
          invariant 0 <= i <= |reqs| && inv.Valid()
          invariant ConsumeFixed(reqs, st0) == ConsumeFixed(reqs[i..], inv.State(stock', ops))
        {
          assert reqs[i..][0] == reqs[i] && reqs[i..][1..] == reqs[i + 1..];
          stock', ops := ConsumeReq(inv, stock', ops, reqs[i].0, reqs[i].1);
          i := i + 1;
        }
      }
      var item := Item(cfg, newCount, newCountMax);
      stock' := stock'[newId := item];
      ops := ops + [Spawn(newId, cfg)];
      var _, s2, o2 := inv.Add(stock', ops, newId, item, false);
      stock', ops := s2, o2;
      err := None;
    }
  }

  // ------------------------------------------------------- animate objects

  /** What `AnimateObject.update` reads and changes: health, energy and
    * stamina with their maxima, and the ticks at which energy next decays
    * and health and stamina next regenerate. */
  datatype Vitals = Vitals(health: int, healthMax: int, energy: int, stamina: int, staminaMax: int,
                           nextEnergyDecay: int, nextHealthGen: int, nextStaminaGen: int)

  /** The configuration entries `update` reads, with the source's defaults
    * filled in by the caller: `energy_decay`, `low_energy_health_penalty`,
    * `energy_decay_period`, `health_gen`, `health_gen_period` (all 0 by
    * default), `stamina_max` as the regeneration gate (50 by default),
    * `stamina_gen` (5) and `stamina_gen_period` (0). */
  datatype StatConfig = StatConfig(energyDecay: int, lowEnergyHealthPenalty: int, energyDecayPeriod: int,
                                   healthGen: int, healthGenPeriod: int,
                                   staminaGate: int, staminaGen: int, staminaGenPeriod: int)

  function Min(a: int, b: int): int { if a <= b then a else b }
  function Max(a: int, b: int): int { if a >= b then a else b }

  /** One `update` at tick `now`: energy decays once its period has passed
    * (never below 0, and an exhausted object loses health); health
    * regenerates up to its maximum once its period has passed; stamina
    * regenerates up to its maximum once its period has passed, but only
    * while it is below the configured gate. Each timer that fired is set
    * its period (in steps) ahead. */
  function Upkeep(v: Vitals, cfg: StatConfig, now: int, stepDuration: int): (r: Vitals)
    ensures r.healthMax == v.healthMax && r.staminaMax == v.staminaMax
    ensures v.energy >= 0 || now > v.nextEnergyDecay ==> r.energy >= 0
    ensures now > v.nextEnergyDecay ==> r.energy == Max(0, v.energy - cfg.energyDecay)
    ensures now > v.nextHealthGen ==> r.health <= v.healthMax
    ensures v.health <= v.healthMax && cfg.lowEnergyHealthPenalty >= 0 ==> r.health <= v.healthMax
    ensures v.stamina <= v.staminaMax ==> r.stamina <= v.staminaMax
    ensures r.stamina != v.stamina ==> now > v.nextStaminaGen && v.stamina < cfg.staminaGate
    ensures now <= v.nextEnergyDecay && now <= v.nextHealthGen && now <= v.nextStaminaGen ==> r == v
  {
    var decay := now > v.nextEnergyDecay;
    var energy := if decay then Max(0, v.energy - cfg.energyDecay) else v.energy;
    var health0 := if decay && energy <= 0 then v.health - cfg.lowEnergyHealthPenalty else v.health;
    var nextDecay := if decay then now + cfg.energyDecayPeriod * stepDuration else v.nextEnergyDecay;
    var heal := now > v.nextHealthGen;
    var health := if heal then Min(v.healthMax, health0 + cfg.healthGen) else health0;
    var nextHeal := if heal then now + cfg.healthGenPeriod * stepDuration else v.nextHealthGen;
    var rest := now > v.nextStaminaGen && v.stamina < cfg.staminaGate;
    var stamina := if rest then Min(v.staminaMax, v.stamina + cfg.staminaGen) else v.stamina;
    var nextRest := if rest then now + cfg.staminaGenPeriod * stepDuration else v.nextStaminaGen;
    Vitals(health, v.healthMax, energy, stamina, v.staminaMax, nextDecay, nextHeal, nextRest)
  }

  /** Bounds that hold from spawning on. */
  ghost predicate Sane(v: Vitals)
  {
    v.energy >= 0 && v.health <= v.healthMax && v.stamina <= v.staminaMax
  }

  /** The vitals after `update` runs at each tick of `times` in turn. */
  function UpkeepRun(v: Vitals, cfg: StatConfig, times: seq<int>, stepDuration: int): Vitals
    decreases |times|
  {
    if times == [] then v else UpkeepRun(Upkeep(v, cfg, times[0], stepDuration), cfg, times[1..], stepDuration)
  }

  /** However many updates run, energy never goes negative and health and
    * stamina never pass their maxima, as long as the low-energy penalty
    * does not heal. */
  lemma {:induction false} UpkeepRunSane(v: Vitals, cfg: StatConfig, times: seq<int>, stepDuration: int)
    requires Sane(v) && cfg.lowEnergyHealthPenalty >= 0
    ensures Sane(UpkeepRun(v, cfg, times, stepDuration))
    decreases |times|
  {
    if times != [] {
      UpkeepRunSane(Upkeep(v, cfg, times[0], stepDuration), cfg, times[1..], stepDuration);
    }
  }

  /** A survival object that acts: a player's character or a creature. The
    * physical part is `body`; the inventory and the craft menu are its
    * own. */
  class AnimateObject {
    const body: PhysicalObject
    const inventory: Inventory
    const craftMenu: CraftMenu
    var energy: int
    var energyMax: int
    var stamina: int
    var staminaMax: int
    var nextEnergyDecay: int
    var nextHealthGen: int
    var nextStaminaGen: int
    var reward: int
    var totalReward: int

    /** The current vitals. */
    function VitalsNow(): Vitals
      reads this, body
    {
      Vitals(body.health, body.healthMax, energy, stamina, staminaMax, nextEnergyDecay, nextHealthGen, nextStaminaGen)
    }

    /** A new animate object: energy and stamina 0 until it spawns, maxima
      * from the configuration (`energy_max`, `stamina_max`, both 100 by
      * default), no reward, an inventory owned by the body and the
      * configured craft menu. */
    constructor (body: PhysicalObject, energyMax: int, staminaMax: int, craftItems: seq<string>)
      ensures this.body == body && this.energyMax == energyMax && this.staminaMax == staminaMax
      ensures energy == 0 && stamina == 0 && nextEnergyDecay == 0 && nextHealthGen == 0 && nextStaminaGen == 0
      ensures reward == 0 && totalReward == 0
      ensures fresh(inventory) && inventory.Valid() && inventory.ownerObjId == Some(body.id)
      ensures fresh(craftMenu) && craftMenu.Valid() && craftMenu.items == craftItems && craftMenu.selectedSlot == 0
    {
      this.body := body;
      this.energyMax := energyMax;
      this.staminaMax := staminaMax;
      energy, stamina := 0, 0;
      nextEnergyDecay, nextHealthGen, nextStaminaGen := 0, 0, 0;
      reward, totalReward := 0, 0;
      var inv := new Inventory();
      inv.SetOwnerObjId(body.id);
      inventory := inv;
      craftMenu := new CraftMenu(craftItems);
    }

    /** `add_reward`: both the step reward and the running total grow. */
    method AddReward(r: int)
      modifies this`reward, this`totalReward
      ensures reward == old(reward) + r && totalReward == old(totalReward) + r
    {
      reward := reward + r;
      totalReward := totalReward + r;
    }

    /** `spawn` (wrapped): energy and stamina start at `energy_start` and
      * `stamina_start` and every timer is due at once. */
    method Spawn(energyStart: int, staminaStart: int, verdict: Trigger -> bool) returns (g: Gate)
      modifies this`energy, this`stamina, this`nextEnergyDecay, this`nextHealthGen, this`nextStaminaGen
      ensures g.Disabled? <==> "spawn" in body.disabledActions
      ensures !g.Disabled? ==> g.ran == body.TriggersOf("spawn") && (g.Vetoed? <==> SomeVeto(g.ran, verdict))
      ensures g.Allowed? ==> energy == energyStart && stamina == staminaStart
      ensures g.Allowed? ==> nextEnergyDecay == 0 && nextHealthGen == 0 && nextStaminaGen == 0
      ensures !g.Allowed? ==> VitalsNow() == old(VitalsNow())
    {
      g := body.Gate("spawn", verdict);
      if g.Allowed? {
        energy, stamina := energyStart, staminaStart;
        nextEnergyDecay, nextHealthGen, nextStaminaGen := 0, 0, 0;
      }
    }

    /** `update` at tick `now`: the vitals follow `Upkeep`; the answer says
      * whether the object has run out of health and dies. A living object's
      * player, if it has one, may send input again. */
    method Update(now: int, cfg: StatConfig, stepDuration: int, player: Option<Players.Player>) returns (dies: bool)
      modifies this`energy, this`stamina, this`nextEnergyDecay, this`nextHealthGen, this`nextStaminaGen, body`health
      modifies (if player.Some? then {player.value} else {})`data
      ensures VitalsNow() == Upkeep(old(VitalsNow()), cfg, now, stepDuration)
      ensures dies <==> body.health <= 0
      ensures player.Some? && !dies ==> player.value.data == old(player.value.data)["allow_input" := DBool(true)]
      ensures player.Some? && dies ==> player.value.data == old(player.value.data)
    {
      if now > nextEnergyDecay {
        energy := Max(0, energy - cfg.energyDecay);
        if energy <= 0 {
          body.health := body.health - cfg.lowEnergyHealthPenalty;
        }
        nextEnergyDecay := now + cfg.energyDecayPeriod * stepDuration;
      }
      if now > nextHealthGen {
        body.health := Min(body.healthMax, body.health + cfg.healthGen);
        nextHealthGen := now + cfg.healthGenPeriod * stepDuration;
      }
      if now > nextStaminaGen && stamina < cfg.staminaGate {
        stamina := Min(staminaMax, stamina + cfg.staminaGen);
        nextStaminaGen := now + cfg.staminaGenPeriod * stepDuration;
      }
      dies := body.health <= 0;
      if !dies && player.Some? {
        player.value.SetDataValue("allow_input", DBool(true));
      }
    }

    /** `consume_food` (wrapped): the food's energy is added, capped at the
      * maximum, and an instant "eat" action is queued. */
    method ConsumeFood(foodEnergy: int, verdict: Trigger -> bool, now: int) returns (g: Gate)
      modifies this`energy, body`actionQueue
      ensures g.Disabled? <==> "consume_food" in body.disabledActions
      ensures !g.Disabled? ==> g.ran == body.TriggersOf("consume_food") && (g.Vetoed? <==> SomeVeto(g.ran, verdict))
      ensures g.Allowed? ==> energy == Min(old(energy) + foodEnergy, energyMax)
      ensures g.Allowed? ==> |body.actionQueue| == |old(body.actionQueue)| + 1 && body.actionQueue[..|old(body.actionQueue)|] == old(body.actionQueue)
      ensures g.Allowed? ==> var a := body.actionQueue[|old(body.actionQueue)|];
                fresh(a) && a.kind == "eat" && a.ticks == 0 && a.blocking && !a.continuous && a.startTick == now
      ensures !g.Allowed? ==> energy == old(energy) && body.actionQueue == old(body.actionQueue)
    {
      g := body.Gate("consume_food", verdict);
      if g.Allowed? {
        energy := Min(energy + foodEnergy, energyMax);
        var a := new SurvivalCommon.Action("eat", 0, None, true, false, None, now);
        body.actionQueue := body.actionQueue + [a];
      }
    }

    /** `select_item` (wrapped): the inventory's selection moves, and the
      * object idles for one step. */
    method SelectItem(prev: bool, verdict: Trigger -> bool, stepDuration: int, now: int) returns (g: Gate)
      requires inventory.Valid()
      modifies inventory`selectedSlot, body`action
      ensures inventory.Valid()
      ensures g.Disabled? <==> "select_item" in body.disabledActions
      ensures !g.Disabled? ==> g.ran == body.TriggersOf("select_item") && (g.Vetoed? <==> SomeVeto(g.ran, verdict))
      ensures g.Allowed? ==> inventory.selectedSlot == (old(inventory.selectedSlot) + (if prev then -1 else 1)) % Slots
      ensures g.Allowed? ==> fresh(body.action) && body.action.kind == "idle" && body.action.ticks == stepDuration
      ensures !g.Allowed? ==> inventory.selectedSlot == old(inventory.selectedSlot) && body.action == old(body.action)
    {
      g := body.Gate("select_item", verdict);
      if g.Allowed? {
        inventory.SelectItem(prev);
        body.action := new SurvivalCommon.Action("idle", stepDuration, None, true, false, None, now);
      }
    }

    /** `select_craft_type` (wrapped): the craft menu's selection moves, and
      * the object idles for one step. */
    method SelectCraftType(prev: bool, verdict: Trigger -> bool, stepDuration: int, now: int) returns (g: Gate)
      requires craftMenu.Valid()
      modifies craftMenu`selectedSlot, body`action
      ensures craftMenu.Valid()
      ensures g.Disabled? <==> "select_craft_type" in body.disabledActions
      ensures !g.Disabled? ==> g.ran == body.TriggersOf("select_craft_type") && (g.Vetoed? <==> SomeVeto(g.ran, verdict))
      ensures g.Allowed? && craftMenu.items != [] ==>
                craftMenu.selectedSlot == (old(craftMenu.selectedSlot) + (if prev then -1 else 1)) % |craftMenu.items|
      ensures g.Allowed? ==> fresh(body.action) && body.action.kind == "idle" && body.action.ticks == stepDuration
      ensures !g.Allowed? ==> craftMenu.selectedSlot == old(craftMenu.selectedSlot) && body.action == old(body.action)
    {
      g := body.Gate("select_craft_type", verdict);
      if g.Allowed? {
        craftMenu.SelectItem(prev);
        body.action := new SurvivalCommon.Action("idle", stepDuration, None, true, false, None, now);
      }
    }

    /** `craft` (wrapped): the selected entry is crafted into the inventory
      * (see `CraftMenu.CraftSelected`), and the object idles for one
      * step. */
    method Craft(stock: Stock, recipes: map<string, StateDicts.Dict<int>>, newId: Id, newCount: int, newCountMax: int,
                 verdict: Trigger -> bool, stepDuration: int, now: int)
      returns (g: Gate, err: Option<Error>, stock': Stock, ops: seq<WorldOp>)
      requires inventory.Valid() && craftMenu.Valid()
      modifies inventory`items, inventory`selectedSlot, body`action
      ensures inventory.Valid()
      ensures g.Disabled? <==> "craft" in body.disabledActions
      ensures !g.Disabled? ==> g.ran == body.TriggersOf("craft") && (g.Vetoed? <==> SomeVeto(g.ran, verdict))
      ensures !g.Allowed? ==> err.None? && inventory.State(stock', ops) == old(inventory.State(stock, [])) && body.action == old(body.action)
      ensures g.Allowed? ==> (err.Some? <==> craftMenu.items == [])
      ensures g.Allowed? && craftMenu.items != [] ==>
                var cfg := craftMenu.items[craftMenu.selectedSlot];
                inventory.State(stock', ops) == CraftSpec(cfg, if cfg in recipes then Some(recipes[cfg]) else None, old(inventory.State(stock, [])), newId, Item(cfg, newCount, newCountMax))
      ensures g.Allowed? && err.None? ==> fresh(body.action) && body.action.kind == "idle" && body.action.ticks == stepDuration
    {
      g := body.Gate("craft", verdict);
      if !g.Allowed? {
        return g, None, stock, [];
      }
      err, stock', ops := craftMenu.CraftSelected(inventory, stock, recipes, newId, newCount, newCountMax);
      if err.None? {
        body.action := new SurvivalCommon.Action("idle", stepDuration, None, true, false, None, now);
      }
    }
  }
}
