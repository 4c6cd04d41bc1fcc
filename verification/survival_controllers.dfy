/** The game-mode controllers of the survival content, in their two versions
  * (`landia/contentbundles/survival_controllers.py` and the newer
  * `landia/survival/survival_controllers.py`; `newer` tells them apart
  * where they differ): player spawning, the rock-collision penalty, food
  * collection, tag, infection and the team assignment of capture the flag.
  * A controller keeps sets of object ids and a few counters; it changes
  * the objects it is handed (their tags, triggers and rewards) and the
  * players' data. Periods are kept in hundredths of a tick, like the step
  * duration they are derived from. */
module SurvivalControllers {
  import opened Base
  import Players
  import PlayerTable
  import StateDicts
  import SurvivalObjects
  import SurvivalContent

  type Obj = SurvivalObjects.AnimateObject
  type Body = SurvivalObjects.PhysicalObject

  function Objects(objs: seq<Obj>): set<Obj>
  {
    set o | o in objs
  }

  function Bodies(objs: seq<Obj>): set<Body>
  {
    set o | o in objs :: o.body
  }

  function Elements(bodies: seq<Body>): set<Body>
  {
    set b | b in bodies
  }

  function IdsOf(objs: seq<Obj>): set<Id>
  {
    set o | o in objs :: o.body.id
  }

  /** The ids of the objects before position `i`. */
  function IdsBefore(objs: seq<Obj>, i: int): set<Id>
  {
    set j | 0 <= j < i && j < |objs| :: objs[j].body.id
  }

  /** Among objects with distinct ids, only `it` itself has its id or its
    * body. */
  lemma OnlyOne(objs: seq<Obj>, it: Obj)
    requires DistinctIds(objs) && it in objs
    ensures it.body.id in IdsOf(objs)
    ensures forall o :: o in objs && o != it ==> o.body != it.body && o.body.id != it.body.id
  {
    var k :| 0 <= k < |objs| && objs[k] == it;
    forall o | o in objs && o != it
      ensures o.body != it.body && o.body.id != it.body.id
    {
      var j :| 0 <= j < |objs| && objs[j] == o;
      DistinctObjects(objs, k, j);
      if j < k {
        assert objs[j].body.id != objs[k].body.id;
      }
    }
  }

  lemma IdsBeforeStep(objs: seq<Obj>, i: nat)
    requires i < |objs|
    ensures IdsBefore(objs, i + 1) == IdsBefore(objs, i) + {objs[i].body.id}
  {
    assert objs[i].body.id in IdsBefore(objs, i + 1);
  }

  lemma IdsBeforeAll(objs: seq<Obj>)
    ensures IdsBefore(objs, |objs|) == IdsOf(objs)
  {
    forall id | id in IdsOf(objs)
      ensures id in IdsBefore(objs, |objs|)
    {
      var o :| o in objs && o.body.id == id;
      var j :| 0 <= j < |objs| && objs[j] == o;
    }
  }

  /** The ids of the bodies before position `i`. */
  function BodyIdsBefore(bodies: seq<Body>, i: int): set<Id>
  {
    set j | 0 <= j < i && j < |bodies| :: bodies[j].id
  }

  lemma BodyIdsBeforeStep(bodies: seq<Body>, i: nat)
    requires i < |bodies|
    ensures BodyIdsBefore(bodies, i + 1) == BodyIdsBefore(bodies, i) + {bodies[i].id}
  {
    assert bodies[i].id in BodyIdsBefore(bodies, i + 1);
  }

  lemma BodyIdsBeforeAll(bodies: seq<Body>)
    ensures BodyIdsBefore(bodies, |bodies|) == set b | b in bodies :: b.id
  {
    forall id | id in (set b | b in bodies :: b.id)
      ensures id in BodyIdsBefore(bodies, |bodies|)
    {
      var b :| b in bodies && b.id == id;
      var j :| 0 <= j < |bodies| && bodies[j] == b;
    }
  }

  /** The objects have pairwise distinct ids, as the objects of a set of
    * ids do. */
  predicate DistinctIds(objs: seq<Obj>)
  {
    forall i, j :: 0 <= i < j < |objs| ==> objs[i].body.id != objs[j].body.id
  }

  /** Distinct ids make distinct objects and distinct bodies. */
  lemma DistinctObjects(objs: seq<Obj>, i: int, j: int)
    requires DistinctIds(objs) && 0 <= i < |objs| && 0 <= j < |objs| && i != j
    ensures objs[i] != objs[j] && objs[i].body != objs[j].body
  {
    if i > j {
      assert objs[j].body.id != objs[i].body.id;
    }
  }

  /** The food-collection actors `humans` are watched for collisions and
    * death. */
  ghost predicate Watched(humans: seq<Obj>)
    reads Bodies(humans)`triggers
  {
    forall o :: o in humans ==> o.body.Valid() && Registered(o.body, "collision_with", "collect", "collision_with_trigger")
                                && Registered(o.body, "die", "collect", "die_trigger")
  }

  /** Grabbing any of the `apples` is credited to the grabber. */
  ghost predicate GrabTracked(apples: seq<Body>)
    reads Elements(apples)`triggers
  {
    forall a :: a in apples ==> a.Valid() && Registered(a, "receive_grab", "collect", "collected_trigger")
  }

  /** `func` is registered under `id` for the action `fnName`. */
  ghost predicate Registered(b: Body, fnName: string, id: string, func: string)
    reads b`triggers
  {
    (id, func) in b.TriggersOf(fnName)
  }

  /** A participant's tags once it has joined a game mode that marks its
    * players with `playing` and one of them ("it") with `mark`: its
    * earlier tags without the mark, with `playing`, and with the mark when
    * `isIt`. */
  ghost predicate Marked(b: Body, before: set<string>, playing: string, mark: string, isIt: bool)
    reads b`tags
  {
    b.tags == before - {mark} + {playing} + (if isIt then {mark} else {})
  }

  /** A body's triggers are well formed and the mode's `hooks` (action,
    * trigger id, callback) are registered. */
  ghost predicate Hooked(b: Body, hooks: seq<(string, string, string)>)
    reads b`triggers
  {
    b.Valid() && forall h :: h in hooks ==> Registered(b, h.0, h.1, h.2)
  }

  /** The chosen participant `it` gets the mode's mark; as bodies are
    * distinct, no other participant's tags change. */
  method MarkOne(objs: seq<Obj>, ghost before: map<Obj, set<string>>, it: Obj, playing: string, mark: string,
                 hooks: seq<(string, string, string)>)
    requires it in objs && DistinctIds(objs)
    requires forall o :: o in objs ==> o in before && Joined(o.body, before[o], playing, mark, false, hooks)
    modifies it.body`tags
    ensures forall o :: o in objs ==> Joined(o.body, before[o], playing, mark, o == it, hooks)
  {
    ghost var k :| 0 <= k < |objs| && objs[k] == it;
    it.body.AddTag(mark);
    forall o | o in objs
      ensures Joined(o.body, before[o], playing, mark, o == it, hooks)
    {
      if o != it {
        var j :| 0 <= j < |objs| && objs[j] == o;
        DistinctObjects(objs, k, j);
      }
    }
  }

  /** A participant's body once it has joined a game mode. */
  ghost predicate Joined(b: Body, before: set<string>, playing: string, mark: string, isIt: bool, hooks: seq<(string, string, string)>)
    reads b`tags, b`triggers
  {
    Marked(b, before, playing, mark, isIt) && Hooked(b, hooks)
  }

  /** After `put`, the key holds the new value. */
  lemma PutHolds<V>(d: StateDicts.Dict<V>, k: string, v: V)
    requires StateDicts.UniqueKeys(d)
    ensures (k, v) in StateDicts.Put(d, k, v)
  {
    var r := StateDicts.Put(d, k, v);
    if StateDicts.HasKey(d, k) {
      var i :| 0 <= i < |d| && d[i].0 == k;
      assert r[i] == (k, v);
    } else {
      assert r[|d|] == (k, v);
    }
  }

  /** Registers one trigger and records that it is there. */
  method Hook(b: Body, fnName: string, id: string, func: string)
    requires b.Valid()
    modifies b`triggers
    ensures b.Valid() && Registered(b, fnName, id, func)
    ensures b.triggers == old(b.triggers)[fnName := StateDicts.Put(old(b.TriggersOf(fnName)), id, func)]
  {
    PutHolds(b.TriggersOf(fnName), id, func);
    b.AddTrigger(fnName, id, func);
  }

  // ------------------------------------------------------------ the target in front

  /** A candidate an attack can reach: it collides, carries `need`, and
    * does not carry `avoid`. */
  predicate Eligible(o: Obj, need: string, avoid: Option<string>)
    reads o.body
  {
    o.body.collisionType > 0 && need in o.body.tags && (avoid.None? || avoid.value !in o.body.tags)
  }

  /** The first eligible candidate at or after `from`. */
  function FirstTarget(cands: seq<Obj>, need: string, avoid: Option<string>, from: nat): (r: Option<nat>)
    requires from <= |cands|
    reads Bodies(cands)
    ensures r.Some? ==> from <= r.value < |cands| && Eligible(cands[r.value], need, avoid)
                        && forall i :: from <= i < r.value ==> !Eligible(cands[i], need, avoid)
    ensures r.None? ==> forall i :: from <= i < |cands| ==> !Eligible(cands[i], need, avoid)
    decreases |cands| - from
  {
    if from == |cands| then None
    else if Eligible(cands[from], need, avoid) then Some(from)
    else FirstTarget(cands, need, avoid, from + 1)
  }

  /** The search of the objects in the cell in front of an attacker, in
    * the order the space lists them: the first eligible one. */
  method FindTarget(cands: seq<Obj>, need: string, avoid: Option<string>) returns (t: Option<nat>)
    ensures t == FirstTarget(cands, need, avoid, 0)
  {
    var i := 0;
    while i < |cands|
      invariant 0 <= i <= |cands|
      invariant FirstTarget(cands, need, avoid, i) == FirstTarget(cands, need, avoid, 0)
    {
      if Eligible(cands[i], need, avoid) {
        return Some(i);
      }
      i := i + 1;
    }
    t := None;
  }

  // ------------------------------------------------------------ player spawn

  /** The data a player's reset leaves: no lives used (and, in the older
    * version, no food reward counted), no reset required, observations
    * allowed. */
  function ResetData(newer: bool, data: map<string, Datum>): (d: map<string, Datum>)
    ensures !Truthy(SurvivalContent.ValueOf(d, "reset_required", DBool(true)))
    ensures Truthy(SurvivalContent.ValueOf(d, "allow_obs", DBool(false)))
    ensures d.Keys == data.Keys + {"lives_used", "reset_required", "allow_obs"} + (if newer then {} else {"food_reward_count"})
    ensures forall k :: k in data && k !in {"lives_used", "reset_required", "allow_obs", "food_reward_count"} ==> d[k] == data[k]
  {
    var d := data["lives_used" := DInt(0)];
    var d := if newer then d else d["food_reward_count" := DInt(0)];
    d["reset_required" := DBool(false)]["allow_obs" := DBool(true)]
  }

  /** Where a player is put: its existing object (`Some(id)`) or a new
    * object of the default player type, at the stored spawn point or else
    * at a free location, if any. */
  datatype SpawnPlan = SpawnPlan(existing: Option<Id>, point: Option<Vec>)

  class PlayerSpawnController {
    const newer: bool
    var started: bool

    constructor (newer: bool)
      ensures this.newer == newer && !started
    {
      this.newer := newer;
      started := false;
    }

    /** `reset_player`. */
    method ResetPlayer(p: Players.Player)
      modifies p`data, p`events
      ensures p.data == ResetData(newer, old(p.data)) && p.events == []
    {
      p.SetDataValue("lives_used", DInt(0));
      if !newer {
        p.SetDataValue("food_reward_count", DInt(0));
      }
      p.SetDataValue("reset_required", DBool(false));
      p.SetDataValue("allow_obs", DBool(true));
      p.events := [];
    }

    /** `spawn_player`: `found` says whether the player's object exists,
      * `stored` is the player's stored spawn point and `available` what
      * `get_available_location` finds; a new object gets `newId` and is
      * attached to the player. A missing object raises when it is spawned,
      * after the player has been reset. */
    method SpawnPlayer(p: Players.Player, reset: bool, found: bool, newId: Id, stored: Option<Vec>, available: Option<Vec>)
      returns (r: Result<SpawnPlan>)
      modifies p`data, p`events, p`objId, p`camera
      ensures reset ==> p.data == ResetData(newer, old(p.data)) && p.events == []
      ensures !reset ==> p.data == old(p.data) && p.events == old(p.events)
      ensures r.Err? <==> old(p.objId).Some? && !found
      ensures r.Ok? ==> r.value.point == (if stored.Some? then stored else available)
      ensures r.Ok? && old(p.objId).Some? ==> r.value.existing == old(p.objId) && p.objId == old(p.objId)
      ensures old(p.objId).None? ==> r.Ok? && r.value.existing.None? && p.objId == Some(newId)
    {
      var existing := p.objId;
      if existing.None? {
        var _ := p.AttachObject(newId);
      }
      if reset {
        ResetPlayer(p);
      }
      var point := if stored.Some? then stored else available;
      if existing.Some? && !found {
        return Err(AttributeError("spawn"));
      }
      r := Ok(SpawnPlan(existing, point));
    }

    /** `join`: before the first reset nothing happens; afterwards the
      * player is spawned and reset. */
    method Join(p: Players.Player, found: bool, newId: Id, stored: Option<Vec>, available: Option<Vec>)
      returns (r: Option<Result<SpawnPlan>>)
      modifies p`data, p`events, p`objId, p`camera
      ensures !started ==> r.None? && p.data == old(p.data) && p.objId == old(p.objId)
      ensures started ==> r.Some? && p.data == ResetData(newer, old(p.data)) && p.events == []
      ensures started ==> (r.value.Err? <==> old(p.objId).Some? && !found)
    {
      if !started {
        return None;
      }
      var s := SpawnPlayer(p, true, found, newId, stored, available);
      r := Some(s);
    }
  }

  // ------------------------------------------------------------ rock collisions

  /** The penalty for running into a rock. */
  class ObjectCollisionController {
    var started: bool
    var actorObjIds: set<Id>
    const objConfigIds: set<string>
    const rewardDelta: int

    constructor ()
      ensures !started && actorObjIds == {} && objConfigIds == {"rock1"} && rewardDelta == -1
    {
      started := false;
      actorObjIds := {};
      objConfigIds := {"rock1"};
      rewardDelta := -1;
    }

    /** `collision_with_trigger`: hitting a configured object costs the
      * penalty; the collision always goes ahead. */
    method CollisionWithTrigger(obj: Obj, otherConfigId: string) returns (allow: bool)
      modifies obj`reward, obj`totalReward
      ensures allow
      ensures obj.reward == old(obj.reward) + (if otherConfigId in objConfigIds then rewardDelta else 0)
    {
      if otherConfigId in objConfigIds {
        obj.AddReward(rewardDelta);
      }
      return true;
    }

    /** `reset`: the human objects become the actors, each watched for
      * collisions. */
    method Reset(humans: seq<Obj>)
      requires forall o :: o in humans ==> o.body.Valid()
      modifies this`started, this`actorObjIds, Bodies(humans)`triggers
      ensures started && actorObjIds == IdsOf(humans)
      ensures forall o :: o in humans ==> o.body.Valid() && Registered(o.body, "collision_with", "obj_collid", "collision_with_trigger")
    {
      started := true;
      actorObjIds := {};
      var i := 0;
      while i < |humans|
        invariant WatchedBefore(humans, i) && started
      {
        WatchNext(humans, i);
        i := i + 1;
      }
      IdsBeforeAll(humans);
    }

    /** `reset` after `i` humans: those are the actors, and each is
      * watched. */
    ghost predicate WatchedBefore(humans: seq<Obj>, i: nat)
      reads this`actorObjIds, Bodies(humans)`triggers
    {
      && i <= |humans|
      && actorObjIds == IdsBefore(humans, i)
      && (forall j :: 0 <= j < |humans| ==> humans[j].body.Valid())
      && (forall j :: 0 <= j < i ==> Registered(humans[j].body, "collision_with", "obj_collid", "collision_with_trigger"))
    }

    /** One step of `reset`: the human at `i` becomes an actor, and the
      * humans before it keep their triggers. */
    method WatchNext(humans: seq<Obj>, i: nat)
      requires i < |humans| && WatchedBefore(humans, i)
      modifies this`actorObjIds, {humans[i].body}`triggers
      ensures WatchedBefore(humans, i + 1)
    {
      var b := humans[i].body;
      Hook(b, "collision_with", "obj_collid", "collision_with_trigger");
      actorObjIds := actorObjIds + {b.id};
      forall j | 0 <= j < |humans| && humans[j].body != b
        ensures humans[j].body.triggers == old(humans[j].body.triggers)
      {
      }
      IdsBeforeStep(humans, i);
    }
  }

  // ------------------------------------------------------------ food collection

  /** Food collection: actors are rewarded for food they collide with or
    * grab, and food is topped up periodically. */
  class FoodCollectController {
    const newer: bool
    var started: bool
    var actorObjIds: set<Id>
    var foodIds: set<Id>
    var gameStartTick: int
    var lastCheck: int
    /** `check_freq`: ten steps, in hundredths of a tick. */
    const checkFreq: int
    const neededFood: int

    /** `stepDuration` is the content's step duration in hundredths of a
      * tick. */
    constructor (newer: bool, stepDuration: int)
      ensures this.newer == newer && !started && actorObjIds == {} && foodIds == {}
      ensures gameStartTick == 0 && lastCheck == 0 && checkFreq == 10 * stepDuration && neededFood == 4
    {
      this.newer := newer;
      started := false;
      actorObjIds := {};
      foodIds := {};
      gameStartTick := 0;
      lastCheck := 0;
      checkFreq := 10 * stepDuration;
      neededFood := 4;
    }

    /** `add_player_object`: the actor is watched for collisions and death. */
    method AddPlayerObject(o: Obj)
      requires o.body.Valid()
      modifies this`actorObjIds, o.body`triggers
      ensures actorObjIds == old(actorObjIds) + {o.body.id} && o.body.Valid()
      ensures Registered(o.body, "collision_with", "collect", "collision_with_trigger")
      ensures Registered(o.body, "die", "collect", "die_trigger")
    {
      Hook(o.body, "collision_with", "collect", "collision_with_trigger");
      Hook(o.body, "die", "collect", "die_trigger");
      actorObjIds := actorObjIds + {o.body.id};
    }

    /** `join`: after the first reset, a player's existing object that is
      * not yet an actor becomes one. */
    method Join(o: Option<Obj>)
      requires o.Some? ==> o.value.body.Valid()
      modifies this`actorObjIds, if o.Some? then {o.value.body} else {}
      ensures !started || o.None? || o.value.body.id in old(actorObjIds) ==> actorObjIds == old(actorObjIds)
      ensures started && o.Some? ==> actorObjIds == old(actorObjIds) + {o.value.body.id}
    {
      if !started {
        return;
      }
      if o.Some? && o.value.body.id !in actorObjIds {
        AddPlayerObject(o.value);
      }
    }

    /** `collected_trigger`: the actor that grabs tracked or untracked food
      * earns 1, and the food is no longer tracked. */
    method CollectedTrigger(foodId: Id, actor: Obj) returns (allow: bool)
      modifies actor`reward, actor`totalReward, this`foodIds
      ensures allow && actor.reward == old(actor.reward) + 1 && foodIds == old(foodIds) - {foodId}
    {
      actor.AddReward(1);
      foodIds := foodIds - {foodId};
      return true;
    }

    /** `collision_with_trigger`: running into tracked food earns 1, and the
      * food (`energy` `foodEnergy`) is eaten through the actor's
      * `consume_food` (`meal`) and removed (`removed`); other collisions
      * change nothing. */
    method CollisionWithTrigger(obj: Obj, otherId: Id, foodEnergy: int, verdict: SurvivalObjects.Trigger -> bool, now: int)
      returns (allow: bool, removed: bool, meal: Option<SurvivalObjects.Gate>)
      modifies obj`reward, obj`totalReward, obj`energy, obj.body`actionQueue, this`foodIds
      ensures allow && (removed <==> otherId in old(foodIds))
      ensures foodIds == old(foodIds) - {otherId}
      ensures obj.reward == old(obj.reward) + (if removed then 1 else 0)
      ensures meal.Some? <==> removed
      ensures meal.Some? ==> (meal.value.Disabled? <==> "consume_food" in obj.body.disabledActions)
      ensures meal.Some? && meal.value.Allowed? ==> obj.energy == SurvivalObjects.Min(old(obj.energy) + foodEnergy, obj.energyMax)
      ensures meal.Some? && meal.value.Allowed? ==> |obj.body.actionQueue| == |old(obj.body.actionQueue)| + 1
                                                    && obj.body.actionQueue[..|old(obj.body.actionQueue)|] == old(obj.body.actionQueue)
                                                    && obj.body.actionQueue[|old(obj.body.actionQueue)|].kind == "eat"
      ensures meal.None? || !meal.value.Allowed? ==> obj.energy == old(obj.energy) && obj.body.actionQueue == old(obj.body.actionQueue)
    {
      if otherId !in foodIds {
        return true, false, None;
      }
      obj.AddReward(1);
      var g := obj.ConsumeFood(foodEnergy, verdict, now);
      foodIds := foodIds - {otherId};
      return true, true, Some(g);
    }

    /** `die_trigger`: dying costs 20. */
    method DieTrigger(obj: Obj) returns (allow: bool)
      modifies obj`reward, obj`totalReward
      ensures allow && obj.reward == old(obj.reward) - 20
    {
      obj.AddReward(-20);
      return true;
    }

    /** `spawn_food`: at a free location, if there is one, the new apple
      * `food` appears, is tracked and has its grab credited through
      * `collected_trigger`; the answer is where. */
    method SpawnFood(loc: Option<Vec>, food: Body) returns (spawned: Option<Vec>)
      requires food.Valid()
      modifies this`foodIds, food`triggers
      ensures spawned == loc && food.Valid()
      ensures foodIds == old(foodIds) + (if loc.Some? then {food.id} else {})
      ensures loc.Some? ==> Registered(food, "receive_grab", "collect", "collected_trigger")
      ensures loc.None? ==> food.triggers == old(food.triggers)
    {
      if loc.Some? {
        foodIds := foodIds + {food.id};
        Hook(food, "receive_grab", "collect", "collected_trigger");
      }
      spawned := loc;
    }

    /** `update` at tick `now`: once the check period has passed, food is
      * spawned if fewer than the needed pieces are tracked, and the check
      * restarts. The food tracked never grows past the need. */
    method Update(now: int, loc: Option<Vec>, food: Body) returns (spawned: Option<Vec>)
      requires food.Valid() && food.configId == "apple1"
      modifies this`foodIds, this`lastCheck, food`triggers
      ensures 100 * (now - old(lastCheck)) > checkFreq ==> lastCheck == now
      ensures 100 * (now - old(lastCheck)) <= checkFreq ==> lastCheck == old(lastCheck) && spawned.None? && foodIds == old(foodIds)
      ensures spawned.Some? <==> 100 * (now - old(lastCheck)) > checkFreq && |old(foodIds)| < neededFood && loc.Some?
      ensures foodIds == old(foodIds) + (if spawned.Some? then {food.id} else {})
      ensures |old(foodIds)| <= neededFood ==> |foodIds| <= neededFood
      ensures food.Valid() && (spawned.Some? ==> Registered(food, "receive_grab", "collect", "collected_trigger"))
    {
      spawned := None;
      if 100 * (now - lastCheck) > checkFreq {
        if |foodIds| < neededFood {
          spawned := SpawnFood(loc, food);
        }
        lastCheck := now;
      }
      if spawned.Some? {
        assert |foodIds| <= |old(foodIds)| + 1 by {
          assert foodIds == old(foodIds) + {food.id};
        }
      }
    }

    /** `reset`: the humans are watched again, then every apple already in
      * the world is tracked; the older version then spawns one more. As
      * written the actor set is emptied again after the humans were added,
      * so it ends empty. */
    method Reset(humans: seq<Obj>, apples: seq<Body>, loc: Option<Vec>, food: Body) returns (spawned: Option<Vec>)
      requires food.Valid() && food.configId == "apple1"
      requires forall o :: o in humans ==> o.body.Valid()
      requires forall a :: a in apples ==> a.Valid()
      requires forall o :: o in humans ==> o.body.configId == "human1"
      requires forall a :: a in apples ==> a.configId == "apple1"
      modifies this`started, this`actorObjIds, this`foodIds, Bodies(humans)`triggers, Elements(apples)`triggers, food`triggers
      ensures started && actorObjIds == {}
      ensures spawned == if newer then None else loc
      ensures foodIds == (set a | a in apples :: a.id) + (if spawned.Some? then {food.id} else {})
      ensures spawned.Some? ==> food.Valid() && Registered(food, "receive_grab", "collect", "collected_trigger")
      ensures GrabTracked(apples)
      ensures Watched(humans)
    {
      started := true;
      actorObjIds := {};
      foodIds := {};
      WatchAll(humans);
      actorObjIds := {};
      spawned := TrackApples(humans, apples, loc, food);
    }

    /** The second half of `reset`: the apples are tracked, and the older
      * version spawns one more; the humans stay watched. */
    method TrackApples(humans: seq<Obj>, apples: seq<Body>, loc: Option<Vec>, food: Body) returns (spawned: Option<Vec>)
      requires food.Valid() && food.configId == "apple1"
      requires Watched(humans) && forall a :: a in apples ==> a.Valid()
      requires forall o :: o in humans ==> o.body.configId == "human1"
      requires forall a :: a in apples ==> a.configId == "apple1"
      modifies this`foodIds, Elements(apples)`triggers, food`triggers
      ensures spawned == if newer then None else loc
      ensures foodIds == old(foodIds) + (set a | a in apples :: a.id) + (if spawned.Some? then {food.id} else {})
      ensures spawned.Some? ==> food.Valid() && Registered(food, "receive_grab", "collect", "collected_trigger")
      ensures GrabTracked(apples) && Watched(humans)
    {
      assert forall o :: o in humans ==> o.body !in Elements(apples);
      TrackAll(apples);
      spawned := None;
      if !newer {
        spawned := SpawnKeeping(humans, apples, loc, food);
      }
    }

    /** `spawn_food` after a reset: the new apple is no human, so the
      * humans' hooks stay, and an apple it might be keeps its grab hook. */
    method SpawnKeeping(humans: seq<Obj>, apples: seq<Body>, loc: Option<Vec>, food: Body) returns (spawned: Option<Vec>)
      requires food.Valid() && food.configId == "apple1"
      requires forall o :: o in humans ==> o.body.configId == "human1"
      requires GrabTracked(apples)
      requires Watched(humans)
      modifies this`foodIds, food`triggers
      ensures spawned == loc && foodIds == old(foodIds) + (if loc.Some? then {food.id} else {})
      ensures loc.Some? ==> food.Valid() && Registered(food, "receive_grab", "collect", "collected_trigger")
      ensures GrabTracked(apples)
      ensures Watched(humans)
    {
      assert forall o :: o in humans ==> o.body != food;
      spawned := SpawnFood(loc, food);
    }

    /** Every human, in order, becomes an actor. */
    method WatchAll(humans: seq<Obj>)
      requires forall o :: o in humans ==> o.body.Valid()
      modifies this`actorObjIds, Bodies(humans)`triggers
      ensures Watched(humans)
    {
      var i := 0;
      while i < |humans|
        invariant 0 <= i <= |humans|
        invariant forall o :: o in humans ==> o.body.Valid()
        invariant forall j :: 0 <= j < i ==> Registered(humans[j].body, "collision_with", "collect", "collision_with_trigger")
                                             && Registered(humans[j].body, "die", "collect", "die_trigger")
      {
        AddPlayerObject(humans[i]);
        i := i + 1;
      }
    }

    /** An apple in the world is tracked as food and reports its
      * collection. */
    method TrackApple(a: Body)
      requires a.Valid()
      modifies this`foodIds, a`triggers
      ensures foodIds == old(foodIds) + {a.id}
      ensures a.Valid() && Registered(a, "receive_grab", "collect", "collected_trigger")
    {
      Hook(a, "receive_grab", "collect", "collected_trigger");
      foodIds := foodIds + {a.id};
    }

    /** Every apple, in order, is tracked as food and reports its
      * collection. */
    method TrackAll(apples: seq<Body>)
      requires forall a :: a in apples ==> a.Valid()
      modifies this`foodIds, Elements(apples)`triggers
      ensures foodIds == old(foodIds) + set a | a in apples :: a.id
      ensures GrabTracked(apples)
    {
      var k := 0;
      while k < |apples|
        invariant TrackedBefore(apples, k, old(foodIds))
      {
        TrackNext(apples, k, old(foodIds));
        k := k + 1;
      }
      BodyIdsBeforeAll(apples);
    }

    /** `TrackAll` after `k` apples, with `f0` the food tracked before. */
    ghost predicate TrackedBefore(apples: seq<Body>, k: nat, f0: set<Id>)
      reads this`foodIds, Elements(apples)`triggers
    {
      && k <= |apples|
      && foodIds == f0 + BodyIdsBefore(apples, k)
      && (forall j :: 0 <= j < |apples| ==> apples[j].Valid())
      && (forall j :: 0 <= j < k ==> Registered(apples[j], "receive_grab", "collect", "collected_trigger"))
    }

    /** One step of `TrackAll`: the apple at `k` is tracked, and the apples
      * before it keep their triggers. */
    method TrackNext(apples: seq<Body>, k: nat, ghost f0: set<Id>)
      requires k < |apples| && TrackedBefore(apples, k, f0)
      modifies this`foodIds, {apples[k]}`triggers
      ensures TrackedBefore(apples, k + 1, f0)
    {
      TrackApple(apples[k]);
      forall j | 0 <= j < |apples| && apples[j] != apples[k]
        ensures apples[j].triggers == old(apples[j].triggers)
      {
      }
      BodyIdsBeforeStep(apples, k);
    }
  }

  // ------------------------------------------------------------ tag

  /** Tag: one participant is "it" (carries the `tagged` tag); "it" passes
    * the tag on by attacking a participant in front of it, and after a
    * round without a tag everybody else is rewarded and a reset is
    * requested. The two versions are the same. */
  const TagHooks := [("unarmed_attack", "tag", "tag_trigger")]

  class TagController {
    var started: bool
    var objIds: set<Id>
    var taggedObj: Option<Obj>
    /** `ticks_per_round`: a hundred steps, in hundredths of a tick. */
    const ticksPerRound: int
    var lastTag: int
    var tagChanges: int
    var gameStartTick: int

    constructor (stepDuration: int)
      ensures !started && objIds == {} && taggedObj.None? && ticksPerRound == 100 * stepDuration
      ensures lastTag == 0 && tagChanges == 0 && gameStartTick == 0
    {
      started := false;
      objIds := {};
      taggedObj := None;
      ticksPerRound := 100 * stepDuration;
      lastTag := 0;
      tagChanges := 0;
      gameStartTick := 0;
    }

    /** `add_player_object`: the object plays, is not "it", and its
      * unarmed attacks go through `tag_trigger`. */
    method AddPlayerObject(o: Obj)
      requires o.body.Valid()
      modifies this`objIds, o.body`tags, o.body`triggers
      ensures objIds == old(objIds) + {o.body.id}
      ensures Joined(o.body, old(o.body.tags), "playingtag", "tagged", false, TagHooks)
    {
      objIds := objIds + {o.body.id};
      o.body.RemoveTag("tagged");
      o.body.AddTag("playingtag");
      Hook(o.body, "unarmed_attack", "tag", "tag_trigger");
    }

    /** `join`: after the first reset, a player's object that does not play
      * yet joins in. */
    method Join(o: Option<Obj>)
      requires o.Some? ==> o.value.body.Valid()
      modifies this`objIds, if o.Some? then {o.value.body} else {}
      ensures !started || o.None? || o.value.body.id in old(objIds) ==> objIds == old(objIds)
      ensures started && o.Some? ==> objIds == old(objIds) + {o.value.body.id}
    {
      if !started {
        return;
      }
      if o.Some? && o.value.body.id !in objIds {
        AddPlayerObject(o.value);
      }
    }

    /** Every object of `objs` joins, in order. */
    method AddAll(objs: seq<Obj>)
      requires DistinctIds(objs) && forall o :: o in objs ==> o.body.Valid()
      modifies this`objIds, Bodies(objs)`tags, Bodies(objs)`triggers
      ensures objIds == old(objIds) + IdsOf(objs)
      ensures forall o :: o in objs ==> Joined(o.body, old(o.body.tags), "playingtag", "tagged", false, TagHooks)
    {
      var i := 0;
      while i < |objs|
        invariant 0 <= i <= |objs| && objIds == old(objIds) + IdsBefore(objs, i)
        invariant forall j :: 0 <= j < i ==> Joined(objs[j].body, old(objs[j].body.tags), "playingtag", "tagged", false, TagHooks)
        invariant forall j :: i <= j < |objs| ==> objs[j].body.tags == old(objs[j].body.tags) && objs[j].body.Valid()
      {
        forall j | 0 <= j < |objs| && j != i
          ensures objs[j].body != objs[i].body
        {
          DistinctObjects(objs, i, j);
        }
        AddPlayerObject(objs[i]);
        IdsBeforeStep(objs, i);
        i := i + 1;
      }
      IdsBeforeAll(objs);
    }

    /** The random choice of "it" among the objects that have just joined,
      * at tick `now`. */
    method ChooseIt(objs: seq<Obj>, ghost before: map<Obj, set<string>>, now: int)
      requires objs != [] && DistinctIds(objs)
      requires forall o :: o in objs ==> o in before && Joined(o.body, before[o], "playingtag", "tagged", false, TagHooks)
      modifies this`taggedObj, this`gameStartTick, this`lastTag, Bodies(objs)`tags
      ensures taggedObj.Some? && taggedObj.value in objs && lastTag == now && gameStartTick == now
      ensures forall o :: o in objs ==> Joined(o.body, before[o], "playingtag", "tagged", taggedObj == Some(o), TagHooks)
    {
      assert objs[0] in objs;
      var it :| it in objs;
      MarkOne(objs, before, it, "playingtag", "tagged", TagHooks);
      StartTagging(it, now);
    }

    /** The tag record of a round started at tick `now` with `it` as "it". */
    method StartTagging(it: Obj, now: int)
      modifies this`taggedObj, this`gameStartTick, this`lastTag
      ensures taggedObj == Some(it) && lastTag == now && gameStartTick == now
    {
      taggedObj := Some(it);
      gameStartTick := now;
      lastTag := now;
    }

    /** `reset` at tick `now` with the human and monster objects `objs`:
      * they all play, and exactly one of them, chosen at random, is "it".
      * With no objects the choice raises `IndexError`. */
    method Reset(objs: seq<Obj>, now: int) returns (err: Option<Error>)
      requires DistinctIds(objs) && forall o :: o in objs ==> o.body.Valid()
      modifies this`started, this`objIds, this`taggedObj, this`gameStartTick, this`lastTag, Bodies(objs)`tags, Bodies(objs)`triggers
      ensures started && objIds == IdsOf(objs)
      ensures err.Some? <==> objs == []
      ensures err.None? ==> taggedObj.Some? && taggedObj.value in objs && lastTag == now && gameStartTick == now
      ensures forall o :: o in objs ==> Joined(o.body, old(o.body.tags), "playingtag", "tagged", taggedObj == Some(o), TagHooks)
    {
      ghost var before := map o | o in objs :: o.body.tags;
      StartRound(objs, before);
      if objs == [] {
        return Some(IndexError(0));
      }
      ChooseIt(objs, before, now);
      err := None;
    }

    /** The first half of `reset`: the round starts and every object of
      * `objs`, whose tags were `before`, joins. */
    method StartRound(objs: seq<Obj>, ghost before: map<Obj, set<string>>)
      requires DistinctIds(objs) && forall o :: o in objs ==> o.body.Valid() && o in before && before[o] == o.body.tags
      modifies this`started, this`objIds, Bodies(objs)`tags, Bodies(objs)`triggers
      ensures started && objIds == IdsOf(objs)
      ensures forall o :: o in objs ==> Joined(o.body, before[o], "playingtag", "tagged", false, TagHooks)
    {
      started := true;
      objIds := {};
      AddAll(objs);
      assert objIds == IdsOf(objs);
    }

    /** `tag_trigger` when `source` attacks, with `cands` the objects in the
      * cell in front of it: only "it" can tag; the first playing object
      * there becomes "it", loses 10, and the attack itself is vetoed.
      * Otherwise nothing changes and the attack goes ahead. */
    method TagTrigger(source: Obj, cands: seq<Obj>, now: int) returns (allow: bool)
      modifies source.body`tags, Bodies(cands)`tags, Objects(cands)`reward, Objects(cands)`totalReward
      modifies this`taggedObj, this`lastTag, this`tagChanges
      ensures var t := old(FirstTarget(cands, "playingtag", None, 0));
              allow <==> "tagged" !in old(source.body.tags) || t.None?
      ensures allow ==> taggedObj == old(taggedObj) && lastTag == old(lastTag) && tagChanges == old(tagChanges)
                        && source.body.tags == old(source.body.tags)
                        && forall o :: o in cands ==> o.body.tags == old(o.body.tags) && o.reward == old(o.reward)
      ensures !allow ==>
                var t := cands[old(FirstTarget(cands, "playingtag", None, 0)).value];
                && taggedObj == Some(t) && lastTag == now && tagChanges == old(tagChanges) + 1
                && t.reward == old(t.reward) - 10
                && source.body.tags == old(source.body.tags) - {"tagged"}
                && (t.body != source.body ==> t.body.tags == old(t.body.tags) + {"tagged"})
                && (forall o :: o in cands && o.body != t.body && o.body != source.body ==> o.body.tags == old(o.body.tags))
                && (forall o :: o in cands && o != t ==> o.reward == old(o.reward))
    {
      if "tagged" !in source.body.tags {
        return true;
      }
      var found := FindTarget(cands, "playingtag", None);
      if found.None? {
        return true;
      }
      var t := cands[found.value];
      source.body.RemoveTag("tagged");
      t.body.AddTag("tagged");
      taggedObj := Some(t);
      source.body.RemoveTag("tagged");
      lastTag := now;
      t.AddReward(-10);
      tagChanges := tagChanges + 1;
      return false;
    }

    /** `update` at tick `now`, with `objs` the existing objects among the
      * players (`get_objects`): once a round has passed since the last tag, everybody but
      * "it" earns 10 and every player is asked to reset. Before the first
      * reset there is no "it", and comparing with it raises. */
    method Update(objs: seq<Obj>, content: SurvivalContent.GameContent, players: map<string, Players.Player>, now: int)
      returns (err: Option<Error>)
      requires DistinctIds(objs) && IdsOf(objs) <= objIds
      modifies Objects(objs)`reward, Objects(objs)`totalReward, players.Values`data
      ensures var due := 100 * (now - lastTag) > ticksPerRound;
              err.Some? <==> due && taggedObj.None? && objs != []
      ensures 100 * (now - lastTag) <= ticksPerRound || err.Some? ==>
                (forall o :: o in objs ==> o.reward == old(o.reward))
                && forall k :: k in players ==> players[k].data == old(players[k].data)
      ensures 100 * (now - lastTag) > ticksPerRound && err.None? ==>
                (forall o :: o in objs ==> o.reward == old(o.reward) + (if taggedObj.None? || o.body.id != taggedObj.value.body.id then 10 else 0))
                && SurvivalContent.AllFlagged(players)
                && forall k :: k in players ==> players[k].data == old(players[k].data)["reset_required" := DBool(true)]
    {
      if 100 * (now - lastTag) <= ticksPerRound {
        return None;
      }
      if taggedObj.None? && objs != [] {
        return Some(AttributeError("get_id"));
      }
      var i := 0;
      while i < |objs|
        invariant 0 <= i <= |objs|
        invariant forall j :: 0 <= j < i ==> objs[j].reward == old(objs[j].reward) + (if taggedObj.None? || objs[j].body.id != taggedObj.value.body.id then 10 else 0)
        invariant forall j :: i <= j < |objs| ==> objs[j].reward == old(objs[j].reward)
        invariant forall k :: k in players ==> players[k].data == old(players[k].data)
      {
        forall j | 0 <= j < |objs| && j != i
          ensures objs[j] != objs[i]
        {
          DistinctObjects(objs, i, j);
        }
        if objs[i].body.id != taggedObj.value.body.id {
          objs[i].AddReward(10);
        }
        i := i + 1;
      }
      content.RequestReset(players);
      err := None;
    }
  }

  // ------------------------------------------------------------ infection

  const InfectHooks := [("unarmed_attack", "infect", "infect_trigger"), ("receive_damage", "infect", "receive_damage_trigger")]

  /** Infection: one participant starts infected; an infected participant
    * infects the first healthy participant in front of it; participants
    * cannot hurt each other. A round ends when it times out or, in the
    * newer version, when everybody is infected: the healthy earn 10, the
    * infected lose 2, and the game starts over. */
  class InfectionController {
    const newer: bool
    var started: bool
    var objIds: set<Id>
    var infectedObjIds: set<Id>
    /** `ticks_per_round`: a hundred steps, in hundredths of a tick. */
    const ticksPerRound: int
    var lastInfect: int
    var infectCounter: int
    /** Set only by the newer version. */
    var gameOver: bool
    var gameStartTick: int

    constructor (newer: bool, stepDuration: int)
      ensures this.newer == newer && !started && objIds == {} && infectedObjIds == {}
      ensures ticksPerRound == 100 * stepDuration && lastInfect == 0 && infectCounter == 0 && !gameOver && gameStartTick == 0
    {
      this.newer := newer;
      started := false;
      objIds := {};
      infectedObjIds := {};
      ticksPerRound := 100 * stepDuration;
      lastInfect := 0;
      infectCounter := 0;
      gameOver := false;
      gameStartTick := 0;
    }

    /** `add_player_object`: the object plays, healthy, its unarmed attacks
      * go through `infect_trigger` and damage it receives through
      * `receive_damage_trigger`. */
    method AddPlayerObject(o: Obj)
      requires o.body.Valid()
      modifies this`objIds, o.body`tags, o.body`triggers
      ensures objIds == old(objIds) + {o.body.id}
      ensures Joined(o.body, old(o.body.tags), "playinginfection", "infected", false, InfectHooks)
    {
      objIds := objIds + {o.body.id};
      o.body.AddTag("playinginfection");
      o.body.RemoveTag("infected");
      assert o.body.tags == old(o.body.tags) - {"infected"} + {"playinginfection"};
      HookTwo(o.body);
    }

    /** The two hooks of the mode, one after the other. */
    static method HookTwo(b: Body)
      requires b.Valid()
      modifies b`triggers
      ensures b.Valid() && forall h :: h in InfectHooks ==> Registered(b, h.0, h.1, h.2)
    {
      Hook(b, "unarmed_attack", "infect", "infect_trigger");
      ghost var first := b.TriggersOf("unarmed_attack");
      Hook(b, "receive_damage", "infect", "receive_damage_trigger");
      assert b.TriggersOf("unarmed_attack") == first;
      assert Registered(b, "unarmed_attack", "infect", "infect_trigger");
      assert forall h :: h in InfectHooks ==> h == InfectHooks[0] || h == InfectHooks[1];
    }

    /** `join`: after the first reset, a player's object that does not play
      * yet joins in. */
    method Join(o: Option<Obj>)
      requires o.Some? ==> o.value.body.Valid()
      modifies this`objIds, if o.Some? then {o.value.body} else {}
      ensures !started || o.None? || o.value.body.id in old(objIds) ==> objIds == old(objIds)
      ensures started && o.Some? ==> objIds == old(objIds) + {o.value.body.id}
    {
      if !started {
        return;
      }
      if o.Some? && o.value.body.id !in objIds {
        AddPlayerObject(o.value);
      }
    }

    /** Every object of `objs` joins, in order. */
    method AddAll(objs: seq<Obj>)
      requires DistinctIds(objs) && forall o :: o in objs ==> o.body.Valid()
      modifies this`objIds, Bodies(objs)`tags, Bodies(objs)`triggers
      ensures objIds == old(objIds) + IdsOf(objs)
      ensures forall o :: o in objs ==> Joined(o.body, old(o.body.tags), "playinginfection", "infected", false, InfectHooks)
    {
      var i := 0;
      while i < |objs|
        invariant 0 <= i <= |objs| && objIds == old(objIds) + IdsBefore(objs, i)
        invariant forall j :: 0 <= j < i ==> Joined(objs[j].body, old(objs[j].body.tags), "playinginfection", "infected", false, InfectHooks)
        invariant forall j :: i <= j < |objs| ==> objs[j].body.tags == old(objs[j].body.tags) && objs[j].body.Valid()
      {
        forall j | 0 <= j < |objs| && j != i
          ensures objs[j].body != objs[i].body
        {
          DistinctObjects(objs, i, j);
        }
        AddPlayerObject(objs[i]);
        IdsBeforeStep(objs, i);
        i := i + 1;
      }
      IdsBeforeAll(objs);
    }

    /** The random choice of the first infected among the objects that have
      * just joined, at tick `now`. */
    method ChooseFirst(objs: seq<Obj>, ghost before: map<Obj, set<string>>, now: int) returns (it: Obj)
      requires objs != [] && DistinctIds(objs)
      requires forall o :: o in objs ==> o in before && Joined(o.body, before[o], "playinginfection", "infected", false, InfectHooks)
      modifies this`infectedObjIds, this`gameStartTick, this`lastInfect, this`gameOver, Bodies(objs)`tags
      ensures it in objs && infectedObjIds == {it.body.id}
      ensures lastInfect == now && gameStartTick == now && !gameOver
      ensures forall o :: o in objs ==> Joined(o.body, before[o], "playinginfection", "infected", o == it, InfectHooks)
    {
      assert objs[0] in objs;
      it :| it in objs;
      MarkOne(objs, before, it, "playinginfection", "infected", InfectHooks);
      StartInfection(it.body.id, now);
    }

    /** The infection record of a round started at tick `now` with `id`
      * infected. */
    method StartInfection(id: Id, now: int)
      modifies this`infectedObjIds, this`gameStartTick, this`lastInfect, this`gameOver
      ensures infectedObjIds == {id} && lastInfect == now && gameStartTick == now && !gameOver
    {
      infectedObjIds := {id};
      gameStartTick := now;
      lastInfect := now;
      gameOver := false;
    }

    /** `reset` at tick `now` with the human and monster objects `objs`:
      * they all play, and exactly one of them, chosen at random, is
      * infected. With no objects the choice raises `IndexError` and the
      * infection record is left as it was. */
    method Reset(objs: seq<Obj>, now: int) returns (err: Option<Error>, ghost first: Option<Obj>)
      requires DistinctIds(objs) && forall o :: o in objs ==> o.body.Valid()
      modifies this`started, this`objIds, this`infectedObjIds, this`gameStartTick, this`lastInfect, this`gameOver
      modifies Bodies(objs)`tags, Bodies(objs)`triggers
      ensures started && objIds == IdsOf(objs)
      ensures err.Some? <==> objs == []
      ensures err.Some? ==> infectedObjIds == old(infectedObjIds) && gameOver == old(gameOver) && first.None?
      ensures err.None? ==> lastInfect == now && gameStartTick == now && !gameOver
      ensures err.None? ==> first.Some? && first.value in objs && infectedObjIds == {first.value.body.id}
      ensures err.None? ==> forall o :: o in objs ==>
                Joined(o.body, old(o.body.tags), "playinginfection", "infected", first == Some(o), InfectHooks)
    {
      first := None;
      ghost var before := map o | o in objs :: o.body.tags;
      StartRound(objs, before);
      if objs == [] {
        return Some(IndexError(0)), None;
      }
      var it := ChooseFirst(objs, before, now);
      first := Some(it);
      err := None;
    }

    /** The first half of `reset`: the round starts and every object of
      * `objs`, whose tags were `before`, joins. */
    method StartRound(objs: seq<Obj>, ghost before: map<Obj, set<string>>)
      requires DistinctIds(objs) && forall o :: o in objs ==> o.body.Valid() && o in before && before[o] == o.body.tags
      modifies this`started, this`objIds, Bodies(objs)`tags, Bodies(objs)`triggers
      ensures started && objIds == IdsOf(objs)
      ensures forall o :: o in objs ==> Joined(o.body, before[o], "playinginfection", "infected", false, InfectHooks)
    {
      started := true;
      objIds := {};
      AddAll(objs);
      assert objIds == IdsOf(objs);
    }

    /** `receive_damage_trigger`: damage dealt by a participant is vetoed. */
    method ReceiveDamageTrigger(attackerId: Id) returns (allow: bool)
      ensures allow <==> attackerId !in objIds
    {
      allow := attackerId !in objIds;
    }

    /** `infect_trigger` when `source` attacks, with `cands` the objects in
      * the cell in front of it: only the infected can infect; the first
      * healthy participant there is infected, the rewards move (the newer
      * version takes 2 from the target and gives them to the source, the
      * older takes 10 from the target), the attack is vetoed, and in the
      * newer version the game is over once everybody is infected.
      * Otherwise nothing changes and the attack goes ahead. */
    method InfectTrigger(source: Obj, cands: seq<Obj>, now: int) returns (allow: bool)
      modifies Bodies(cands)`tags, Objects(cands)`reward, Objects(cands)`totalReward, source`reward, source`totalReward
      modifies this`infectedObjIds, this`lastInfect, this`infectCounter, this`gameOver
      ensures var t := old(FirstTarget(cands, "playinginfection", Some("infected"), 0));
              allow <==> "infected" !in old(source.body.tags) || t.None?
      ensures allow ==> infectedObjIds == old(infectedObjIds) && lastInfect == old(lastInfect)
                        && infectCounter == old(infectCounter) && gameOver == old(gameOver) && source.reward == old(source.reward)
                        && forall o :: o in cands ==> o.body.tags == old(o.body.tags) && o.reward == old(o.reward)
      ensures !allow ==>
                var t := cands[old(FirstTarget(cands, "playinginfection", Some("infected"), 0)).value];
                && t != source
                && t.body.tags == old(t.body.tags) + {"infected"}
                && infectedObjIds == old(infectedObjIds) + {t.body.id}
                && lastInfect == now && infectCounter == old(infectCounter) + 1
                && t.reward == old(t.reward) - (if newer then 2 else 10)
                && source.reward == old(source.reward) + (if newer then 2 else 0)
                && gameOver == (old(gameOver) || (newer && |infectedObjIds| == |objIds|))
                && (forall o :: o in cands && o.body != t.body ==> o.body.tags == old(o.body.tags))
                && (forall o :: o in cands && o != t && o != source ==> o.reward == old(o.reward))
    {
      if "infected" !in source.body.tags {
        return true;
      }
      var found := FindTarget(cands, "playinginfection", Some("infected"));
      if found.None? {
        return true;
      }
      var t := cands[found.value];
      Infect(source, t, now);
      return false;
    }

    /** The effects of `source` infecting `t` at tick `now`. */
    method Infect(source: Obj, t: Obj, now: int)
      requires t != source
      modifies t.body`tags, t`reward, t`totalReward, source`reward, source`totalReward
      modifies this`infectedObjIds, this`lastInfect, this`infectCounter, this`gameOver
      ensures t.body.tags == old(t.body.tags) + {"infected"}
      ensures infectedObjIds == old(infectedObjIds) + {t.body.id}
      ensures lastInfect == now && infectCounter == old(infectCounter) + 1
      ensures t.reward == old(t.reward) - (if newer then 2 else 10)
      ensures source.reward == old(source.reward) + (if newer then 2 else 0)
      ensures gameOver == (old(gameOver) || (newer && |infectedObjIds| == |objIds|))
    {
      t.body.AddTag("infected");
      infectedObjIds := infectedObjIds + {t.body.id};
      lastInfect := now;
      if newer {
        t.AddReward(-2);
        source.AddReward(2);
      } else {
        t.AddReward(-10);
      }
      infectCounter := infectCounter + 1;
      if newer && |infectedObjIds| == |objIds| {
        gameOver := true;
      }
    }

    /** `update` at tick `now`, with `objs` the existing objects among the
      * participants (`get_objects`) and `participants` the human and monster objects: when
      * the round is over (timed out, or in the newer version game over),
      * the healthy earn 10, the infected lose 2, and the game is reset. */
    method Update(objs: seq<Obj>, participants: seq<Obj>, now: int) returns (err: Option<Error>, ghost first: Option<Obj>)
      requires DistinctIds(objs) && DistinctIds(participants) && forall o :: o in participants ==> o.body.Valid()
      requires IdsOf(objs) <= objIds
      modifies Objects(objs)`reward, Objects(objs)`totalReward
      modifies this`started, this`objIds, this`infectedObjIds, this`gameStartTick, this`lastInfect, this`gameOver
      modifies Bodies(participants)`tags, Bodies(participants)`triggers
      ensures var due := (newer && old(gameOver)) || 100 * (now - old(lastInfect)) > ticksPerRound;
              !due ==> err.None? && objIds == old(objIds) && infectedObjIds == old(infectedObjIds)
                       && forall o :: o in objs ==> o.reward == old(o.reward)
      ensures var due := (newer && old(gameOver)) || 100 * (now - old(lastInfect)) > ticksPerRound;
              due ==> (forall o :: o in objs ==> o.reward == old(o.reward) + (if o.body.id in old(infectedObjIds) then -2 else 10))
                      && started && objIds == IdsOf(participants) && (err.Some? <==> participants == [])
                      && (err.None? ==> |infectedObjIds| == 1 && infectedObjIds <= objIds && !gameOver && lastInfect == now)
      ensures err.None? && first.Some? ==>
                first.value in participants && infectedObjIds == {first.value.body.id} && gameStartTick == now
                && forall o :: o in participants ==>
                     Joined(o.body, old(o.body.tags), "playinginfection", "infected", first == Some(o), InfectHooks)
      ensures var due := (newer && old(gameOver)) || 100 * (now - old(lastInfect)) > ticksPerRound;
              first.Some? <==> due && err.None?
    {
      if !((newer && gameOver) || 100 * (now - lastInfect) > ticksPerRound) {
        return None, None;
      }
      var i := 0;
      while i < |objs|
        invariant 0 <= i <= |objs|
        invariant forall j :: 0 <= j < i ==> objs[j].reward == old(objs[j].reward) + (if objs[j].body.id in infectedObjIds then -2 else 10)
        invariant forall j :: i <= j < |objs| ==> objs[j].reward == old(objs[j].reward)
        invariant infectedObjIds == old(infectedObjIds)
        invariant forall o :: o in participants ==> o.body.Valid() && o.body.tags == old(o.body.tags)
      {
        forall j | 0 <= j < |objs| && j != i
          ensures objs[j] != objs[i]
        {
          DistinctObjects(objs, i, j);
        }
        if objs[i].body.id !in infectedObjIds {
          objs[i].AddReward(10);
        } else {
          objs[i].AddReward(-2);
        }
        i := i + 1;
      }
      err, first := Reset(participants, now);
      if err.None? {
        OnlyOne(participants, first.value);
      }
    }
  }

  // ---------------------------------------------------- capture the flag

  /** Two sets that agree outside `x` agree on every other element. */
  lemma SameOutside(a: set<Id>, b: set<Id>, x: Id, y: Id)
    requires a - {x} == b - {x} && y != x
    ensures y in a <==> y in b
  {
    assert y in a <==> y in a - {x};
  }

  /** Agreement outside `x` composes with agreement outside `s`. */
  lemma MovedOutside(a: set<Id>, b: set<Id>, c: set<Id>, s: set<Id>, x: Id)
    requires a - {x} == b - {x} && b - s == c - s
    ensures a - (s + {x}) == c - (s + {x})
  {
    assert a - (s + {x}) == (a - {x}) - s;
    assert c - (s + {x}) == (c - s) - {x};
  }

  /** One side of capture the flag: its colour, its flag and flag zone,
    * who holds its flag, and the ids of its members. */
  class CTFTeam {
    const color: string
    var flagId: Option<Id>
    var flagZoneId: Option<Id>
    var flagHolderId: Option<Id>
    var teamIds: set<Id>

    constructor (color: string)
      ensures this.color == color && flagId.None? && flagZoneId.None? && flagHolderId.None? && teamIds == {}
    {
      this.color := color;
      flagId := None;
      flagZoneId := None;
      flagHolderId := None;
      teamIds := {};
    }

    /** `get_team_tag`: the tag its members carry. */
    function TeamTag(): string
    {
      color + "team"
    }

    /** `remove_player_obj_id`: the object leaves the team and drops the
      * flag if it held it. */
    method RemovePlayerObjId(id: Id)
      modifies this`flagHolderId, this`teamIds
      ensures teamIds == old(teamIds) - {id} && id !in teamIds
      ensures flagHolderId == if old(flagHolderId) == Some(id) then None else old(flagHolderId)
    {
      if flagHolderId == Some(id) {
        flagHolderId := None;
      }
      teamIds := teamIds - {id};
    }
  }

  const CTFHooks := [("unarmed_attack", "ctf", "attack_trigger"), ("receive_damage", "ctf", "receive_damage_trigger"),
                     ("collision_with", "ctf", "collision_with_trigger")]

  /** The newer version's capture the flag: the red and the blue team, kept
    * balanced as objects are assigned to the smaller one. */
  class CTFController {
    var started: bool
    const red: CTFTeam
    const blue: CTFTeam
    var gameStartTick: int
    const ticksPerRound: int
    var gameOver: bool

    constructor (stepDuration: int)
      ensures Valid() && Balanced() && red.teamIds == {} && blue.teamIds == {}
      ensures !started && gameStartTick == 0 && ticksPerRound == 100 * stepDuration && !gameOver
    {
      started := false;
      red := new CTFTeam("red");
      blue := new CTFTeam("blue");
      gameStartTick := 0;
      ticksPerRound := 100 * stepDuration;
      gameOver := false;
    }

    /** The teams are two different objects, red and blue. */
    ghost predicate Valid()
    {
      red != blue && red.color == "red" && blue.color == "blue"
    }

    /** The team sizes differ by at most one. */
    predicate Balanced()
      reads red`teamIds, blue`teamIds
    {
      -1 <= |red.teamIds| - |blue.teamIds| <= 1
    }

    /** The object is a member of exactly one team, carries that team's tag
      * and no other team tag, and has the mode's hooks registered. */
    ghost predicate OnOneTeam(b: Body, before: set<string>)
      reads b`tags, b`triggers, red`teamIds, blue`teamIds
    {
      OnOneTeamOf(b, before, red.teamIds, blue.teamIds)
    }

    /** `OnOneTeam` with the teams' members given as `redIds` and `blueIds`. */
    ghost predicate OnOneTeamOf(b: Body, before: set<string>, redIds: set<Id>, blueIds: set<Id>)
      reads b`tags, b`triggers
    {
      && (b.id in redIds) != (b.id in blueIds)
      && b.tags == before - {red.TeamTag(), blue.TeamTag()} + {if b.id in redIds then red.TeamTag() else blue.TeamTag()}
      && b.Valid()
      && forall h :: h in CTFHooks ==> Registered(b, h.0, h.1, h.2)
    }

    /** Moving only the id `x` between the teams leaves every other object
      * on the team it was on. */
    lemma TeamKept(b: Body, before: set<string>, r: set<Id>, bl: set<Id>, r': set<Id>, bl': set<Id>, x: Id)
      requires OnOneTeamOf(b, before, r, bl) && b.id != x
      requires r' - {x} == r - {x} && bl' - {x} == bl - {x}
      ensures OnOneTeamOf(b, before, r', bl')
    {
      SameOutside(r', r, x, b.id);
      SameOutside(bl', bl, x, b.id);
    }

    /** `get_team`: the first team, red before blue, the object is a member
      * of. */
    function GetTeam(id: Id): (t: Option<CTFTeam>)
      reads red`teamIds, blue`teamIds
      ensures t.Some? ==> (t.value == red || t.value == blue) && id in t.value.teamIds
      ensures t.None? <==> id !in red.teamIds && id !in blue.teamIds
    {
      if id in red.teamIds then Some(red) else if id in blue.teamIds then Some(blue) else None
    }

    /** `assign_to_team`: the object joins the team and takes its tag. */
    method AssignToTeam(o: Obj, team: CTFTeam)
      modifies o.body`tags, team`teamIds
      ensures o.body.tags == old(o.body.tags) + {team.TeamTag()}
      ensures team.teamIds == old(team.teamIds) + {o.body.id}
    {
      o.body.AddTag(team.TeamTag());
      team.teamIds := team.teamIds + {o.body.id};
    }

    /** `remove_from_game`: the object leaves both teams, drops any flag it
      * holds and loses both team tags. */
    method RemoveFromGame(o: Obj)
      requires Valid()
      modifies red`teamIds, red`flagHolderId, blue`teamIds, blue`flagHolderId, o.body`tags
      ensures red.teamIds == old(red.teamIds) - {o.body.id} && blue.teamIds == old(blue.teamIds) - {o.body.id}
      ensures red.flagHolderId == if old(red.flagHolderId) == Some(o.body.id) then None else old(red.flagHolderId)
      ensures blue.flagHolderId == if old(blue.flagHolderId) == Some(o.body.id) then None else old(blue.flagHolderId)
      ensures o.body.tags == old(o.body.tags) - {red.TeamTag(), blue.TeamTag()}
    {
      red.RemovePlayerObjId(o.body.id);
      o.body.RemoveTag(red.TeamTag());
      blue.RemovePlayerObjId(o.body.id);
      o.body.RemoveTag(blue.TeamTag());
    }

    /** `assign_team`: the object leaves the game and joins, at random, one
      * of the teams that are then smallest. The teams stay balanced, the
      * object ends up on exactly one of them, and nobody else moves. */
    method AssignTeam(o: Obj)
      requires Valid() && Balanced()
      modifies red`teamIds, red`flagHolderId, blue`teamIds, blue`flagHolderId, o.body`tags
      ensures Balanced()
      ensures (o.body.id in red.teamIds) != (o.body.id in blue.teamIds)
      ensures red.teamIds - {o.body.id} == old(red.teamIds) - {o.body.id}
      ensures blue.teamIds - {o.body.id} == old(blue.teamIds) - {o.body.id}
      ensures o.body.id in red.teamIds ==> |old(red.teamIds) - {o.body.id}| <= |old(blue.teamIds) - {o.body.id}|
      ensures o.body.id in blue.teamIds ==> |old(blue.teamIds) - {o.body.id}| <= |old(red.teamIds) - {o.body.id}|
      ensures o.body.tags == old(o.body.tags) - {red.TeamTag(), blue.TeamTag()}
                             + {if o.body.id in red.teamIds then red.TeamTag() else blue.TeamTag()}
      ensures red.flagHolderId == if old(red.flagHolderId) == Some(o.body.id) then None else old(red.flagHolderId)
      ensures blue.flagHolderId == if old(blue.flagHolderId) == Some(o.body.id) then None else old(blue.flagHolderId)
    {
      RemoveFromGame(o);
      var minCount := if |red.teamIds| <= |blue.teamIds| then |red.teamIds| else |blue.teamIds|;
      assert |red.teamIds| == minCount || |blue.teamIds| == minCount;
      var pickRed: bool :| if pickRed then |red.teamIds| == minCount else |blue.teamIds| == minCount;
      if pickRed {
        AssignToTeam(o, red);
      } else {
        AssignToTeam(o, blue);
      }
    }

    /** The three hooks of the mode, one after the other. */
    static method HookThree(b: Body)
      requires b.Valid()
      modifies b`triggers
      ensures b.Valid() && forall h :: h in CTFHooks ==> Registered(b, h.0, h.1, h.2)
    {
      Hook(b, "unarmed_attack", "ctf", "attack_trigger");
      ghost var first := b.TriggersOf("unarmed_attack");
      Hook(b, "receive_damage", "ctf", "receive_damage_trigger");
      ghost var second := b.TriggersOf("receive_damage");
      assert b.TriggersOf("unarmed_attack") == first;
      Hook(b, "collision_with", "ctf", "collision_with_trigger");
      assert b.TriggersOf("unarmed_attack") == first && b.TriggersOf("receive_damage") == second;
      assert Registered(b, "unarmed_attack", "ctf", "attack_trigger");
      assert Registered(b, "receive_damage", "ctf", "receive_damage_trigger");
      assert forall h :: h in CTFHooks ==> h == CTFHooks[0] || h == CTFHooks[1] || h == CTFHooks[2];
    }

    /** `add_player_object`: the object's attacks, the damage it receives
      * and its collisions go through the mode's triggers, and unless told
      * otherwise it is assigned a team. */
    method AddPlayerObject(o: Obj, skipTeamAssign: bool)
      requires Valid() && Balanced() && o.body.Valid()
      modifies red`teamIds, red`flagHolderId, blue`teamIds, blue`flagHolderId, o.body`tags, o.body`triggers
      ensures Balanced() && o.body.Valid() && forall h :: h in CTFHooks ==> Registered(o.body, h.0, h.1, h.2)
      ensures skipTeamAssign ==> red.teamIds == old(red.teamIds) && blue.teamIds == old(blue.teamIds) && o.body.tags == old(o.body.tags)
      ensures !skipTeamAssign ==> OnOneTeam(o.body, old(o.body.tags))
      ensures red.teamIds - {o.body.id} == old(red.teamIds) - {o.body.id}
      ensures blue.teamIds - {o.body.id} == old(blue.teamIds) - {o.body.id}
    {
      HookThree(o.body);
      if !skipTeamAssign {
        AssignTeam(o);
      }
    }

    /** `reset` at tick `now` with the human and monster objects `objs`, in
      * the order the shuffle left them: each is assigned a team in turn, so
      * the teams stay balanced and each object is on exactly one of them;
      * ids of objects that are not in `objs` stay where they were. */
    method Reset(objs: seq<Obj>, now: int)
      requires Valid() && Balanced() && DistinctIds(objs) && forall o :: o in objs ==> o.body.Valid()
      modifies this`started, this`gameStartTick, this`gameOver
      modifies red`teamIds, red`flagHolderId, blue`teamIds, blue`flagHolderId, Bodies(objs)`tags, Bodies(objs)`triggers
      ensures started && gameStartTick == now && !gameOver && Balanced()
      ensures forall o :: o in objs ==> OnOneTeam(o.body, old(o.body.tags))
      ensures red.teamIds - IdsOf(objs) == old(red.teamIds) - IdsOf(objs)
      ensures blue.teamIds - IdsOf(objs) == old(blue.teamIds) - IdsOf(objs)
    {
      started := true;
      AddAll(objs);
      gameStartTick := now;
      gameOver := false;
    }

    /** Every object of `objs` is added, in order. */
    method AddAll(objs: seq<Obj>)
      requires Valid() && Balanced() && DistinctIds(objs) && forall o :: o in objs ==> o.body.Valid()
      modifies red`teamIds, red`flagHolderId, blue`teamIds, blue`flagHolderId, Bodies(objs)`tags, Bodies(objs)`triggers
      ensures Balanced()
      ensures forall o :: o in objs ==> OnOneTeam(o.body, old(o.body.tags))
      ensures red.teamIds - IdsOf(objs) == old(red.teamIds) - IdsOf(objs)
      ensures blue.teamIds - IdsOf(objs) == old(blue.teamIds) - IdsOf(objs)
    {
      ghost var before := map o | o in objs :: o.body.tags;
      ghost var r0, b0 := red.teamIds, blue.teamIds;
      var i := 0;
      while i < |objs|
        invariant 0 <= i <= |objs| && Progress(objs, i, before, r0, b0)
      {
        AddNext(objs, i, before, r0, b0);
        i := i + 1;
      }
      IdsBeforeAll(objs);
      forall o | o in objs
        ensures OnOneTeam(o.body, old(o.body.tags))
      {
        var j :| 0 <= j < |objs| && objs[j] == o;
        assert OnOneTeam(objs[j].body, before[objs[j]]);
      }
    }

    /** The state of `AddAll` after the first `i` objects: the teams are
      * balanced, those objects are each on one team, the rest are as they
      * were, and no other id has moved. */
    ghost predicate Progress(objs: seq<Obj>, i: nat, before: map<Obj, set<string>>, r0: set<Id>, b0: set<Id>)
      reads red`teamIds, blue`teamIds, Bodies(objs)`tags, Bodies(objs)`triggers
    {
      && i <= |objs|
      && Balanced()
      && (forall o :: o in objs ==> o in before)
      && (forall j :: 0 <= j < i ==> OnOneTeam(objs[j].body, before[objs[j]]))
      && (forall j :: i <= j < |objs| ==> objs[j].body.tags == before[objs[j]] && objs[j].body.Valid())
      && red.teamIds - IdsBefore(objs, i) == r0 - IdsBefore(objs, i)
      && blue.teamIds - IdsBefore(objs, i) == b0 - IdsBefore(objs, i)
    }

    /** One step of `AddAll`: the object at `i` is added, and the objects
      * before it keep their teams. */
    method AddNext(objs: seq<Obj>, i: nat, ghost before: map<Obj, set<string>>, ghost r0: set<Id>, ghost b0: set<Id>)
      requires Valid() && DistinctIds(objs) && i < |objs| && Progress(objs, i, before, r0, b0)
      modifies red`teamIds, red`flagHolderId, blue`teamIds, blue`flagHolderId, objs[i].body`tags, objs[i].body`triggers
      ensures Progress(objs, i + 1, before, r0, b0)
    {
      ghost var r1, b1 := red.teamIds, blue.teamIds;
      assert objs[i] in objs;
      AddPlayerObject(objs[i], false);
      forall j | 0 <= j < i + 1
        ensures OnOneTeam(objs[j].body, before[objs[j]])
      {
        if j < i {
          DistinctObjects(objs, j, i);
          var b := objs[j].body;
          assert old(OnOneTeamOf(b, before[objs[j]], r1, b1));
          assert b.tags == old(b.tags) && b.triggers == old(b.triggers);
          TeamKept(b, before[objs[j]], r1, b1, red.teamIds, blue.teamIds, objs[i].body.id);
        }
      }
      forall j | i + 1 <= j < |objs|
        ensures objs[j].body.tags == before[objs[j]] && objs[j].body.Valid()
      {
        DistinctObjects(objs, i, j);
      }
      IdsBeforeStep(objs, i);
      MovedOutside(red.teamIds, r1, r0, IdsBefore(objs, i), objs[i].body.id);
      MovedOutside(blue.teamIds, b1, b0, IdsBefore(objs, i), objs[i].body.id);
    }

    /** `join` as written: once the game has started, a player with an
      * object makes it look the object up in `obj_ids`, an attribute this
      * controller never defines, which raises `AttributeError`. Nothing
      * changes. */
    method JoinAsWritten(o: Option<Obj>) returns (err: Option<Error>)
      ensures err.Some? <==> started && o.Some?
      ensures err.Some? ==> err.value == AttributeError("obj_ids")
    {
      if !started || o.None? {
        return None;
      }
      return Some(AttributeError("obj_ids"));
    }

    /** `join` as evidently intended: after the first reset, a player's
      * object that is on no team yet is added and assigned a team. */
    method Join(o: Option<Obj>)
      requires Valid() && Balanced() && (o.Some? ==> o.value.body.Valid())
      modifies red`teamIds, red`flagHolderId, blue`teamIds, blue`flagHolderId
      modifies if o.Some? then {o.value.body} else {}
      ensures Balanced()
      ensures !started || o.None? || old(GetTeam(o.value.body.id)).Some? ==>
                red.teamIds == old(red.teamIds) && blue.teamIds == old(blue.teamIds)
      ensures started && o.Some? && old(GetTeam(o.value.body.id)).None? ==> OnOneTeam(o.value.body, old(o.value.body.tags))
    {
      if !started {
        return;
      }
      if o.Some? && GetTeam(o.value.body.id).None? {
        AddPlayerObject(o.value, false);
      }
    }

    /** `collision_with_trigger` when `o` runs into the object `otherId`:
      * touching the flag of a team it is not on earns 1, the `hasflag` tag
      * and the holding of that flag. The collision always goes ahead. */
    method CollisionWithTrigger(o: Obj, otherId: Id) returns (allow: bool)
      requires Valid()
      modifies o`reward, o`totalReward, o.body`tags, red`flagHolderId, blue`flagHolderId
      ensures allow
      ensures var takesRed := o.body.id !in red.teamIds && red.flagId == Some(otherId);
              var takesBlue := o.body.id !in blue.teamIds && blue.flagId == Some(otherId);
              && o.reward == old(o.reward) + (if takesRed then 1 else 0) + (if takesBlue then 1 else 0)
              && o.body.tags == old(o.body.tags) + (if takesRed || takesBlue then {"hasflag"} else {})
              && red.flagHolderId == (if takesRed then Some(o.body.id) else old(red.flagHolderId))
              && blue.flagHolderId == (if takesBlue then Some(o.body.id) else old(blue.flagHolderId))
    {
      var takesRed := o.body.id !in red.teamIds && red.flagId == Some(otherId);
      var takesBlue := o.body.id !in blue.teamIds && blue.flagId == Some(otherId);
      if takesRed {
        o.AddReward(1);
        o.body.AddTag("hasflag");
        red.flagHolderId := Some(o.body.id);
      }
      if takesBlue {
        o.AddReward(1);
        o.body.AddTag("hasflag");
        blue.flagHolderId := Some(o.body.id);
      }
      return true;
    }
  }
}
