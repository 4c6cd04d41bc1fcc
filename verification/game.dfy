/** `GameContext` of `landia/game.py`: the tables of one running game (event
  * bus, object table, physics engine, player table, remote clients) and
  * the step that processes the bus, moves objects and advances the clock. */
module Game {
  import opened Base
  import opened Events
  import opened EventBus
  import opened EventPass
  import GameObject
  import ObjectTable
  import Physics
  import Players
  import PlayerTable
  import RemoteClients
  import Ids
  import Clock
  import Rounding

  /** The dict `create_snapshot_for_client` returns. */
  datatype ClientSnapshot = ClientSnapshot(
    om: seq<GameObject.ObjectSnapshot>, pm: map<Players.Uid, Players.PlayerSnapshot>,
    em: seq<EventSnap>, timestamp: int)

  /** Whether some player in the table belongs to the client. */
  ghost predicate ClientHasPlayer(m: map<string, Players.Player>, clientId: string)
    reads m.Values
  {
    exists k :: k in m && m[k].clientId == Some(clientId)
  }

  /** The ids of the sound events on a bus. */
  function SoundKeys(bus: map<Id, Event>): set<Id>
  {
    set k | k in bus && bus[k].kind.SoundEvent?
  }

  /** The camera distance `new_player` gives a new player: an admin sees the
    * whole map, anyone else the content's default. */
  function CameraDistance(playerType: Datum, defaultDistance: int, mapDistance: int): (d: int)
    ensures playerType == DStr("admin") ==> d == mapDistance
    ensures playerType != DStr("admin") ==> d == defaultDistance
  {
    if playerType == DStr("admin") then mapDistance else defaultDistance
  }

  /** `m` is `m0` with the ids `added` filed: no object of `m0` is lost or
    * replaced. */
  ghost predicate Extends(m0: map<Id, GameObject.GObject>, m: map<Id, GameObject.GObject>, added: set<Id>)
  {
    m.Keys == m0.Keys + added && forall k :: k in m0 ==> m[k] == m0[k]
  }

  /** The ids of the entries of an object snapshot. */
  function SnapIds(data: seq<GameObject.ObjectSnapshot>): set<Id>
  {
    set s | s in data :: s.id
  }

  /** `m` keeps every object of `m0` and files only ids of `m0` or of
    * `allowed`. */
  ghost predicate Grows(m0: map<Id, GameObject.GObject>, m: map<Id, GameObject.GObject>, allowed: set<Id>)
  {
    m.Keys <= m0.Keys + allowed && forall k :: k in m0 ==> k in m && m[k] == m0[k]
  }

  /** The table `m`, grown from `m0` by loading the first `i` entries of
    * `data`: it keeps the objects of `m0`, gains only ids of `data`, and
    * holds the ids of those entries. */
  ghost predicate LoadedUpTo(m0: map<Id, GameObject.GObject>, m: map<Id, GameObject.GObject>,
                             data: seq<GameObject.ObjectSnapshot>, i: nat)
  {
    && i <= |data|
    && Grows(m0, m, SnapIds(data))
    && forall j :: 0 <= j < i ==> data[j].id in m
  }

  lemma ObjectsLoadedNext(m0: map<Id, GameObject.GObject>, m1: map<Id, GameObject.GObject>, m2: map<Id, GameObject.GObject>,
                   data: seq<GameObject.ObjectSnapshot>, i: nat)
    requires i < |data| && LoadedUpTo(m0, m1, data, i) && Extends(m1, m2, {data[i].id})
    ensures LoadedUpTo(m0, m2, data, i + 1)
  {
    assert data[i] in data;
  }

  lemma LoadedAllIds(m0: map<Id, GameObject.GObject>, m: map<Id, GameObject.GObject>, data: seq<GameObject.ObjectSnapshot>)
    requires LoadedUpTo(m0, m, data, |data|)
    ensures Extends(m0, m, SnapIds(data))
  {
    forall k | k in SnapIds(data) ensures k in m {
      var s :| s in data && s.id == k;
      var j :| 0 <= j < |data| && data[j] == s;
    }
  }

  /** The player a view event names; other kinds name none. */
  function ViewerOf(e: Event): string
  {
    if e.kind.ViewEvent? then e.kind.viewPlayerId else ""
  }

  /** A finished pass over `bus0` that dispatched `d` left `bus`: `d`
    * covers the bus and what was produced, and `bus` is `AfterPass`. */
  ghost predicate PassOver(bus0: map<Id, Event>, bus: map<Id, Event>, d: seq<Event>, now: int, respond: Responder)
  {
    Closed(bus0, d, now, respond) && bus == AfterPass(bus0, d, now, respond)
  }

  /** Every entry of `m` is an entry of `m0`. */
  ghost predicate Shrinks<K, V>(m0: map<K, V>, m: map<K, V>)
  {
    forall k :: k in m ==> k in m0 && m[k] == m0[k]
  }

  /** When dispatching `e` raises: a periodic event with `last_run` set
    * and no interval (`TypeError`), a view event whose player has no camera
    * (`hasCamera` false) or an object event whose object is not among
    * `objects` (`AttributeError`); nothing else raises. */
  predicate Fails(e: Event, now: int, hasCamera: bool, objects: set<Id>)
  {
    match e.kind
    case PeriodicEvent(_, _) => PeriodicRun(e, now).Err?
    case ViewEvent(_, _) => !hasCamera
    case ObjectEvent(target, _) => target !in objects
    case _ => false
  }

  class GameContext {
    const em: EventManager
    const om: ObjectTable.GObjectManager
    const pe: Physics.GridPhysicsEngine
    const pm: PlayerTable.PlayerManager
    /** the shared `gen_id` counter */
    const ids: Ids.IdGen
    /** the global `clock` */
    const clock: Clock.StepClock
    /** `config.client_only_mode` */
    const clientOnlyMode: bool
    /** client id -> remote client */
    var remoteClients: map<string, RemoteClients.RemoteClient>
    var stepCounter: nat

    ghost predicate Valid()
      reads this`remoteClients, em, om, pe, pe.space, ids
    {
      && pe.em == em && pe.ids == ids && em.Valid() && om.Valid() && pe.Valid()
      && (forall k :: k in remoteClients ==> remoteClients[k].id == k)
    }

    /** `initialize`: fresh tables around the given clock and id counter;
      * the content's own loading is not part of this model. */
    constructor (tileSize: nat, ids: Ids.IdGen, clock: Clock.StepClock, clientOnlyMode: bool)
      requires tileSize > 0 && ids.Valid()
      ensures Valid() && this.ids == ids && this.clock == clock && this.clientOnlyMode == clientOnlyMode
      ensures em.events == map[] && om.objects == map[] && pm.playersMap == map[]
      ensures pe.space.tracked == map[] && pe.positionUpdates == []
      ensures remoteClients == map[] && stepCounter == 0
    {
      var bus := new EventManager();
      em := bus;
      om := new ObjectTable.GObjectManager();
      pe := new Physics.GridPhysicsEngine(tileSize, bus, ids);
      pm := new PlayerTable.PlayerManager();
      this.ids := ids;
      this.clock := clock;
      this.clientOnlyMode := clientOnlyMode;
      remoteClients := map[];
      stepCounter := 0;
    }

    /** `get_remote_client`: the client registered under the id, or a new
      * one registered under it. */
    method GetRemoteClient(clientId: string) returns (c: RemoteClients.RemoteClient)
      requires Valid()
      modifies this`remoteClients
      ensures Valid()
      ensures clientId in old(remoteClients) ==> c == old(remoteClients)[clientId] && remoteClients == old(remoteClients)
      ensures clientId !in old(remoteClients) ==>
                fresh(c) && c.id == clientId && c.outgoingEvents == [] && c.playerId.None?
                && remoteClients == old(remoteClients)[clientId := c]
    {
      if clientId in remoteClients {
        c := remoteClients[clientId];
      } else {
        c := new RemoteClients.RemoteClient(clientId);
        remoteClients := remoteClients[c.id := c];
      }
    }

    /** `add_event`: onto the bus, and onto the outgoing queue of every
      * remote client when it is a client event. */
    method AddEvent(e: Event)
      requires Valid()
      modifies em, remoteClients.Values`outgoingEvents
      ensures Valid()
      ensures em.events == old(em.events)[e.id := e]
      ensures forall k :: k in remoteClients ==>
                remoteClients[k].outgoingEvents == old(remoteClients[k].outgoingEvents) + if e.isClientEvent then [e] else []
    {
      em.AddEvent(e);
      if e.isClientEvent {
        var todo := remoteClients.Keys;
        while todo != {}
          invariant todo <= remoteClients.Keys
          invariant Valid() && em.events == old(em.events)[e.id := e]
          invariant forall k :: k in remoteClients ==>
                      remoteClients[k].outgoingEvents == old(remoteClients[k].outgoingEvents) + if k in todo then [] else [e]
          decreases todo
        {
          var k := Pick(todo);
          remoteClients[k].AddEvent(e);
          todo := todo - {k};
        }
      }
    }

    /** `remove_object_by_id`: the removal is only queued, as a
      * `RemoveObjectEvent` with a fresh id, for the next pass over the bus
      * (and for every remote client); the object table is not touched. */
    method RemoveObjectById(objId: Id)
      requires Valid()
      modifies em, ids, remoteClients.Values`outgoingEvents
      ensures Valid()
      ensures ids.uid == old(ids.uid) + 1 && ids.uid !in old(ids.issued)
      ensures em.events == old(em.events)[ids.uid := Build(ids.uid, RemoveObjectEvent(objId), None, None, None, clock.tickTime)]
      ensures forall k :: k in remoteClients ==>
                remoteClients[k].outgoingEvents == old(remoteClients[k].outgoingEvents) + [em.events[ids.uid]]
    {
      var now := clock.GetTicks();
      var e := NewEvent(ids, RemoveObjectEvent(objId), None, None, None, None, now);
      AddEvent(e);
    }

    /** `add_object`: stamped with the current tick, put in the table and
      * handed to the physics engine. */
    method AddObject(obj: GameObject.GObject)
      requires Valid()
      modifies om, pe.space, em, ids, obj`position, obj`lastChange, obj`positionCallbackInstalled
      ensures Valid()
      ensures om.objects == old(om.objects)[obj.id := obj]
      ensures obj.lastChange == Some(clock.tickTime) && obj.position == old(obj.position)
      ensures obj.positionCallbackInstalled
      ensures old(obj.position).Some? ==>
                pe.space.objToCoord == old(pe.space.objToCoord)[obj.id := Rounding.VecToCoord(old(obj.position).value, pe.tileSize)]
      ensures ids.uid == old(ids.uid) + 1 && ids.uid in em.events && em.events[ids.uid].kind.PositionChangeEvent?
    {
      var now := clock.GetTicks();
      obj.SetLastChange(now);
      om.Add(obj);
      pe.AddObject(obj, now);
    }

    /** `get_sound_events`: the sound ids of the sound events on the bus,
      * which are then taken off it; the ghost `keys` lists the ids of those
      * events in the order their sound ids are returned. */
    method GetSoundEvents() returns (soundIds: seq<Option<string>>, ghost keys: seq<Id>)
      requires Valid()
      modifies em
      ensures Valid()
      ensures em.events == old(em.events) - SoundKeys(old(em.events))
      ensures |keys| == |soundIds| && (forall i, j :: 0 <= i < j < |keys| ==> keys[i] != keys[j])
      ensures forall k :: k in SoundKeys(old(em.events)) ==> k in keys
      ensures forall i :: 0 <= i < |keys| ==>
                keys[i] in SoundKeys(old(em.events)) && soundIds[i] == old(em.events)[keys[i]].kind.soundId
    {
      var bus := em.events;
      var todo := bus.Keys;
      var toRemove: seq<Id> := [];
      soundIds := [];
      while todo != {}
        invariant Valid() && em.events == bus && todo <= bus.Keys
        invariant forall k :: k in toRemove <==> k in bus && k !in todo && bus[k].kind.SoundEvent?
        invariant |soundIds| == |toRemove|
        invariant forall i :: 0 <= i < |toRemove| ==> soundIds[i] == bus[toRemove[i]].kind.soundId
        invariant forall i, j :: 0 <= i < j < |toRemove| ==> toRemove[i] != toRemove[j]
        decreases todo
      {
        var k := Pick(todo);
        if bus[k].kind.SoundEvent? {
          soundIds := soundIds + [bus[k].kind.soundId];
          toRemove := toRemove + [k];
        }
        todo := todo - {k};
      }
      keys := toRemove;
      assert IdSet(toRemove) == SoundKeys(bus);
      RemoveEvents(toRemove);
    }

    /** The removal loops of `get_sound_events` and `run_event_processing`:
      * `remove_event_by_id` for each id in turn. */
    method RemoveEvents(rs: seq<Id>)
      requires Valid()
      modifies em
      ensures Valid()
      ensures em.events == old(em.events) - IdSet(rs)
    {
      var i := 0;
      while i < |rs|
        invariant 0 <= i <= |rs| && Valid()
        invariant em.events == old(em.events) - IdSet(rs[..i])
      {
        em.RemoveEventById(rs[i]);
        assert rs[..i + 1] == rs[..i] + [rs[i]];
        i := i + 1;
      }
      assert rs[..i] == rs;
    }

    /** `_process_remove_object_event`: an object still in the table is
      * stamped, taken out of the grid and out of the table; an id no longer
      * there is ignored. */
    method ProcessRemoveObjectEvent(objectId: Id, now: int)
      requires Valid()
      modifies om, pe.space, om.objects.Values`lastChange
      ensures Valid()
      ensures objectId !in old(om.objects) ==>
                om.objects == old(om.objects) && pe.space.tracked == old(pe.space.tracked)
                && pe.space.objToCoord == old(pe.space.objToCoord)
      ensures objectId in old(om.objects) ==>
                om.objects == old(om.objects) - {objectId} && old(om.objects)[objectId].lastChange == Some(now)
                && pe.space.tracked == old(pe.space.tracked) - {objectId}
                && pe.space.objToCoord == old(pe.space.objToCoord) - {objectId}
    {
      var obj := om.GetById(objectId);
      if obj.Some? {
        obj.value.SetLastChange(now);
        pe.RemoveObject(obj.value);
        var removed := om.RemoveById(obj.value.id);
      }
    }

    /** Whether the player named by a view event has a camera. */
    ghost predicate HasCamera(playerId: string)
      reads this, pm, pm.playersMap.Values
    {
      playerId in pm.playersMap && pm.playersMap[playerId].camera.Some?
    }

    /** `_process_view_event`: the player's camera moves by the event's
      * distance; a missing player or camera raises `AttributeError`. */
    method ProcessViewEvent(playerId: string, diff: int) returns (err: Option<Error>)
      modifies pm.playersMap.Values`camera
      ensures err.Some? <==> !old(HasCamera(playerId))
      ensures err.Some? ==> err.value.AttributeError? && unchanged(pm.playersMap.Values`camera)
      ensures err.None? ==>
                pm.playersMap[playerId].camera
                == Some(old(pm.playersMap[playerId].camera.value).(distance := old(pm.playersMap[playerId].camera.value.distance) + diff))
    {
      var p := pm.GetPlayer(Players.StrUid(playerId));
      if p.None? {
        return Some(AttributeError("get_camera"));
      }
      var cam := p.value.camera;
      if cam.None? {
        return Some(AttributeError("distance"));
      }
      p.value.camera := Some(cam.value.(distance := cam.value.distance + diff));
      err := None;
    }

    /** One branch of `run_event_processing` for the popped event `e` at
      * tick `now`; `respond` stands for the content handlers. It raises
      * exactly when `Fails` says (see there); otherwise it returns
      * `Outcome` and leaves the bus as `Rearm` says. Only a removal event
      * changes the object table. */
    method Dispatch(e: Event, now: int, respond: Responder) returns (r: Result<RunResult>)
      requires Valid()
      modifies em, om, pe.space, om.objects.Values`lastChange, pm.playersMap.Values`camera
      ensures Valid()
      ensures r.Err? <==> Fails(e, now, old(HasCamera(ViewerOf(e))), old(om.objects.Keys))
      ensures r.Ok? ==> r.value == Outcome(e, now, respond) && em.events == Rearm(old(em.events), e, now)
      ensures om.objects == if e.kind.RemoveObjectEvent? then old(om.objects) - {e.kind.objectId} else old(om.objects)
    {
      if e.kind.ViewEvent? {
        r := DispatchView(e, now, respond);
      } else if e.kind.RemoveObjectEvent? {
        r := DispatchRemove(e, now, respond);
      } else if e.kind.PeriodicEvent? {
        r := RunPeriodic(e, now, respond);
      } else if e.kind.ObjectEvent? {
        r := DispatchObject(e, now, respond);
      } else {
        r := Ok(Outcome(e, now, respond));
      }
    }

    /** The view branch of `Dispatch`: it fails exactly when the viewer has
      * no camera, and otherwise has no follow-ups and is removed. */
    method DispatchView(e: Event, now: int, respond: Responder) returns (r: Result<RunResult>)
      requires e.kind.ViewEvent?
      modifies pm.playersMap.Values`camera
      ensures r.Err? <==> !old(HasCamera(ViewerOf(e)))
      ensures r.Ok? ==> r.value == Outcome(e, now, respond)
    {
      var err := ProcessViewEvent(e.kind.viewPlayerId, e.kind.distanceDiff);
      r := if err.Some? then Err(err.value) else Ok(RunResult([], true));
    }

    /** The removal branch of `Dispatch`: the object leaves the tables; the
      * event has no follow-ups and is removed. */
    method DispatchRemove(e: Event, now: int, respond: Responder) returns (r: Result<RunResult>)
      requires Valid() && e.kind.RemoveObjectEvent?
      modifies om, pe.space, om.objects.Values`lastChange
      ensures Valid() && r == Ok(Outcome(e, now, respond))
      ensures om.objects == old(om.objects) - {e.kind.objectId}
    {
      ProcessRemoveObjectEvent(e.kind.objectId, now);
      r := Ok(RunResult([], true));
    }

    /** The object-event branch of `Dispatch`: it fails exactly when the
      * target is not in the object table. */
    method DispatchObject(e: Event, now: int, respond: Responder) returns (r: Result<RunResult>)
      requires Valid() && e.kind.ObjectEvent?
      ensures r.Err? <==> e.kind.targetId !in om.objects
      ensures r.Ok? ==> r.value == Outcome(e, now, respond)
    {
      var obj := om.GetById(e.kind.targetId);
      r := if obj.None? then Err(AttributeError("'NoneType' object has no attribute")) else Ok(RunResult(respond(e), true));
    }

    /** The periodic branch: `run()` may raise; otherwise the event on the
      * bus takes its new `last_run`. */
    method RunPeriodic(e: Event, now: int, respond: Responder) returns (r: Result<RunResult>)
      requires Valid() && e.kind.PeriodicEvent?
      modifies em
      ensures Valid()
      ensures r.Err? <==> PeriodicRun(e, now).Err?
      ensures r.Ok? ==> r.value == Outcome(e, now, respond) && em.events == Rearm(old(em.events), e, now)
    {
      var run := PeriodicRun(e, now);
      if run.Err? {
        return Err(run.error);
      }
      PeriodicRunAgrees(e, now, respond);
      if e.id in em.events && em.events[e.id] == e {
        em.AddEvent(run.value.updated);
      }
      r := Ok(run.value.result);
    }

    /** `run_event_processing`: events are popped from a working set that
      * starts as the bus and takes in every follow-up event, until it is
      * empty; then the follow-ups are added to the bus and the marked events
      * removed. The pass is cut off after `fuel` events (`Timeout`); the
      * ghost `dispatched` lists the events in the order they were popped. */
    method RunEventProcessing(respond: Responder, fuel: nat) returns (err: Option<Error>, ghost dispatched: seq<Event>)
      requires Valid()
      modifies em, om, pe.space, om.objects.Values`lastChange, pm.playersMap.Values`camera
      ensures Valid()
      ensures err.None? ==> PassOver(old(em.events), em.events, dispatched, clock.tickTime, respond)
      ensures Shrinks(old(om.objects), om.objects)
    {
      var now := clock.GetTicks();
      ghost var bus0 := em.events;
      var pending: set<Event> := set k | k in em.events :: em.events[k];
      PassStart(bus0, now, respond);
      var allNew, toRemove;
      err, dispatched, allNew, toRemove := Drain(bus0, pending, now, respond, fuel);
      if err.None? {
        FinishPass(bus0, dispatched, allNew, toRemove, now, respond);
      }
    }

    /** The loop of `run_event_processing`: events are popped from the
      * working set and dispatched until it is empty, an event raises or
      * the fuel runs out (`Timeout`). */
    method Drain(ghost bus0: map<Id, Event>, pending0: set<Event>, now: int, respond: Responder, fuel: nat)
      returns (err: Option<Error>, ghost dispatched: seq<Event>, allNew: seq<Event>, toRemove: seq<Id>)
      requires Valid() && InPass(bus0, em.events, [], pending0, [], [], now, respond)
      modifies em, om, pe.space, om.objects.Values`lastChange, pm.playersMap.Values`camera
      ensures Valid() && Shrinks(old(om.objects), om.objects)
      ensures err.None? ==> InPass(bus0, em.events, dispatched, {}, allNew, toRemove, now, respond)
    {
      ghost var m0 := om.objects;
      var pending := pending0;
      var left := fuel;
      err, dispatched, allNew, toRemove := None, [], [], [];
      while pending != {} && err.None?
        invariant Valid() && Shrinks(m0, om.objects)
        invariant err.None? ==> InPass(bus0, em.events, dispatched, pending, allNew, toRemove, now, respond)
        decreases left, |pending| + (if err.None? then 1 else 0)
      {
        if left == 0 {
          err := Some(Timeout);
        } else {
          ghost var e;
          err, e, pending, allNew, toRemove := PassStep(bus0, dispatched, pending, allNew, toRemove, now, respond);
          dispatched := dispatched + [e];
          left := left - 1;
        }
      }
    }

    /** The end of `run_event_processing`: `add_events(all_new_events)`,
      * then `remove_event_by_id` for each marked event; the bus is then
      * what `AfterPass` says of the whole pass. */
    method FinishPass(ghost bus0: map<Id, Event>, ghost d: seq<Event>, allNew: seq<Event>, toRemove: seq<Id>,
                      now: int, respond: Responder)
      requires Valid() && InPass(bus0, em.events, d, {}, allNew, toRemove, now, respond)
      modifies em
      ensures Valid()
      ensures PassOver(bus0, em.events, d, now, respond)
    {
      PassDone(bus0, em.events, d, allNew, toRemove, now, respond);
      em.AddEvents(allNew);
      RemoveEvents(toRemove);
    }

    /** One round of the loop of `run_event_processing`: an event is
      * popped from the working set and dispatched; what it returns joins
      * the working set and `all_new_events`, and a marked event joins
      * `events_to_remove`. */
    method PassStep(ghost bus0: map<Id, Event>, ghost d: seq<Event>, pending: set<Event>, allNew: seq<Event>,
                    toRemove: seq<Id>, now: int, respond: Responder)
      returns (err: Option<Error>, ghost e: Event, pending': set<Event>, allNew': seq<Event>, toRemove': seq<Id>)
      requires Valid() && pending != {} && InPass(bus0, em.events, d, pending, allNew, toRemove, now, respond)
      modifies em, om, pe.space, om.objects.Values`lastChange, pm.playersMap.Values`camera
      ensures Valid()
      ensures err.None? ==> InPass(bus0, em.events, d + [e], pending', allNew', toRemove', now, respond)
      ensures Shrinks(old(om.objects), om.objects)
    {
      var x := Pick(pending);
      e := x;
      pending', allNew', toRemove' := pending, allNew, toRemove;
      var r := Dispatch(x, now, respond);
      if r.Err? {
        return Some(r.error), e, pending', allNew', toRemove';
      }
      PassAdvance(bus0, old(em.events), d, pending, allNew, toRemove, now, respond, x);
      err := None;
      pending' := (pending - {x}) + (set y | y in r.value.newEvents);
      allNew' := allNew + r.value.newEvents;
      if r.value.remove {
        toRemove' := toRemove + [x.id];
      }
    }

    /** `create_snapshot_for_client`: the objects changed since the client's
      * last snapshot, every player, and the client's queued events (which
      * are taken off its queue), stamped with the current tick. An object
      * that never changed makes the comparison raise before the queue is
      * touched. */
    method CreateSnapshotForClient(client: RemoteClients.RemoteClient) returns (ts: int, r: Result<ClientSnapshot>)
      modifies client`outgoingEvents
      ensures ts == clock.tickTime
      ensures r.Err? <==> exists id :: id in om.objects && om.objects[id].lastChange.None?
      ensures r.Err? ==> r.error.TypeError? && client.outgoingEvents == old(client.outgoingEvents)
      ensures r.Ok? ==> r.value.timestamp == ts && client.outgoingEvents == []
      ensures r.Ok? ==> forall s :: s in r.value.om <==>
                exists id :: id in om.objects && om.objects[id].lastChange.value >= client.lastSnapshotTimeMs
                             && s == om.objects[id].Snapshot()
      ensures r.Ok? ==> r.value.pm.Keys == set p | p in pm.playersMap.Values :: p.uid
      ensures r.Ok? ==> |r.value.em| == |old(client.outgoingEvents)|
                        && forall i :: 0 <= i < |r.value.em| ==> r.value.em[i] == Snap(old(client.outgoingEvents)[i])
    {
      ts := clock.GetTicks();
      var objs := om.GetSnapshotUpdate(client.lastSnapshotTimeMs);
      if objs.Err? {
        return ts, Err(objs.error);
      }
      var players := pm.GetSnapshot();
      var events := client.PullEventsSnapshot();
      r := Ok(ClientSnapshot(objs.value, players, events, ts));
    }

    /** `load_object_snapshot`: each entry is loaded in turn, see
      * `LoadObject`; the table gains the ids of the entries and keeps every
      * object it had, and the objects it gains are new ones. */
    method LoadObjectSnapshot(data: seq<GameObject.ObjectSnapshot>, sensorType: int)
      requires Valid()
      modifies om, pe.space, em, ids, om.objects.Values
      ensures Valid()
      ensures Extends(old(om.objects), om.objects, SnapIds(data))
      ensures forall k :: k in om.objects && k !in old(om.objects) ==> fresh(om.objects[k])
    {
      ghost var m0 := om.objects;
      ghost var all := SnapIds(data);
      var i := 0;
      while i < |data|
        invariant 0 <= i <= |data| && Valid()
        invariant LoadedUpTo(m0, om.objects, data, i)
        invariant forall k :: k in om.objects && k !in m0 ==> fresh(om.objects[k])
      {
        ghost var m1 := om.objects;
        LoadObject(data[i], sensorType);
        ObjectsLoadedNext(m0, m1, om.objects, data, i);
        i := i + 1;
      }
      LoadedAllIds(m0, om.objects, data);
    }

    /** One entry of `load_object_snapshot`: loaded into the object of the
      * table with its id (shapes re-stamped, see `GObject.LoadSnapshot`),
      * or built into a new object that is added like any other, which
      * stamps it with the current tick. */
    method LoadObject(s: GameObject.ObjectSnapshot, sensorType: int)
      requires Valid()
      modifies om, pe.space, em, ids, if s.id in om.objects then {om.objects[s.id]} else {}
      ensures Valid()
      ensures Extends(old(om.objects), om.objects, {s.id})
      ensures s.id in old(om.objects) ==> om.objects[s.id].Snapshot() == s.(shapes := om.objects[s.id].shapes)
      ensures s.id !in old(om.objects) ==>
                fresh(om.objects[s.id])
                && om.objects[s.id].Snapshot() == s.(shapes := om.objects[s.id].shapes, lastChange := Some(clock.tickTime))
    {
      var current := om.GetById(s.id);
      if current.None? {
        LoadNewObject(s, sensorType);
      } else {
        current.value.LoadSnapshot(s, sensorType);
      }
    }

    /** The branch of `load_object_snapshot` for an id not in the table:
      * `create_from_snapshot`, then `add_object`. */
    method LoadNewObject(s: GameObject.ObjectSnapshot, sensorType: int)
      requires Valid() && s.id !in om.objects
      modifies om, pe.space, em, ids
      ensures Valid()
      ensures s.id in om.objects && om.objects == old(om.objects)[s.id := om.objects[s.id]]
      ensures fresh(om.objects[s.id])
      ensures om.objects[s.id].Snapshot() == s.(shapes := om.objects[s.id].shapes, lastChange := Some(clock.tickTime))
    {
      var obj := new GameObject.GObject.FromSnapshot(ids, s, sensorType);
      AddObject(obj);
    }

    /** `new_player` of the survival content: without a given id, the
      * player of the table that belongs to the client is reused, and
      * failing that a fresh id is drawn; a player already filed under the
      * id is returned as it is, otherwise a new one with a camera is filed.
      * `mapDistance` is the map's size in pixels an admin's camera takes. */
    method NewPlayer(clientId: string, givenId: Option<Players.Uid>, playerType: Datum, isHuman: bool,
                     defaultDistance: int, mapDistance: int) returns (p: Players.Player, ghost uid: Players.Uid)
      requires Valid()
      modifies pm, ids
      ensures Valid()
      ensures givenId.Some? ==> uid == givenId.value
      ensures givenId.None? && old(ClientHasPlayer(pm.playersMap, clientId)) ==>
                uid.StrUid? && uid.s in old(pm.playersMap) && old(pm.playersMap[uid.s].clientId) == Some(clientId)
      ensures givenId.None? && !old(ClientHasPlayer(pm.playersMap, clientId)) ==> uid == Players.IntUid(old(ids.uid) + 1)
      ensures Players.Str(uid) in old(pm.playersMap) ==> p == old(pm.playersMap)[Players.Str(uid)] && pm.playersMap == old(pm.playersMap)
      ensures Players.Str(uid) !in old(pm.playersMap) ==>
                fresh(p) && pm.playersMap == old(pm.playersMap)[Players.Str(uid) := p]
                && p.uid == uid && p.clientId == Some(clientId) && p.playerType == playerType && p.isHuman == isHuman
                && p.camera == Some(Players.Camera(None, CameraDistance(playerType, defaultDistance, mapDistance)))
    {
      var u := ChooseUid(clientId, givenId);
      uid := u;
      var existing := pm.GetPlayer(u);
      if existing.Some? {
        p := existing.value;
      } else {
        var camera := Players.Camera(None, CameraDistance(playerType, defaultDistance, mapDistance));
        p := new Players.Player(Some(clientId), u, None, playerType, Some(camera), isHuman);
        pm.AddPlayer(p);
      }
    }

    /** The id `new_player` files its player under: the given one, else the
      * id of a player of the client, else a fresh one. */
    method ChooseUid(clientId: string, givenId: Option<Players.Uid>) returns (u: Players.Uid)
      requires Valid()
      modifies ids
      ensures Valid() && pm.playersMap == old(pm.playersMap)
      ensures givenId.Some? ==> u == givenId.value
      ensures givenId.None? && ClientHasPlayer(pm.playersMap, clientId) ==>
                u.StrUid? && u.s in pm.playersMap && pm.playersMap[u.s].clientId == Some(clientId)
      ensures givenId.None? && !ClientHasPlayer(pm.playersMap, clientId) ==> u == Players.IntUid(old(ids.uid) + 1)
    {
      if givenId.Some? {
        u := givenId.value;
      } else {
        var found := FindClientPlayer(clientId);
        if found.Some? {
          u := Players.StrUid(found.value);
        } else {
          var n := ids.GenId();
          u := Players.IntUid(n);
        }
      }
    }

    /** The search of `new_player` for a player of the client: the key of
      * one such player, or nothing when the client has none. */
    method FindClientPlayer(clientId: string) returns (found: Option<string>)
      ensures found.None? <==> !ClientHasPlayer(pm.playersMap, clientId)
      ensures found.Some? ==> found.value in pm.playersMap && pm.playersMap[found.value].clientId == Some(clientId)
    {
      found := None;
      var todo := pm.playersMap.Keys;
      while todo != {}
        invariant todo <= pm.playersMap.Keys
        invariant found.None? <==> forall k :: k in pm.playersMap.Keys - todo ==> pm.playersMap[k].clientId != Some(clientId)
        invariant found.Some? ==> found.value in pm.playersMap && pm.playersMap[found.value].clientId == Some(clientId)
        decreases todo
      {
        var k := Pick(todo);
        if pm.playersMap[k].clientId == Some(clientId) {
          found := Some(k);
        }
        todo := todo - {k};
      }
    }

    /** `get_player`: a client without a player gets one from `new_player`
      * and remembers its id; otherwise its player is looked up. */
    method GetPlayer(client: RemoteClients.RemoteClient, playerType: Datum, isHuman: bool,
                     defaultDistance: int, mapDistance: int) returns (p: Option<Players.Player>)
      requires Valid()
      modifies pm, ids, client`playerId
      ensures Valid()
      ensures old(client.playerId).Some? ==>
                p == pm.GetPlayer(old(client.playerId).value) && pm.playersMap == old(pm.playersMap)
                && client.playerId == old(client.playerId)
      ensures old(client.playerId).None? ==>
                p.Some? && client.playerId == Some(p.value.uid) && p.value in pm.playersMap.Values
    {
      if client.playerId.None? {
        var created;
        ghost var uid;
        created, uid := NewPlayer(client.id, None, playerType, isHuman, defaultDistance, mapDistance);
        assert pm.playersMap[Players.Str(uid)] == created;
        client.playerId := Some(created.uid);
        p := Some(created);
      } else {
        p := pm.GetPlayer(client.playerId.value);
      }
    }

    /** `run_physics_processing`: the engine resolves the buffered moves at
      * the current tick, see `GridPhysicsEngine.Update`: the index, the id
      * counter, the bus and the confirmations follow `Pass` over the moves,
      * and each committed request's object stands at its requested
      * position stamped with the tick. */
    method RunPhysics(decide: (nat, Id, Id) -> bool) returns (confirmed: seq<nat>)
      requires Valid()
      requires forall j :: 0 <= j < |pe.positionUpdates| ==> Physics.Resolvable(pe.positionUpdates[j])
      modifies pe`positionUpdates, pe.space, em, ids, pe.Movers()`position, pe.Movers()`lastChange
      ensures Valid() && pe.positionUpdates == []
      ensures var p := Physics.Pass(old(pe.View()), old(Physics.MovesOf(pe.positionUpdates, pe.tileSize)),
                                    pe.collisionCallbacks, decide);
              && pe.View() == p.grid
              && ids.uid == old(ids.uid) + |p.commits|
              && em.events == AddedAll(old(em.events), Physics.ChangeEvents(p.commits, old(ids.uid), clock.tickTime))
              && confirmed == Physics.Confirmations(p.commits)
      ensures Physics.Placed(Physics.Stamps(old(pe.positionUpdates)), old(Physics.Stamps(pe.positionUpdates)),
                             old(pe.View()), old(Physics.MovesOf(pe.positionUpdates, pe.tileSize)),
                             |old(pe.positionUpdates)|, pe.collisionCallbacks, decide, clock.tickTime)
      ensures forall j :: 0 <= j < |old(pe.positionUpdates)| ==>
                var r := old(pe.positionUpdates)[j];
                || r.obj.position == old(r.obj.position)
                || (r.obj.position == Some(Physics.RequestedPos(r)) && r.obj.lastChange == Some(clock.tickTime as int))
    {
      ghost var rs := pe.positionUpdates;
      // the engine reads `clock.get_ticks()`, the clock's tick count
      confirmed := pe.Update(clock.tickTime, decide);
      Physics.PlacedMoved(rs, Physics.Stamps(rs), old(Physics.Stamps(pe.positionUpdates)), old(pe.View()),
                          old(Physics.MovesOf(pe.positionUpdates, pe.tileSize)), pe.tileSize, pe.collisionCallbacks, decide, clock.tickTime);
    }

    /** `run_step`: one pass over the bus; unless the game runs in client
      * only mode, the physics engine resolves the buffered moves; the clock
      * advances and the step is counted. `decide` stands for the collision
      * callbacks' answers; an error of the pass ends the step. */
    method RunStep(respond: Responder, fuel: nat, decide: (nat, Id, Id) -> bool)
      returns (err: Option<Error>, confirmed: seq<nat>)
      requires Valid()
      requires forall j :: 0 <= j < |pe.positionUpdates| ==> Physics.Resolvable(pe.positionUpdates[j])
      modifies em, om, pe.space, om.objects.Values`lastChange, pm.playersMap.Values`camera
      modifies pe`positionUpdates, ids, pe.Movers()`position, pe.Movers()`lastChange, clock, this`stepCounter
      ensures Valid()
      ensures err.None? ==> clock.tickTime == old(clock.tickTime) + 1 && stepCounter == old(stepCounter) + 1
      ensures err.Some? ==> clock.tickTime == old(clock.tickTime) && stepCounter == old(stepCounter)
      ensures err.None? && clientOnlyMode ==> pe.positionUpdates == old(pe.positionUpdates) && confirmed == []
      ensures err.None? && !clientOnlyMode ==> pe.positionUpdates == []
      ensures err.None? && !clientOnlyMode ==>
                forall j :: 0 <= j < |old(pe.positionUpdates)| ==>
                  var r := old(pe.positionUpdates)[j];
                  || r.obj.position == old(r.obj.position)
                  || (r.obj.position == Some(Physics.RequestedPos(r)) && r.obj.lastChange == Some(old(clock.tickTime) as int))
    {
      confirmed := [];
      ghost var dispatched;
      err, dispatched := RunEventProcessing(respond, fuel);
      if err.Some? {
        return;
      }
      confirmed := FinishStep(decide);
    }

    /** The rest of `run_step` once the pass is over: the physics engine
      * resolves the buffered moves unless the game runs in client only
      * mode, then the clock advances and the step is counted. */
    method FinishStep(decide: (nat, Id, Id) -> bool) returns (confirmed: seq<nat>)
      requires Valid()
      requires forall j :: 0 <= j < |pe.positionUpdates| ==> Physics.Resolvable(pe.positionUpdates[j])
      modifies pe`positionUpdates, pe.space, em, ids, pe.Movers()`position, pe.Movers()`lastChange, clock, this`stepCounter
      ensures Valid()
      ensures clock.tickTime == old(clock.tickTime) + 1 && stepCounter == old(stepCounter) + 1
      ensures clientOnlyMode ==> pe.positionUpdates == old(pe.positionUpdates) && confirmed == []
      ensures !clientOnlyMode ==> pe.positionUpdates == []
      ensures !clientOnlyMode ==>
                forall j :: 0 <= j < |old(pe.positionUpdates)| ==>
                  var r := old(pe.positionUpdates)[j];
                  || r.obj.position == old(r.obj.position)
                  || (r.obj.position == Some(Physics.RequestedPos(r)) && r.obj.lastChange == Some(old(clock.tickTime) as int))
    {
      confirmed := [];
      if !clientOnlyMode {
        confirmed := RunPhysics(decide);
      }
      CountStep();
    }

    /** The end of `run_step`: the clock advances and the step is counted. */
    method CountStep()
      modifies clock, this`stepCounter
      ensures clock.tickTime == old(clock.tickTime) + 1 && stepCounter == old(stepCounter) + 1
    {
      var t := clock.Tick();
      stepCounter := stepCounter + 1;
    }
  }
}
