/** `EventManager` of `landia/event_manager.py`: the event bus, a table
  * from event id to event, with snapshot export and import. */
module EventBus {
  import opened Base
  import opened Events

  /** A bus snapshot entry: the `_type` class name and the event's fields. */
  datatype EventSnap = EventSnap(typeName: string, data: Event)

  /** `e.get_snapshot()`. */
  function Snap(e: Event): (s: EventSnap)
    ensures s.data == e && s.typeName == TypeName(e.kind)
  {
    EventSnap(TypeName(e.kind), e)
  }

  /** Whether `cls(**data)` succeeds: the class is the one the name looks
    * up, and it is not a delayed or periodic event, whose constructors
    * require a `func` that a snapshot never records (a function is not
    * among the attribute kinds a snapshot writes), so they raise
    * `TypeError`. */
  predicate Builds(s: EventSnap)
  {
    s.typeName == TypeName(s.data.kind) && !s.data.kind.DelayedEvent? && !s.data.kind.PeriodicEvent?
  }

  /** `build_event_from_dict` at tick `now`: the class is looked up by its
    * name and called with the recorded fields as keyword arguments. The
    * `Event` constructor turns a zero `creation_time` into the current
    * tick. An `ObjectEvent` passes none of the recorded `Event` fields on
    * (they land in its `kwargs`), so it is stamped with the current tick
    * and takes the default routing flags. */
  function BuildEvent(s: EventSnap, now: int): (r: Result<Event>)
    ensures r.Ok? <==> Builds(s)
    ensures s.typeName != TypeName(s.data.kind) ==> r == Err(NameError(s.typeName))
    ensures r.Ok? ==> r.value.id == s.data.id && r.value.kind == s.data.kind
    ensures r.Ok? && s.data.kind.ObjectEvent? ==>
              r.value.creationTime == now && !r.value.isClientEvent && r.value.isServerEvent
    ensures r.Ok? && !s.data.kind.ObjectEvent? ==>
              r.value.isClientEvent == s.data.isClientEvent && r.value.isServerEvent == s.data.isServerEvent
              && r.value.creationTime == (if s.data.creationTime == 0 then now else s.data.creationTime)
  {
    if s.typeName != TypeName(s.data.kind) then Err(NameError(s.typeName))
    else if s.data.kind.DelayedEvent? || s.data.kind.PeriodicEvent? then Err(TypeError("missing required argument: func"))
    else if s.data.kind.ObjectEvent? then Ok(Build(s.data.id, s.data.kind, None, None, None, now))
    else Ok(Build(s.data.id, s.data.kind, Some(s.data.creationTime), Some(s.data.isClientEvent),
                  Some(s.data.isServerEvent), now))
  }

  /** What building from an event's own snapshot gives back: the event
    * itself, for every kind but three, when its creation tick is not 0;
    * a zero creation tick becomes the current one; an object event is
    * re-stamped with the default flags; delayed and periodic events do
    * not come back. */
  lemma BuildSnapRoundTrip(e: Event, now: int)
    ensures e.kind.DelayedEvent? || e.kind.PeriodicEvent? ==> BuildEvent(Snap(e), now).Err?
    ensures e.kind.ObjectEvent? ==>
              BuildEvent(Snap(e), now) == Ok(e.(creationTime := now, isClientEvent := false, isServerEvent := true))
    ensures !e.kind.DelayedEvent? && !e.kind.PeriodicEvent? && !e.kind.ObjectEvent? ==>
              BuildEvent(Snap(e), now) == Ok(if e.creationTime == 0 then e.(creationTime := now) else e)
  {
  }

  /** Every entry is stored under its own id. */
  ghost predicate Keyed(m: map<Id, Event>)
  {
    forall k :: k in m ==> m[k].id == k
  }

  /** The bus after `add_events(es)`: one `add_event` after another. */
  function AddedAll(m: map<Id, Event>, es: seq<Event>): map<Id, Event>
  {
    if es == [] then m else AddedAll(m, es[..|es| - 1])[es[|es| - 1].id := es[|es| - 1]]
  }

  /** Adding one more event is one more `add_event`. */
  lemma AddedAllSnoc(m: map<Id, Event>, es: seq<Event>, e: Event)
    ensures AddedAll(m, es + [e]) == AddedAll(m, es)[e.id := e]
  {
    assert (es + [e])[..|es|] == es;
  }

  function IdsOf(es: seq<Event>): set<Id>
  {
    set e | e in es :: e.id
  }

  /** `add_events` puts every event on the bus, keeps every other entry,
    * and for an id added several times the last event wins. */
  lemma {:induction false} AddedAllSpec(m: map<Id, Event>, es: seq<Event>)
    ensures AddedAll(m, es).Keys == m.Keys + IdsOf(es)
    ensures forall k :: k in m && k !in IdsOf(es) ==> AddedAll(m, es)[k] == m[k]
    ensures forall i :: 0 <= i < |es| && (forall j :: i < j < |es| ==> es[j].id != es[i].id)
              ==> AddedAll(m, es)[es[i].id] == es[i]
    ensures Keyed(m) ==> Keyed(AddedAll(m, es))
  {
    AddedAllKeys(m, es);
    AddedAllKeeps(m, es);
    forall i | 0 <= i < |es| && (forall j :: i < j < |es| ==> es[j].id != es[i].id)
      ensures AddedAll(m, es)[es[i].id] == es[i]
    {
      AddedAllLastWins(m, es, i);
    }
    AddedAllKeyed(m, es);
  }

  lemma IdsOfSnoc(es: seq<Event>)
    requires es != []
    ensures IdsOf(es) == IdsOf(es[..|es| - 1]) + {es[|es| - 1].id}
  {
    assert es == es[..|es| - 1] + [es[|es| - 1]];
  }

  lemma {:induction false} AddedAllKeys(m: map<Id, Event>, es: seq<Event>)
    ensures AddedAll(m, es).Keys == m.Keys + IdsOf(es)
  {
    if es != [] {
      AddedAllKeys(m, es[..|es| - 1]);
      IdsOfSnoc(es);
    }
  }

  lemma {:induction false} AddedAllKeeps(m: map<Id, Event>, es: seq<Event>)
    ensures forall k :: k in m && k !in IdsOf(es) ==> k in AddedAll(m, es) && AddedAll(m, es)[k] == m[k]
  {
    if es != [] {
      AddedAllKeys(m, es[..|es| - 1]);
      AddedAllKeeps(m, es[..|es| - 1]);
      IdsOfSnoc(es);
    }
  }

  lemma {:induction false} AddedAllLastWins(m: map<Id, Event>, es: seq<Event>, i: nat)
    requires i < |es| && forall j :: i < j < |es| ==> es[j].id != es[i].id
    ensures es[i].id in AddedAll(m, es) && AddedAll(m, es)[es[i].id] == es[i]
  {
    if i < |es| - 1 {
      var init := es[..|es| - 1];
      assert init[i] == es[i];
      AddedAllLastWins(m, init, i);
    }
  }

  lemma {:induction false} AddedAllKeyed(m: map<Id, Event>, es: seq<Event>)
    ensures Keyed(m) ==> Keyed(AddedAll(m, es))
  {
    if es != [] {
      AddedAllKeyed(m, es[..|es| - 1]);
    }
  }

  /** The bus after `load_snapshot(data)`: an entry with a known id is
    * loaded into the existing event, an unknown one is built and added,
    * and one that fails to build is skipped. */
  function LoadedAll(m: map<Id, Event>, data: seq<EventSnap>, now: int): map<Id, Event>
  {
    if data == [] then m
    else
      var prev := LoadedAll(m, data[..|data| - 1], now);
      var s := data[|data| - 1];
      if s.data.id in prev then prev[s.data.id := s.data]
      else match BuildEvent(s, now)
        case Ok(e) => prev[s.data.id := e]
        case Err(_) => prev
  }

  /** The ids of the entries that build, in order. */
  function BuiltIds(data: seq<EventSnap>): set<Id>
  {
    if data == [] then {}
    else BuiltIds(data[..|data| - 1]) + (if Builds(data[|data| - 1]) then {data[|data| - 1].data.id} else {})
  }

  /** An entry that builds contributes its id. */
  lemma {:induction false} BuiltIdsComplete(data: seq<EventSnap>, i: nat)
    requires i < |data| && Builds(data[i])
    ensures data[i].data.id in BuiltIds(data)
  {
    if i < |data| - 1 {
      BuiltIdsComplete(data[..|data| - 1], i);
    }
  }

  /** Every id in `BuiltIds` comes from an entry that builds. */
  lemma {:induction false} BuiltIdsSound(data: seq<EventSnap>, k: Id)
    requires k in BuiltIds(data)
    ensures exists i :: 0 <= i < |data| && Builds(data[i]) && data[i].data.id == k
  {
    var init := data[..|data| - 1];
    if k in BuiltIds(init) {
      BuiltIdsSound(init, k);
      var i :| 0 <= i < |init| && Builds(init[i]) && init[i].data.id == k;
      assert data[i] == init[i];
    } else {
      assert Builds(data[|data| - 1]) && data[|data| - 1].data.id == k;
    }
  }

  /** The ids on the bus after a load are the old ones plus those of the
    * entries that build; no entry is lost and nothing else appears; every
    * entry stays under its own id. */
  lemma {:induction false} LoadedAllSpec(m: map<Id, Event>, data: seq<EventSnap>, now: int)
    ensures LoadedAll(m, data, now).Keys == m.Keys + BuiltIds(data)
    ensures Keyed(m) ==> Keyed(LoadedAll(m, data, now))
  {
    if data != [] {
      LoadedAllSpec(m, data[..|data| - 1], now);
    }
  }

  /** The ids among `done` of the input events. */
  function InputIds(evs: map<Id, Event>, done: set<Id>): set<Id>
  {
    set k | k in done && k in evs && evs[k].kind.InputEvent?
  }

  /** `r` holds the snapshots of the events `inputs`, one each. */
  ghost predicate SnapsOf(evs: map<Id, Event>, inputs: set<Id>, r: seq<EventSnap>)
  {
    && inputs <= evs.Keys
    && (forall s :: s in r ==> exists k :: k in inputs && s == Snap(evs[k]))
    && (forall k :: k in inputs ==> Snap(evs[k]) in r)
    && |r| == |inputs|
  }

  lemma InputIdsStep(evs: map<Id, Event>, done: set<Id>, k: Id)
    requires k in evs && k !in done
    ensures k !in InputIds(evs, done)
    ensures InputIds(evs, done + {k}) == InputIds(evs, done) + (if evs[k].kind.InputEvent? then {k} else {})
  {
  }

  lemma SnapsStep(evs: map<Id, Event>, inputs: set<Id>, r: seq<EventSnap>, k: Id)
    requires SnapsOf(evs, inputs, r) && k in evs && k !in inputs
    ensures SnapsOf(evs, inputs + {k}, r + [Snap(evs[k])])
  {
    var r' := r + [Snap(evs[k])];
    forall s | s in r' ensures exists j :: j in inputs + {k} && s == Snap(evs[j]) {
      if s !in r {
        assert s == Snap(evs[k]);
      }
    }
    assert |inputs + {k}| == |inputs| + 1;
  }

  /** The snapshots of all the input events. */
  lemma SnapsDone(evs: map<Id, Event>, r: seq<EventSnap>)
    requires SnapsOf(evs, InputIds(evs, evs.Keys), r)
    ensures forall s :: s in r <==> exists k :: k in evs && evs[k].kind.InputEvent? && s == Snap(evs[k])
    ensures |r| == |set k | k in evs && evs[k].kind.InputEvent?|
  {
    assert InputIds(evs, evs.Keys) == set k | k in evs && evs[k].kind.InputEvent?;
  }

  class EventManager {
    /** event id -> event */
    var events: map<Id, Event>

    ghost predicate Valid()
      reads this
    {
      Keyed(events)
    }

    constructor ()
      ensures Valid() && events == map[]
    {
      events := map[];
    }

    /** `add_event`: stored under its id, replacing an event with that id. */
    method AddEvent(e: Event)
      requires Valid()
      modifies this
      ensures Valid()
      ensures events == old(events)[e.id := e]
    {
      events := events[e.id := e];
    }

    /** `add_events`: `add_event` for each event in order. */
    method AddEvents(es: seq<Event>)
      requires Valid()
      modifies this
      ensures Valid()
      ensures events == AddedAll(old(events), es)
    {
      var i := 0;
      while i < |es|
        invariant 0 <= i <= |es|
        invariant events == AddedAll(old(events), es[..i])
        invariant Valid()
      {
        assert es[..i + 1][..i] == es[..i];
        events := events[es[i].id := es[i]];
        i := i + 1;
      }
      assert es[..|es|] == es;
    }

    /** `get_event_by_id`: an absent id raises `KeyError`. */
    function GetEventById(id: Id): (r: Result<Event>)
      reads this
      ensures r.Ok? <==> id in events
      ensures r.Ok? ==> r.value == events[id]
      ensures r.Err? ==> r.error == KeyError(id)
    {
      if id in events then Ok(events[id]) else Err(KeyError(id))
    }

    /** `remove_event_by_id`: `pop(id, None)`, a no-op for an absent id. */
    method RemoveEventById(id: Id)
      requires Valid()
      modifies this
      ensures Valid()
      ensures events == old(events) - {id}
      ensures id !in old(events) ==> events == old(events)
    {
      events := events - {id};
    }

    method Clear()
      modifies this
      ensures Valid() && events == map[]
    {
      events := map[];
    }

    /** `get_snapshot`: one snapshot per event on the bus. */
    method GetSnapshot() returns (r: seq<EventSnap>)
      ensures forall s :: s in r <==> exists k :: k in events && s == Snap(events[k])
      ensures |r| == |events.Keys|
    {
      r := [];
      var todo := events.Keys;
      while todo != {}
        invariant todo <= events.Keys
        invariant forall s :: s in r <==> exists k :: k in events.Keys - todo && s == Snap(events[k])
        invariant |r| == |events.Keys - todo|
        decreases todo
      {
        var k :| k in todo;
        r := r + [Snap(events[k])];
        assert events.Keys - (todo - {k}) == (events.Keys - todo) + {k};
        todo := todo - {k};
      }
    }

    /** `get_client_snapshot`: snapshots of exactly the `InputEvent`s. */
    method GetClientSnapshot() returns (r: seq<EventSnap>)
      ensures forall s :: s in r <==> exists k :: k in events && events[k].kind.InputEvent? && s == Snap(events[k])
      ensures |r| == |set k | k in events && events[k].kind.InputEvent?|
    {
      r := [];
      var todo := events.Keys;
      ghost var done: set<Id> := {};
      ghost var inputs: set<Id> := {};
      while todo != {}
        invariant todo <= events.Keys && done == events.Keys - todo
        invariant inputs == InputIds(events, done)
        invariant SnapsOf(events, inputs, r)
        decreases todo
      {
        var k :| k in todo;
        PickedStep(events.Keys, done, todo, k);
        InputIdsStep(events, done, k);
        if events[k].kind.InputEvent? {
          SnapsStep(events, inputs, r, k);
          r := r + [Snap(events[k])];
          inputs := inputs + {k};
        }
        todo := todo - {k};
        done := done + {k};
      }
      assert done == events.Keys;
      SnapsDone(events, r);
    }

    /** `load_snapshot`: entries applied in order, see `LoadedAll`. */
    method LoadSnapshot(data: seq<EventSnap>, now: int)
      requires Valid()
      modifies this
      ensures Valid()
      ensures events == LoadedAll(old(events), data, now)
    {
      var i := 0;
      while i < |data|
        invariant 0 <= i <= |data|
        invariant events == LoadedAll(old(events), data[..i], now)
        invariant Valid()
      {
        assert data[..i + 1][..i] == data[..i];
        var k := data[i].data.id;
        if k in events {
          events := events[k := data[i].data];
        } else {
          var built := BuildEvent(data[i], now);
          if built.Ok? {
            events := events[k := built.value];
          }
        }
        i := i + 1;
      }
      assert data[..|data|] == data;
    }
  }
}
