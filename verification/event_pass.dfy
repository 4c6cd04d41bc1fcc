/** The value-level account of one pass of `run_event_processing` in
  * `landia/game.py`: what dispatching one event returns, how a periodic
  * event's `last_run` is written back to the bus, and the bus a whole pass
  * leaves behind. */
module EventPass {
  import opened Base
  import opened Events
  import opened EventBus

  /** What the content handlers (`process_input_event`,
    * `process_admin_command_event`, `process_event`, an object's method,
    * a delayed event's function) return for the event they are given. */
  type Responder = Event -> seq<Event>

  /** Whether the pass removes `e` from the bus once it has been
    * dispatched at tick `now`: every kind is removed except periodic
    * events, sounds (left for `get_sound_events`) and delayed events that
    * are not yet due. */
  predicate Marked(e: Event, now: int)
  {
    match e.kind
    case DelayedEvent(step) => step <= now
    case PeriodicEvent(_, _) => false
    case SoundEvent(_) => false
    case _ => true
  }

  /** The follow-up events and removal flag of dispatching `e` at `now`,
    * when the dispatch does not raise. */
  function Outcome(e: Event, now: int, respond: Responder): (r: RunResult)
    ensures r.remove <==> Marked(e, now)
    ensures r.newEvents == [] || r.newEvents == respond(e)
    ensures e.kind.ViewEvent? || e.kind.RemoveObjectEvent? || e.kind.PositionChangeEvent? ==> r.newEvents == []
    ensures e.kind.PeriodicEvent? || e.kind.SoundEvent? ==> r.newEvents == []
  {
    match e.kind
    case InputEvent(_, _) => RunResult(respond(e), true)
    case AdminCommandEvent(_, _) => RunResult(respond(e), true)
    case ContentEvent => RunResult(respond(e), true)
    case ObjectEvent(_, _) => RunResult(respond(e), true)
    case ViewEvent(_, _) => RunResult([], true)
    case RemoveObjectEvent(_) => RunResult([], true)
    case PositionChangeEvent(_, _, _, _) => RunResult([], true)
    case DelayedEvent(_) => DelayedRun(e.kind, now, respond(e))
    case PeriodicEvent(_, _) => RunResult([], false)
    case SoundEvent(_) => RunResult([], false)
  }

  /** A periodic event that runs without raising returns what `Outcome`
    * says for it. */
  lemma PeriodicRunAgrees(e: Event, now: int, respond: Responder)
    requires e.kind.PeriodicEvent? && PeriodicRun(e, now).Ok?
    ensures PeriodicRun(e, now).value.result == Outcome(e, now, respond)
  {
  }

  /** The bus after dispatching `e`: a periodic event that is the very
    * entry on the bus takes its updated `last_run`; every other entry is
    * left alone. */
  function Rearm(bus: map<Id, Event>, e: Event, now: int): (r: map<Id, Event>)
    ensures r.Keys == bus.Keys
    ensures forall k :: k in bus && (k != e.id || !bus[k].kind.PeriodicEvent?) ==> r[k] == bus[k]
    ensures forall k :: k in bus && bus[k].kind.PeriodicEvent? ==> r[k].kind.PeriodicEvent? && r[k].id == bus[k].id
  {
    if e.kind.PeriodicEvent? && e.id in bus && bus[e.id] == e then
      match PeriodicRun(e, now)
      case Ok(o) => bus[e.id := o.updated]
      case Err(_) => bus
    else bus
  }

  /** `Rearm` for each dispatched event in turn. */
  function RearmAll(bus: map<Id, Event>, d: seq<Event>, now: int): map<Id, Event>
  {
    if d == [] then bus else Rearm(RearmAll(bus, d[..|d| - 1], now), d[|d| - 1], now)
  }

  /** A pass changes no key of the bus and only the `last_run` of periodic
    * entries: every other entry is as it was, and each entry keeps its id. */
  lemma {:induction false} RearmAllSpec(bus: map<Id, Event>, d: seq<Event>, now: int)
    ensures RearmAll(bus, d, now).Keys == bus.Keys
    ensures forall k :: k in bus && !bus[k].kind.PeriodicEvent? ==> RearmAll(bus, d, now)[k] == bus[k]
    ensures forall k :: k in bus && bus[k].kind.PeriodicEvent? ==>
              RearmAll(bus, d, now)[k].kind.PeriodicEvent? && RearmAll(bus, d, now)[k].id == bus[k].id
  {
    if d != [] {
      RearmAllSpec(bus, d[..|d| - 1], now);
    }
  }

  lemma RearmAllSnoc(bus: map<Id, Event>, d: seq<Event>, e: Event, now: int)
    ensures RearmAll(bus, d + [e], now) == Rearm(RearmAll(bus, d, now), e, now)
  {
    assert (d + [e])[..|d|] == d;
  }

  /** `all_new_events`: every follow-up event, in dispatch order. */
  function Produced(d: seq<Event>, now: int, respond: Responder): seq<Event>
  {
    if d == [] then [] else Produced(d[..|d| - 1], now, respond) + Outcome(d[|d| - 1], now, respond).newEvents
  }

  lemma ProducedSnoc(d: seq<Event>, e: Event, now: int, respond: Responder)
    ensures Produced(d + [e], now, respond) == Produced(d, now, respond) + Outcome(e, now, respond).newEvents
  {
    assert (d + [e])[..|d|] == d;
  }

  /** An event is among the follow-ups exactly when some dispatched event
    * returned it. */
  lemma {:induction false} ProducedContents(d: seq<Event>, now: int, respond: Responder, x: Event)
    ensures x in Produced(d, now, respond) <==> exists i :: 0 <= i < |d| && x in Outcome(d[i], now, respond).newEvents
  {
    if d != [] {
      var init := d[..|d| - 1];
      ProducedContents(init, now, respond, x);
      if x in Produced(init, now, respond) {
        var i :| 0 <= i < |init| && x in Outcome(init[i], now, respond).newEvents;
        assert d[i] == init[i];
      }
      if exists i :: 0 <= i < |d| && x in Outcome(d[i], now, respond).newEvents {
        var i :| 0 <= i < |d| && x in Outcome(d[i], now, respond).newEvents;
        if i < |d| - 1 {
          assert init[i] == d[i];
        }
      }
    }
  }

  /** The ids of the dispatched events marked for removal. */
  function MarkedIds(d: seq<Event>, now: int): set<Id>
  {
    set x | x in d && Marked(x, now) :: x.id
  }

  /** The bus a pass leaves: the starting bus with periodic entries
    * re-armed, the follow-up events added in order, and the marked ids
    * removed. */
  function AfterPass(bus: map<Id, Event>, d: seq<Event>, now: int, respond: Responder): (r: map<Id, Event>)
    ensures r.Keys == (bus.Keys + IdsOf(Produced(d, now, respond))) - MarkedIds(d, now)
    ensures forall x :: x in d && Marked(x, now) ==> x.id !in r
    ensures Keyed(bus) ==> Keyed(r)
  {
    RearmAllSpec(bus, d, now);
    var rearmed := RearmAll(bus, d, now);
    AddedAllSpec(rearmed, Produced(d, now, respond));
    assert Keyed(bus) ==> Keyed(rearmed);
    AddedAll(rearmed, Produced(d, now, respond)) - MarkedIds(d, now)
  }

  /** A pass has dispatched everything it had to: every event that was on
    * the bus and every follow-up event. */
  ghost predicate Closed(bus: map<Id, Event>, d: seq<Event>, now: int, respond: Responder)
  {
    && (forall k :: k in bus ==> bus[k] in d)
    && (forall i, x :: 0 <= i < |d| && x in Outcome(d[i], now, respond).newEvents ==> x in d)
  }

  /** The ids listed in `s`. */
  function IdSet(s: seq<Id>): (r: set<Id>)
    ensures forall k :: k in r <==> k in s
  {
    set k | k in s
  }

  /** Where a pass stands after dispatching `d` with `pending` still to
    * pop: the bus `cur` is the starting bus re-armed, `allNew` and
    * `toRemove` hold what the dispatched events returned, and every event
    * that was on the bus or was returned is dispatched or pending. */
  ghost predicate InPass(bus: map<Id, Event>, cur: map<Id, Event>, d: seq<Event>, pending: set<Event>,
                         allNew: seq<Event>, toRemove: seq<Id>, now: int, respond: Responder)
  {
    && cur == RearmAll(bus, d, now)
    && allNew == Produced(d, now, respond)
    && IdSet(toRemove) == MarkedIds(d, now)
    && (forall k :: k in bus ==> bus[k] in d || bus[k] in pending)
    && (forall i, x :: 0 <= i < |d| && x in Outcome(d[i], now, respond).newEvents ==> x in d || x in pending)
  }

  /** A pass begins with the whole bus pending. */
  lemma PassStart(bus: map<Id, Event>, now: int, respond: Responder)
    ensures InPass(bus, bus, [], set k | k in bus :: bus[k], [], [], now, respond)
  {
    assert IdSet([]) == {};
  }

  /** Popping `e`, dispatching it and taking in what it returns keeps the
    * pass on track. */
  lemma PassAdvance(bus: map<Id, Event>, cur: map<Id, Event>, d: seq<Event>, pending: set<Event>,
                    allNew: seq<Event>, toRemove: seq<Id>, now: int, respond: Responder, e: Event)
    requires InPass(bus, cur, d, pending, allNew, toRemove, now, respond) && e in pending
    ensures var o := Outcome(e, now, respond);
            InPass(bus, Rearm(cur, e, now), d + [e], (pending - {e}) + (set x | x in o.newEvents),
                   allNew + o.newEvents, toRemove + (if o.remove then [e.id] else []), now, respond)
  {
    var o := Outcome(e, now, respond);
    RearmAllSnoc(bus, d, e, now);
    ProducedSnoc(d, e, now, respond);
    var d', toRemove' := d + [e], toRemove + (if o.remove then [e.id] else []);
    assert IdSet(toRemove') == MarkedIds(d', now) by {
      assert forall k :: k in MarkedIds(d', now) <==> k in MarkedIds(d, now) || (Marked(e, now) && k == e.id);
    }
    forall i, x | 0 <= i < |d'| && x in Outcome(d'[i], now, respond).newEvents
      ensures x in d' || x in (pending - {e}) + (set y | y in o.newEvents)
    {
      if i < |d| {
        assert d'[i] == d[i];
      }
    }
  }

  /** A pass with nothing left to pop has dispatched everything, and adding
    * the follow-ups and dropping the marked ids gives `AfterPass`. */
  lemma PassDone(bus: map<Id, Event>, cur: map<Id, Event>, d: seq<Event>, allNew: seq<Event>,
                 toRemove: seq<Id>, now: int, respond: Responder)
    requires InPass(bus, cur, d, {}, allNew, toRemove, now, respond)
    ensures Closed(bus, d, now, respond)
    ensures AddedAll(cur, allNew) - IdSet(toRemove) == AfterPass(bus, d, now, respond)
  {
  }

  /** An entry that no follow-up event replaces and that is not periodic
    * comes through a pass unchanged unless some dispatched event with its
    * id was marked. */
  lemma PassKeepsEntry(bus: map<Id, Event>, d: seq<Event>, now: int, respond: Responder, k: Id)
    requires k in bus && k !in MarkedIds(d, now) && k !in IdsOf(Produced(d, now, respond))
    requires !bus[k].kind.PeriodicEvent?
    ensures k in AfterPass(bus, d, now, respond) && AfterPass(bus, d, now, respond)[k] == bus[k]
  {
    RearmAllSpec(bus, d, now);
    AddedAllSpec(RearmAll(bus, d, now), Produced(d, now, respond));
  }

  /** `b` is the periodic entry `a` with at most its `last_run` changed,
    * and then moved to `now`. */
  predicate Rearmed(a: Event, b: Event, now: int)
  {
    && a.kind.PeriodicEvent? && b.kind.PeriodicEvent?
    && b == a.(kind := a.kind.(lastRun := b.kind.lastRun))
    && (b.kind.lastRun == a.kind.lastRun || b.kind.lastRun == Some(now))
  }

  /** Re-arming across a pass leaves a periodic entry on the bus with only
    * its `last_run` changed, to the tick of the pass. */
  lemma {:induction false} RearmAllPeriodic(bus: map<Id, Event>, d: seq<Event>, now: int, k: Id)
    requires k in bus && bus[k].kind.PeriodicEvent?
    ensures k in RearmAll(bus, d, now) && Rearmed(bus[k], RearmAll(bus, d, now)[k], now)
  {
    if d != [] {
      var init := d[..|d| - 1];
      RearmAllPeriodic(bus, init, now, k);
      RearmAllSpec(bus, init, now);
    }
  }

  /** A periodic entry stays on the bus through a whole pass, with only its
    * `last_run` changed (to the tick of the pass when it fired), as long as
    * no follow-up event takes its id and every dispatched event with its id
    * is periodic (so none is marked). */
  lemma PeriodicSurvives(bus: map<Id, Event>, d: seq<Event>, now: int, respond: Responder, k: Id)
    requires k in bus && bus[k].kind.PeriodicEvent?
    requires forall x :: x in d && x.id == k ==> x.kind.PeriodicEvent?
    requires k !in IdsOf(Produced(d, now, respond))
    ensures k in AfterPass(bus, d, now, respond)
    ensures Rearmed(bus[k], AfterPass(bus, d, now, respond)[k], now)
  {
    assert k !in MarkedIds(d, now);
    RearmAllPeriodic(bus, d, now, k);
    AddedAllSpec(RearmAll(bus, d, now), Produced(d, now, respond));
  }

  /** A sound event stays on the bus through a pass (it is collected by
    * `get_sound_events`), as long as no other dispatched event shares its
    * id. */
  lemma SoundSurvives(bus: map<Id, Event>, d: seq<Event>, now: int, respond: Responder, k: Id)
    requires k in bus && bus[k].kind.SoundEvent?
    requires forall x :: x in d && x.id == k ==> x == bus[k]
    ensures k in AfterPass(bus, d, now, respond)
  {
    assert k !in MarkedIds(d, now);
  }

  /** A delayed event that is not due yet stays on the bus, as long as no
    * other dispatched event shares its id. */
  lemma PendingDelayedSurvives(bus: map<Id, Event>, d: seq<Event>, now: int, respond: Responder, k: Id)
    requires k in bus && bus[k].kind.DelayedEvent? && bus[k].kind.executionStep > now
    requires forall x :: x in d && x.id == k ==> x == bus[k]
    ensures k in AfterPass(bus, d, now, respond)
  {
    assert k !in MarkedIds(d, now);
  }

  /** A due delayed event that was dispatched is gone after the pass, and
    * what its function returned is on the bus unless itself removed. */
  lemma DueDelayedFires(bus: map<Id, Event>, d: seq<Event>, now: int, respond: Responder, i: nat, x: Event)
    requires i < |d| && d[i].kind.DelayedEvent? && d[i].kind.executionStep <= now
    requires x in respond(d[i]) && x.id !in MarkedIds(d, now)
    ensures d[i].id !in AfterPass(bus, d, now, respond)
    ensures x.id in AfterPass(bus, d, now, respond)
  {
    ProducedContents(d, now, respond, x);
    assert x in Outcome(d[i], now, respond).newEvents;
  }
}
