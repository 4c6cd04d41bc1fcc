/** The event kinds of `simpleland/event.py`: every event carries an id, a
  * creation tick and the client/server routing flags; delayed events fire
  * once their tick arrives and periodic events re-arm themselves. */
module Events {
  import opened Base
  import Ids

  /** The payload of an `InputEvent`: the key codes held down. */
  datatype InputData = InputData(keydown: set<int>)

  datatype EventKind =
    | InputEvent(inputPlayerId: string, inputData: InputData)
    | AdminCommandEvent(command: string, adminPlayerId: Option<string>)
    | ContentEvent
    | ViewEvent(viewPlayerId: string, distanceDiff: int)
    | RemoveObjectEvent(objectId: Id)
    | DelayedEvent(executionStep: int)
    | PeriodicEvent(interval: Option<int>, lastRun: Option<int>)
    | PositionChangeEvent(objId: Id, oldPos: Option<Vec>, newPos: Option<Vec>, isPlayerObj: bool)
    | ObjectEvent(targetId: Id, methodName: string)
    | SoundEvent(soundId: Option<string>)

  datatype Event = Event(id: Id, creationTime: int, isClientEvent: bool, isServerEvent: bool, kind: EventKind)

  /** The class name a snapshot records under `_type`. */
  function TypeName(k: EventKind): (name: string)
    ensures |name| > 0
  {
    match k
    case InputEvent(_, _) => "InputEvent"
    case AdminCommandEvent(_, _) => "AdminCommandEvent"
    case ContentEvent => "ContentEvent"
    case ViewEvent(_, _) => "ViewEvent"
    case RemoveObjectEvent(_) => "RemoveObjectEvent"
    case DelayedEvent(_) => "DelayedEvent"
    case PeriodicEvent(_, _) => "PeriodicEvent"
    case PositionChangeEvent(_, _, _, _) => "PositionChangeEvent"
    case ObjectEvent(_, _) => "ObjectEvent"
    case SoundEvent(_) => "SoundEvent"
  }

  /** Distinct kinds have distinct class names, so a snapshot's `_type`
    * tells the kind back. */
  lemma TypeNameInjective(a: EventKind, b: EventKind)
    requires TypeName(a) == TypeName(b)
    ensures a.InputEvent? <==> b.InputEvent?
    ensures a.AdminCommandEvent? <==> b.AdminCommandEvent?
    ensures a.ContentEvent? <==> b.ContentEvent?
    ensures a.ViewEvent? <==> b.ViewEvent?
    ensures a.RemoveObjectEvent? <==> b.RemoveObjectEvent?
    ensures a.DelayedEvent? <==> b.DelayedEvent?
    ensures a.PeriodicEvent? <==> b.PeriodicEvent?
    ensures a.PositionChangeEvent? <==> b.PositionChangeEvent?
    ensures a.ObjectEvent? <==> b.ObjectEvent?
    ensures a.SoundEvent? <==> b.SoundEvent?
  {
  }

  /** The default of `is_client_event` for each kind: only object removals
    * and sounds are forwarded to clients unless the caller says otherwise. */
  function DefaultIsClientEvent(k: EventKind): (client: bool)
    ensures client <==> k.RemoveObjectEvent? || k.SoundEvent?
  {
    match k
    case RemoveObjectEvent(_) => true
    case SoundEvent(_) => true
    case _ => false
  }

  /** `Event.__init__` once the id is known: `creation_time or ticks`
    * (so both `None` and `0` fall back to the current tick), the client
    * flag defaulting by kind and the server flag defaulting to true. */
  function Build(id: Id, kind: EventKind, creationTime: Option<int>, isClient: Option<bool>,
                 isServer: Option<bool>, now: int): (e: Event)
    ensures e.id == id && e.kind == kind
    ensures e.creationTime == if creationTime.None? || creationTime.value == 0 then now else creationTime.value
    ensures e.isClientEvent == if isClient.None? then DefaultIsClientEvent(kind) else isClient.value
    ensures e.isServerEvent == if isServer.None? then true else isServer.value
  {
    Event(id,
          if creationTime.None? || creationTime.value == 0 then now else creationTime.value,
          if isClient.None? then DefaultIsClientEvent(kind) else isClient.value,
          if isServer.None? then true else isServer.value,
          kind)
  }

  /** Constructing an event: without an id it takes a fresh `gen_id` value. */
  method NewEvent(ids: Ids.IdGen, kind: EventKind, givenId: Option<Id>, creationTime: Option<int>,
                  isClient: Option<bool>, isServer: Option<bool>, now: int) returns (e: Event)
    requires ids.Valid()
    modifies ids
    ensures ids.Valid()
    ensures givenId.Some? ==> e.id == givenId.value && ids.uid == old(ids.uid) && ids.issued == old(ids.issued)
    ensures givenId.None? ==> e.id == old(ids.uid) + 1 && ids.uid == e.id && e.id !in old(ids.issued) && ids.issued == old(ids.issued) + {e.id}
    ensures e == Build(e.id, kind, creationTime, isClient, isServer, now)
  {
    var id: Id;
    if givenId.None? {
      id := ids.GenId();
    } else {
      id := givenId.value;
    }
    e := Build(id, kind, creationTime, isClient, isServer, now);
  }

  /** The kind of a `DelayedEvent` built at tick `now`: it is due `delay`
    * ticks later. */
  function DelayedKind(delay: int, now: int): (k: EventKind)
    ensures k.DelayedEvent? && k.executionStep - now == delay
  {
    DelayedEvent(delay + now)
  }

  /** The kind of a `PeriodicEvent` built at tick `now`: with
    * `run_immediately` it has never run, so its first `run` fires. */
  function PeriodicKind(interval: Option<int>, runImmediately: bool, now: int): (k: EventKind)
    ensures k.PeriodicEvent? && k.interval == interval
    ensures runImmediately <==> k.lastRun.None?
    ensures !runImmediately ==> k.lastRun == Some(now)
  {
    PeriodicEvent(interval, if runImmediately then None else Some(now))
  }

  /** What `run()` hands back: follow-up events and whether to remove. */
  datatype RunResult = RunResult(newEvents: seq<Event>, remove: bool)

  /** `DelayedEvent.run` at tick `now`; `produced` is what its function
    * returns when called. */
  function DelayedRun(k: EventKind, now: int, produced: seq<Event>): (r: RunResult)
    requires k.DelayedEvent?
    ensures r.remove <==> k.executionStep <= now
    ensures r.remove ==> r.newEvents == produced
    ensures !r.remove ==> r.newEvents == []
  {
    if k.executionStep <= now then RunResult(produced, true) else RunResult([], false)
  }

  /** Whether a periodic event is due at `now`; `None` stands for the
    * `TypeError` of adding an unset interval to a set `last_run`. */
  function PeriodicDue(k: EventKind, now: int): (due: Result<bool>)
    requires k.PeriodicEvent?
    ensures k.lastRun.None? ==> due == Ok(true)
    ensures k.lastRun.Some? && k.interval.None? ==> due.Err?
    ensures k.lastRun.Some? && k.interval.Some? ==> due == Ok(k.lastRun.value + k.interval.value <= now)
  {
    if k.lastRun.None? then Ok(true)
    else if k.interval.None? then Err(TypeError("unsupported operand: int + NoneType"))
    else Ok(k.lastRun.value + k.interval.value <= now)
  }

  /** The outcome of `PeriodicEvent.run` at tick `now`: the event (with
    * `last_run` moved to `now` when its function was called), whether the
    * function was called, and what `run` returns. */
  datatype PeriodicOutcome = PeriodicOutcome(updated: Event, called: bool, result: RunResult)

  function PeriodicRun(e: Event, now: int): (r: Result<PeriodicOutcome>)
    requires e.kind.PeriodicEvent?
    ensures PeriodicDue(e.kind, now).Err? <==> r.Err?
    ensures r.Ok? ==> r.value.result == RunResult([], false)
    ensures r.Ok? ==> (r.value.called <==> PeriodicDue(e.kind, now) == Ok(true))
    ensures r.Ok? && r.value.called ==> r.value.updated == e.(kind := e.kind.(lastRun := Some(now)))
    ensures r.Ok? && !r.value.called ==> r.value.updated == e
  {
    match PeriodicDue(e.kind, now)
    case Err(err) => Err(err)
    case Ok(due) =>
      if due then Ok(PeriodicOutcome(e.(kind := e.kind.(lastRun := Some(now))), true, RunResult([], false)))
      else Ok(PeriodicOutcome(e, false, RunResult([], false)))
  }

  /** A periodic event with a positive interval fires at most once per
    * tick: running it again at the same tick does not call its function. */
  lemma PeriodicOncePerTick(e: Event, now: int)
    requires e.kind.PeriodicEvent? && e.kind.interval.Some? && e.kind.interval.value > 0
    requires PeriodicRun(e, now).Ok? && PeriodicRun(e, now).value.called
    ensures PeriodicRun(PeriodicRun(e, now).value.updated, now).Ok?
    ensures !PeriodicRun(PeriodicRun(e, now).value.updated, now).value.called
  {
  }

}
