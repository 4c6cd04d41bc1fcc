/** The timed records and the controller base of
  * `simpleland/contentbundles/survival_common.py`: an `Effect` and an
  * `Action` last `ticks` ticks from their start tick unless they are
  * continuous, and once found expired they stay expired; a
  * `StateController` only counts as started after its first reset. */
module SurvivalCommon {
  import opened Base

  /** The expiry rule shared by effects and actions: a record already found
    * expired stays so; otherwise it is expired when it is not continuous
    * and more than `ticks` ticks have passed since `startTick`. */
  function Expiry(expired: bool, continuous: bool, ticks: int, startTick: int, now: int): (r: bool)
    ensures expired ==> r
    ensures !expired ==> (r <==> !continuous && now - startTick > ticks)
  {
    expired || (!continuous && now - startTick > ticks)
  }

  /** The answers of `is_expired` queried at the ticks `times`, one after
    * another, starting from the flag `expired`. */
  function Answers(expired: bool, continuous: bool, ticks: int, startTick: int, times: seq<int>): (r: seq<bool>)
    ensures |r| == |times|
    decreases |times|
  {
    if times == [] then []
    else
      var e := Expiry(expired, continuous, ticks, startTick, times[0]);
      [e] + Answers(e, continuous, ticks, startTick, times[1..])
  }

  /** Stickiness: once a query answers true, every later query answers
    * true, whatever ticks it is asked at (even earlier ones). */
  lemma {:induction false} ExpirySticks(expired: bool, continuous: bool, ticks: int, startTick: int, times: seq<int>, i: nat, j: nat)
    requires i <= j < |times|
    requires Answers(expired, continuous, ticks, startTick, times)[i]
    ensures Answers(expired, continuous, ticks, startTick, times)[j]
    decreases |times|
  {
    var e := Expiry(expired, continuous, ticks, startTick, times[0]);
    if i == 0 {
      if j > 0 {
        AllTrueAfter(e, continuous, ticks, startTick, times[1..], j - 1);
      }
    } else {
      ExpirySticks(e, continuous, ticks, startTick, times[1..], i - 1, j - 1);
    }
  }

  lemma {:induction false} AllTrueAfter(expired: bool, continuous: bool, ticks: int, startTick: int, times: seq<int>, j: nat)
    requires expired && j < |times|
    ensures Answers(expired, continuous, ticks, startTick, times)[j]
    decreases |times|
  {
    if j > 0 {
      AllTrueAfter(true, continuous, ticks, startTick, times[1..], j - 1);
    }
  }

  /** A continuous record never expires unless it was created expired. */
  lemma {:induction false} ContinuousNeverExpires(ticks: int, startTick: int, times: seq<int>, j: nat)
    requires j < |times|
    ensures !Answers(false, true, ticks, startTick, times)[j]
    decreases |times|
  {
    if j > 0 {
      ContinuousNeverExpires(ticks, startTick, times[1..], j - 1);
    }
  }

  /** An effect on an object (a sprite overlay and the like). */
  class Effect {
    const configId: string
    const ticks: int
    const stepSize: int
    const angleStepSize: int
    const continuous: bool
    const kind: string
    const startTick: int
    var expired: bool

    /** `Effect(...)` at tick `now`: it starts now, not expired. */
    constructor (configId: string, ticks: int, stepSize: int, angleStepSize: int, continuous: bool, kind: string, now: int)
      ensures this.configId == configId && this.ticks == ticks && this.stepSize == stepSize
      ensures this.angleStepSize == angleStepSize && this.continuous == continuous && this.kind == kind
      ensures startTick == now && !expired
    {
      this.configId := configId;
      this.ticks := ticks;
      this.stepSize := stepSize;
      this.angleStepSize := angleStepSize;
      this.continuous := continuous;
      this.kind := kind;
      startTick := now;
      expired := false;
    }

    /** `is_expired` at tick `now`; the answer is cached in `expired`. */
    method IsExpired(now: int) returns (r: bool)
      modifies this`expired
      ensures r == Expiry(old(expired), continuous, ticks, startTick, now) && expired == r
    {
      if expired {
        return true;
      }
      expired := !continuous && now - startTick > ticks;
      r := expired;
    }
  }

  /** `start_tick or clock.get_ticks()`: a missing or zero start tick means
    * the current tick. */
  function StartTickOf(startTick: Option<int>, now: int): (t: int)
    ensures startTick.Some? && startTick.value != 0 ==> t == startTick.value
    ensures startTick.None? || startTick.value == 0 ==> t == now
  {
    if startTick.Some? && startTick.value != 0 then startTick.value else now
  }

  /** What an object is doing: its kind, how long it lasts and whether it
    * blocks input. */
  class Action {
    const kind: string
    const ticks: int
    var startTick: int
    const continuous: bool
    const blocking: bool
    var startPosition: Option<Vec>
    var expired: bool

    /** `Action(...)` at tick `now`. */
    constructor (kind: string, ticks: int, startTick: Option<int>, blocking: bool, continuous: bool,
                 startPosition: Option<Vec>, now: int)
      ensures this.kind == kind && this.ticks == ticks
      ensures this.startTick == StartTickOf(startTick, now)
      ensures this.blocking == blocking && this.continuous == continuous && this.startPosition == startPosition
      ensures !expired
    {
      this.kind := kind;
      this.ticks := ticks;
      this.startTick := StartTickOf(startTick, now);
      this.blocking := blocking;
      this.continuous := continuous;
      this.startPosition := startPosition;
      expired := false;
    }

    /** `is_expired` at tick `now`; the answer is cached in `expired`. */
    method IsExpired(now: int) returns (r: bool)
      modifies this`expired
      ensures r == Expiry(old(expired), continuous, ticks, startTick, now) && expired == r
    {
      if expired {
        return true;
      }
      expired := !continuous && now - startTick > ticks;
      r := expired;
    }
  }

  /** The base of the game-mode controllers. */
  class StateController {
    const cid: string
    var started: bool

    constructor (cid: string)
      ensures this.cid == cid && !started
    {
      this.cid := cid;
      started := false;
    }

    /** `reset`: the controller has started. */
    method Reset()
      modifies this`started
      ensures started
    {
      started := true;
    }
  }
}
