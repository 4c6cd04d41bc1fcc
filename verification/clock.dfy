/** The step clock of `simpleland/clock.py` in its uncapped mode: every
  * tick advances the tick counter by exactly one. */
module Clock {

  class StepClock {
    /** Ticks elapsed since construction. */
    var tickTime: nat
    /** Wall-clock start time; the wall clock itself is a parameter. */
    var startTime: int

    /** A new clock starts at tick 0; `wallNow` stands for `time.time()`. */
    constructor (wallNow: int)
      ensures tickTime == 0 && startTime == wallNow
    {
      tickTime := 0;
      startTime := wallNow;
    }

    method GetStartTime() returns (t: int)
      ensures t == startTime
    {
      t := startTime;
    }

    method SetStartTime(t: int)
      modifies this
      ensures startTime == t && tickTime == old(tickTime)
    {
      startTime := t;
    }

    /** `tick()` with a falsy tick rate: the counter grows by one and the
      * new value is returned. */
    method Tick() returns (t: nat)
      modifies this
      ensures tickTime == old(tickTime) + 1 && t == tickTime
      ensures startTime == old(startTime)
    {
      tickTime := tickTime + 1;
      t := tickTime;
    }

    /** `get_ticks()` reads the counter and changes nothing. */
    method GetTicks() returns (t: nat)
      ensures t == tickTime
    {
      t := tickTime;
    }
  }
}
