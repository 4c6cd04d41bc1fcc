/** `TimeLoggingContainer` of `landia/common.py`: a ring buffer of
  * `log_size` slots holding `(timestamp, object)` entries, with lookup of
  * the latest entry and of the entries bordering a timestamp. */
module TimeLog {
  import opened Base

  predicate Ascending(s: seq<int>)
  {
    forall i, j :: 0 <= i < j < |s| ==> s[i] <= s[j]
  }

  /** `x` placed into the ascending list `s`. */
  function Insert(x: int, s: seq<int>): (r: seq<int>)
    requires Ascending(s)
    ensures |r| == |s| + 1 && forall v :: v in r <==> v == x || v in s
    ensures Ascending(r)
  {
    if s == [] then [x]
    else if x <= s[0] then [x] + s
    else
      var rest := Insert(x, s[1..]);
      assert forall j :: 0 <= j < |rest| ==> s[0] <= rest[j] by {
        forall j | 0 <= j < |rest| ensures s[0] <= rest[j] {
          assert rest[j] in rest;
        }
      }
      [s[0]] + rest
  }

  /** Python's `sorted` on integers: the same values, ascending. */
  function Sort(s: seq<int>): (r: seq<int>)
    ensures Ascending(r) && |r| == |s| && forall v :: v in r <==> v in s
  {
    if s == [] then []
    else
      assert s == [s[0]] + s[1..];
      Insert(s[0], Sort(s[1..]))
  }

  lemma {:induction false} InsertPermutes(x: int, s: seq<int>)
    requires Ascending(s)
    ensures multiset(Insert(x, s)) == multiset(s) + multiset{x}
    decreases |s|
  {
    if s != [] && x > s[0] {
      InsertPermutes(x, s[1..]);
      assert s == [s[0]] + s[1..];
    }
  }

  /** `sorted` keeps every value as often as it occurs. */
  lemma {:induction false} SortPermutes(s: seq<int>)
    ensures multiset(Sort(s)) == multiset(s)
    decreases |s|
  {
    if s != [] {
      SortPermutes(s[1..]);
      InsertPermutes(s[0], Sort(s[1..]));
      assert s == [s[0]] + s[1..];
    }
  }

  /** The timestamps of the filled slots, in slot order (the list
    * comprehension that drops the `None`s). */
  function Stored(ts: seq<Option<int>>): (r: seq<int>)
    ensures forall v :: v in r <==> Some(v) in ts
  {
    if ts == [] then []
    else
      var rest := Stored(ts[..|ts| - 1]);
      assert ts == ts[..|ts| - 1] + [ts[|ts| - 1]];
      if ts[|ts| - 1].None? then rest else rest + [ts[|ts| - 1].value]
  }

  /** `{v: i for i, v in enumerate(ts)}.get(v)`: the last slot holding `v`,
    * `None` included as a key. */
  function LastIndexOf(ts: seq<Option<int>>, v: Option<int>): (r: Option<nat>)
    ensures r.None? <==> v !in ts
    ensures r.Some? ==> r.value < |ts| && ts[r.value] == v && forall j :: r.value < j < |ts| ==> ts[j] != v
  {
    if ts == [] then None
    else if ts[|ts| - 1] == v then Some(|ts| - 1)
    else
      assert ts == ts[..|ts| - 1] + [ts[|ts| - 1]];
      LastIndexOf(ts[..|ts| - 1], v)
  }

  /** The timestamp of a slot's entry. */
  function StampOf<T>(e: Option<(int, T)>): Option<int>
  {
    if e.None? then None else Some(e.value.0)
  }

  /** The object of a slot's entry. */
  function ObjOf<T>(e: Option<(int, T)>): Option<T>
  {
    if e.None? then None else Some(e.value.1)
  }

  class TimeLoggingContainer<T> {
    const logSize: nat
    const log: array<Option<T>>
    const timestamps: array<Option<int>>
    var counter: nat
    /** Every entry added so far, oldest first. */
    ghost var history: seq<(int, T)>

    /** The slots hold, for each index, the latest entry written there. */
    ghost predicate Valid()
      reads this, log, timestamps
    {
      && log.Length == logSize && timestamps.Length == logSize && log as object != timestamps as object
      && counter == |history|
      && (logSize == 0 ==> history == [])
      && (logSize > 0 ==> forall s :: 0 <= s < logSize ==>
            timestamps[s] == StampOf(LatestAt(history, s, logSize)) && log[s] == ObjOf(LatestAt(history, s, logSize)))
    }

    /** `TimeLoggingContainer(log_size)`: every slot empty, nothing added. */
    constructor (logSize: nat)
      ensures Valid() && history == [] && fresh(log) && fresh(timestamps)
    {
      this.logSize := logSize;
      log := new Option<T>[logSize](_ => None);
      timestamps := new Option<int>[logSize](_ => None);
      counter := 0;
      history := [];
    }

    /** `add`: the entry goes to slot `counter % log_size` and the counter
      * advances; a ring of no slots raises `ZeroDivisionError`. */
    method Add(timestamp: int, obj: T) returns (err: Option<Error>)
      requires Valid()
      modifies this, log, timestamps
      ensures Valid()
      ensures logSize == 0 ==> err == Some(ZeroDivisionError) && history == old(history)
      ensures logSize > 0 ==> err.None? && history == old(history) + [(timestamp, obj)]
      ensures logSize > 0 ==> timestamps[old(counter) % logSize] == Some(timestamp) && log[old(counter) % logSize] == Some(obj)
    {
      if logSize == 0 {
        return Some(ZeroDivisionError);
      }
      var slot := counter % logSize;
      log[slot] := Some(obj);
      timestamps[slot] := Some(timestamp);
      counter := counter + 1;
      history := history + [(timestamp, obj)];
      assert history[..|history| - 1] == old(history);
      forall s | 0 <= s < logSize
        ensures timestamps[s] == StampOf(LatestAt(history, s, logSize)) && log[s] == ObjOf(LatestAt(history, s, logSize))
      {
        if s != slot {
          assert LatestAt(history, s, logSize) == LatestAt(old(history), s, logSize);
        }
      }
      err := None;
    }

    /** `get_latest_with_timestamp`: the last entry added, or `(None, None)`
      * when nothing was. */
    method GetLatestWithTimestamp() returns (ts: Option<int>, obj: Option<T>)
      requires Valid()
      ensures history == [] ==> ts.None? && obj.None?
      ensures history != [] ==> ts == Some(history[|history| - 1].0) && obj == Some(history[|history| - 1].1)
    {
      if counter == 0 {
        return None, None;
      }
      var idx := (counter - 1) % logSize;
      ts := timestamps[idx];
      obj := log[idx];
    }

    /** `get_bordering_timestamps(t)`: the largest stored timestamp below
      * `t` and the smallest at or above it, each with the last slot holding
      * it. With no stored timestamp below `t` the previous index is the
      * last empty slot, if any, as the lookup also files empty slots. */
    method GetBorderingTimestamps(t: int) returns (prevIdx: Option<nat>, prev: Option<int>, nextIdx: Option<nat>, next: Option<int>)
      ensures prev.Some? <==> exists s :: 0 <= s < timestamps.Length && timestamps[s].Some? && timestamps[s].value < t
      ensures prev.Some? ==> Some(prev.value) in timestamps[..] && prev.value < t
      ensures prev.Some? ==> forall s :: 0 <= s < timestamps.Length && timestamps[s].Some? && timestamps[s].value < t ==>
                timestamps[s].value <= prev.value
      ensures next.Some? <==> exists s :: 0 <= s < timestamps.Length && timestamps[s].Some? && timestamps[s].value >= t
      ensures next.Some? ==> Some(next.value) in timestamps[..] && next.value >= t
      ensures next.Some? ==> forall s :: 0 <= s < timestamps.Length && timestamps[s].Some? && timestamps[s].value >= t ==>
                next.value <= timestamps[s].value
      ensures prevIdx == LastIndexOf(timestamps[..], prev) && nextIdx == LastIndexOf(timestamps[..], next)
    {
      var lst := Sort(Stored(timestamps[..]));
      SortedStored(timestamps[..]);
      next := None;
      prev := None;
      var i := 0;
      while i < |lst|
        invariant 0 <= i <= |lst|
        invariant forall j :: 0 <= j < i ==> lst[j] < t
        invariant prev == if i == 0 then None else Some(lst[i - 1])
        invariant next.None?
      {
        if lst[i] >= t {
          next := Some(lst[i]);
          break;
        }
        prev := Some(lst[i]);
        i := i + 1;
      }
      FoundBorders(lst, t, i, prev, next, timestamps[..]);
      assert forall s :: 0 <= s < timestamps.Length ==> timestamps[s] == timestamps[..][s];
      prevIdx := LastIndexOf(timestamps[..], prev);
      nextIdx := LastIndexOf(timestamps[..], next);
    }

    /** `get_pair_by_timestamp(t)`: the bordering timestamps with the
      * objects of their slots; without a stored timestamp on one side that
      * side's object is `None`. */
    method GetPairByTimestamp(t: int) returns (prevObj: Option<T>, prev: Option<int>, nextObj: Option<T>, next: Option<int>)
      requires Valid()
      ensures prev.None? <==> forall s :: 0 <= s < logSize && timestamps[s].Some? ==> timestamps[s].value >= t
      ensures next.None? <==> forall s :: 0 <= s < logSize && timestamps[s].Some? ==> timestamps[s].value < t
      ensures prev.None? ==> prevObj.None?
      ensures next.None? ==> nextObj.None?
      ensures prev.Some? ==> exists s :: 0 <= s < logSize && timestamps[s] == prev && log[s] == prevObj
      ensures next.Some? ==> exists s :: 0 <= s < logSize && timestamps[s] == next && log[s] == nextObj
    {
      var prevIdx, nextIdx;
      prevIdx, prev, nextIdx, next := GetBorderingTimestamps(t);
      prevObj := if prevIdx.None? then None else log[prevIdx.value];
      nextObj := if nextIdx.None? then None else log[nextIdx.value];
      if prevIdx.Some? {
        EmptySlotEmptyLog(prevIdx.value);
      }
      if nextIdx.Some? {
        EmptySlotEmptyLog(nextIdx.value);
      }
    }

    /** A slot without a timestamp holds no object. */
    lemma EmptySlotEmptyLog(s: nat)
      requires Valid() && s < logSize
      ensures timestamps[s].None? ==> log[s].None?
    {
    }
  }

  /** The sorted list holds exactly the stored timestamps. */
  lemma SortedStored(ts: seq<Option<int>>)
    ensures forall v :: v in Sort(Stored(ts)) <==> Some(v) in ts
  {
  }

  /** Scanning an ascending list up to the first value at or above `t`
    * finds the borders of `t` among the list's values. */
  lemma FoundBorders(lst: seq<int>, t: int, i: nat, prev: Option<int>, next: Option<int>, ts: seq<Option<int>>)
    requires Ascending(lst) && i <= |lst|
    requires forall v :: v in lst <==> Some(v) in ts
    requires forall j :: 0 <= j < i ==> lst[j] < t
    requires prev == if i == 0 then None else Some(lst[i - 1])
    requires next.Some? ==> i < |lst| && next == Some(lst[i]) && lst[i] >= t
    requires next.None? ==> i == |lst|
    ensures prev.Some? <==> exists s :: 0 <= s < |ts| && ts[s].Some? && ts[s].value < t
    ensures prev.Some? ==> Some(prev.value) in ts && prev.value < t
    ensures prev.Some? ==> forall s :: 0 <= s < |ts| && ts[s].Some? && ts[s].value < t ==> ts[s].value <= prev.value
    ensures next.Some? <==> exists s :: 0 <= s < |ts| && ts[s].Some? && ts[s].value >= t
    ensures next.Some? ==> Some(next.value) in ts && next.value >= t
    ensures next.Some? ==> forall s :: 0 <= s < |ts| && ts[s].Some? && ts[s].value >= t ==> next.value <= ts[s].value
  {
    forall s | 0 <= s < |ts| && ts[s].Some?
      ensures ts[s].value < t ==> i > 0 && ts[s].value <= lst[i - 1]
      ensures ts[s].value >= t ==> i < |lst| && lst[i] <= ts[s].value
    {
      assert Some(ts[s].value) in ts;
      var j :| 0 <= j < |lst| && lst[j] == ts[s].value;
    }
    if prev.Some? {
      assert lst[i - 1] in lst;
    }
    if next.Some? {
      assert lst[i] in lst;
    }
  }
}
