/** `Player` of `landia/player.py`: a participant with a queue of input
  * events, a data bag, an attached object and a camera. The event queue is
  * never part of a snapshot. */
module Players {
  import opened Base
  import opened Events

  /** A player uid as the engine passes it around: unset, an integer or a
    * string. The player table files players under `str(uid)`. */
  datatype Uid = NoUid | IntUid(n: int) | StrUid(s: string)

  function DigitChar(d: nat): (c: char)
    requires d < 10
    ensures '0' <= c <= '9'
  {
    "0123456789"[d]
  }

  /** The decimal digits of `n`, most significant first. */
  function Digits(n: nat): (s: string)
    ensures |s| >= 1 && (n >= 10 ==> |s| >= 2)
    ensures forall i :: 0 <= i < |s| ==> '0' <= s[i] <= '9'
  {
    if n < 10 then [DigitChar(n)] else Digits(n / 10) + [DigitChar(n % 10)]
  }

  /** Python's `str(uid)`. */
  function Str(u: Uid): string
  {
    match u
    case NoUid => "None"
    case IntUid(n) => if n < 0 then "-" + Digits(-n) else Digits(n)
    case StrUid(s) => s
  }

  /** Distinct naturals have distinct decimal renderings. */
  lemma {:induction false} DigitsInjective(a: nat, b: nat)
    requires Digits(a) == Digits(b)
    ensures a == b
  {
    var da, db := Digits(a), Digits(b);
    if a >= 10 && b >= 10 {
      assert da[..|da| - 1] == Digits(a / 10);
      assert db[..|db| - 1] == Digits(b / 10);
      DigitsInjective(a / 10, b / 10);
      assert DigitChar(a % 10) == da[|da| - 1] == DigitChar(b % 10);
      DigitCharInjective(a % 10, b % 10);
      SameQuotientRemainder(a, b);
    } else if a < 10 && b < 10 {
      DigitCharInjective(a, b);
    } else {
      assert false;
    }
  }

  lemma DigitCharInjective(d: nat, e: nat)
    requires d < 10 && e < 10 && DigitChar(d) == DigitChar(e)
    ensures d == e
  {
  }

  lemma SameQuotientRemainder(a: nat, b: nat)
    requires a / 10 == b / 10 && a % 10 == b % 10
    ensures a == b
  {
    assert a == 10 * (a / 10) + a % 10;
    assert b == 10 * (b / 10) + b % 10;
  }

  /** A negative number's rendering starts with a minus sign, which no
    * rendering of a natural does. */
  lemma SignedDistinct(n: nat, m: nat)
    ensures "-" + Digits(n) != Digits(m)
  {
    assert ("-" + Digits(n))[0] == '-';
    assert '0' <= Digits(m)[0];
  }

  /** Distinct negative numbers have distinct renderings. */
  lemma NegativeDistinct(n: nat, m: nat)
    requires n != m
    ensures "-" + Digits(n) != "-" + Digits(m)
  {
    var sn, sm := "-" + Digits(n), "-" + Digits(m);
    if sn == sm {
      assert Digits(n) == sn[1..] && Digits(m) == sm[1..];
      DigitsInjective(n, m);
    }
  }

  /** Two different integer uids never share a slot in the player table. */
  lemma IntUidsDistinct(a: int, b: int)
    requires a != b
    ensures Str(IntUid(a)) != Str(IntUid(b))
  {
    if Str(IntUid(a)) == Str(IntUid(b)) {
      SameStrSameInt(a, b);
    }
  }

  lemma SameStrSameInt(a: int, b: int)
    requires Str(IntUid(a)) == Str(IntUid(b))
    ensures a == b
  {
    if a < 0 && b < 0 {
      if a != b {
        NegativeDistinct(-a, -b);
      }
    } else if a >= 0 && b >= 0 {
      DigitsInjective(a, b);
    } else if a < 0 {
      SignedDistinct(-a, b);
    } else {
      SignedDistinct(-b, a);
    }
  }

  /** The part of the camera the modelled code touches. */
  datatype Camera = Camera(followObjectId: Option<Id>, distance: int)

  /** A player's snapshot: every attribute but the event queue. */
  datatype PlayerSnapshot = PlayerSnapshot(
    uid: Uid, clientId: Option<string>, playerType: Datum, camera: Option<Camera>,
    objId: Option<Id>, isHuman: bool, data: map<string, Datum>)

  class Player {
    var uid: Uid
    var clientId: Option<string>
    var playerType: Datum
    var camera: Option<Camera>
    var objId: Option<Id>
    var isHuman: bool
    /** Input events queued since the last pull, oldest first. */
    var events: seq<Event>
    var data: map<string, Datum>

    /** `Player(...)`: no object attached, an empty event queue, and an
      * empty data bag unless one is given. */
    constructor (clientId: Option<string>, uid: Uid, data: Option<map<string, Datum>>,
                 playerType: Datum, camera: Option<Camera>, isHuman: bool)
      ensures this.uid == uid && this.clientId == clientId && this.playerType == playerType
      ensures this.camera == camera && this.isHuman == isHuman
      ensures objId.None? && events == []
      ensures this.data == if data.None? then map[] else data.value
    {
      this.uid := uid;
      this.clientId := clientId;
      this.playerType := playerType;
      this.camera := camera;
      this.objId := None;
      this.isHuman := isHuman;
      this.events := [];
      this.data := if data.None? then map[] else data.value;
    }

    /** `build_from_dict`: a new player carrying the snapshot's attributes
      * and an empty event queue. */
    constructor FromSnapshot(s: PlayerSnapshot)
      ensures Snapshot() == s && events == []
    {
      uid := s.uid;
      clientId := s.clientId;
      playerType := s.playerType;
      camera := s.camera;
      objId := s.objId;
      isHuman := s.isHuman;
      events := [];
      data := s.data;
    }

    function GetId(): Uid
      reads this
    {
      uid
    }

    /** `get_data_value`: the stored value, or the default for a missing key. */
    function GetDataValue(k: string, default: Datum): (v: Datum)
      reads this
      ensures k in data ==> v == data[k]
      ensures k !in data ==> v == default
    {
      if k in data then data[k] else default
    }

    method SetDataValue(k: string, v: Datum)
      modifies this`data
      ensures data == old(data)[k := v]
      ensures GetDataValue(k, DNone) == v
    {
      data := data[k := v];
    }

    /** `attach_object`: records the object id, then makes the camera follow
      * the object; without a camera the second step raises
      * `AttributeError` after the id has been recorded. */
    method AttachObject(id: Id) returns (err: Option<Error>)
      modifies this`objId, this`camera
      ensures objId == Some(id)
      ensures err.Some? <==> old(camera).None?
      ensures err.Some? ==> err.value.AttributeError? && camera == old(camera)
      ensures err.None? ==> camera == Some(old(camera).value.(followObjectId := Some(id)))
    {
      objId := Some(id);
      if camera.None? {
        return Some(AttributeError("set_follow_object"));
      }
      camera := Some(camera.value.(followObjectId := Some(id)));
      err := None;
    }

    /** `add_event`: appended at the end of the queue. */
    method AddEvent(e: Event)
      modifies this`events
      ensures events == old(events) + [e]
    {
      events := events + [e];
    }

    /** `pull_input_events`: the queued events in insertion order; the queue
      * is left empty. */
    method PullInputEvents() returns (es: seq<Event>)
      modifies this`events
      ensures es == old(events) && events == []
    {
      es := events;
      events := [];
    }

    /** `get_snapshot`: every attribute except the event queue. */
    function Snapshot(): PlayerSnapshot
      reads this`uid, this`clientId, this`playerType, this`camera, this`objId, this`isHuman, this`data
    {
      PlayerSnapshot(uid, clientId, playerType, camera, objId, isHuman, data)
    }

    /** `load_snapshot`: every attribute is overwritten except the event
      * queue, which keeps its events. */
    method LoadSnapshot(s: PlayerSnapshot)
      modifies this
      ensures Snapshot() == s && events == old(events)
    {
      uid := s.uid;
      clientId := s.clientId;
      playerType := s.playerType;
      camera := s.camera;
      objId := s.objId;
      isHuman := s.isHuman;
      data := s.data;
    }
  }
}
