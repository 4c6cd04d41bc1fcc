/** The snapshot codec of `landia/common.py`: an object's attributes are
  * exported as a tagged dictionary (`create_dict_snapshot`) and read back
  * (`parse_inner_val`, `load_dict_snapshot`), classes are found again by
  * name through the class registry, and `Vector2` values cross JSON as
  * tagged dictionaries. */
module SnapshotCodec {
  import opened Base

  /** The Python values the codec meets. A set is listed in its iteration
    * order; an object is its class name, whether its class derives from
    * `Base`, and its `__dict__`. `OtherV` is anything else (a function, a
    * socket, ...). */
  datatype Value =
    | NoneV
    | BoolV(b: bool)
    | IntV(i: int)
    | FloatV(r: real)
    | StrV(s: string)
    | VecV(v: Vec)
    | TupleV(items: seq<Value>)
    | SetV(items: seq<Value>)
    | QueueV(items: seq<Value>)
    | DictV(entries: map<string, Value>)
    | ListV(items: seq<Value>)
    | ObjV(typeName: string, isBase: bool, fields: map<string, Value>)
    | OtherV

  /** `None`, `int` (and `bool`), `float`, `str` and `Vector2`: kept as they are. */
  predicate Plain(v: Value)
  {
    v.NoneV? || v.BoolV? || v.IntV? || v.FloatV? || v.StrV? || v.VecV?
  }

  /** `{'_type': tag, 'value': value}` */
  function Tagged(tag: string, value: Value): (d: Value)
    ensures d.DictV? && d.entries.Keys == {"_type", "value"}
  {
    DictV(map["_type" := StrV(tag), "value" := value])
  }

  /** An attribute the snapshot never carries: excluded by the caller or
    * named with the local-only prefix `_l_`. */
  predicate Skipped(k: string, exclude: set<string>)
  {
    k in exclude || (|k| >= 3 && k[..3] == "_l_")
  }

  /** Whether an attribute value makes it into the snapshot: queues and
    * values of any other kind (including objects whose class does not
    * derive from `Base`) are dropped. */
  predicate Encodes(v: Value)
  {
    match v
    case ObjV(_, isBase, _) => isBase
    case QueueV(_) => false
    case OtherV => false
    case _ => true
  }

  /** `create_dict_snapshot(o, exclude)` for an object `o`:
    * `{'_type': <class name>, 'data': <the kept attributes, encoded>}`. */
  function SnapshotOf(o: Value, exclude: set<string>): (d: Value)
    requires o.ObjV?
    ensures d.DictV? && d.entries.Keys == {"_type", "data"} && d.entries["_type"] == StrV(o.typeName)
    ensures d.entries["data"].DictV?
    ensures forall k :: k in d.entries["data"].entries <==> k in o.fields && !Skipped(k, exclude) && Encodes(o.fields[k])
    decreases o, 1
  {
    DictV(map["_type" := StrV(o.typeName),
              "data" := DictV(map k | k in o.fields && !Skipped(k, exclude) && Encodes(o.fields[k]) :: EncodeField(o.fields[k]))])
  }

  /** An attribute value as `create_dict_snapshot` writes it: a `Base`
    * object as its own snapshot, plain values as they are, tuples and sets
    * tagged, and the members of dicts and lists through `EncodeInner`. */
  function EncodeField(v: Value): (r: Value)
    decreases v, 2
  {
    match v
    case ObjV(_, _, _) => SnapshotOf(v, {})
    case TupleV(_) => Tagged("tuple", v)
    case SetV(items) => Tagged("set", ListV(items))
    case DictV(e) => DictV(map k | k in e :: EncodeInner(e[k]))
    case ListV(items) => ListV(seq(|items|, i requires 0 <= i < |items| => EncodeInner(items[i])))
    case _ => v
  }

  /** A member of a dict or list attribute: an object (anything with a
    * `__dict__`) becomes its snapshot, anything else is kept raw. */
  function EncodeInner(v: Value): (r: Value)
    ensures !v.ObjV? ==> r == v
    decreases v, 3
  {
    if v.ObjV? then SnapshotOf(v, {}) else v
  }

  /** The message-free `TypeError` the decoder raises. */
  const Untyped: Error := TypeError("")

  /** Python's `set(items)`, listed in first-occurrence order. */
  function Dedup(items: seq<Value>): (r: seq<Value>)
    ensures forall x :: x in r <==> x in items
    ensures forall i, j :: 0 <= i < j < |r| ==> r[i] != r[j]
  {
    if items == [] then []
    else
      var d := Dedup(items[..|items| - 1]);
      var last := items[|items| - 1];
      assert items == items[..|items| - 1] + [last];
      if last in d then d else d + [last]
  }

  predicate NoRepeats(items: seq<Value>)
  {
    forall i, j :: 0 <= i < j < |items| ==> items[i] != items[j]
  }

  /** A list without repeats is its own `set`. */
  lemma {:induction false} DedupNoRepeats(items: seq<Value>)
    requires NoRepeats(items)
    ensures Dedup(items) == items
  {
    if items != [] {
      var init := items[..|items| - 1];
      DedupNoRepeats(init);
      assert items[|items| - 1] !in init;
      assert init + [items[|items| - 1]] == items;
    }
  }

  /** What `tuple(x)` and `set(x)` iterate over: the items of a list or a
    * tuple (JSON turns a tuple into a list), the one-character strings of
    * a string; `None`, numbers and objects are not iterable. */
  function ItemsOf(v: Value): (r: Option<seq<Value>>)
    ensures r.Some? <==> v.ListV? || v.TupleV? || v.StrV?
    ensures v.ListV? || v.TupleV? ==> r == Some(v.items)
    ensures v.StrV? ==> r.Some? && |r.value| == |v.s| && forall i :: 0 <= i < |v.s| ==> r.value[i] == StrV([v.s[i]])
  {
    match v
    case ListV(items) => Some(items)
    case TupleV(items) => Some(items)
    case StrV(s) => Some(seq(|s|, i requires 0 <= i < |s| => StrV([s[i]])))
    case _ => None
  }

  /** `parse_inner_val(v)` against the class registry `reg` (class name ->
    * the attributes a fresh instance has). Plain values, tuples and lists
    * come back unchanged; `tuple` and `set` tags are undone; an
    * untagged dict is parsed member by member; a dict tagged with another
    * name becomes a fresh instance of that registered class loaded from
    * it. A `queue` tag gives an empty queue whatever its value, since the
    * value is taken as the queue's `maxsize`; a string under `tuple` or
    * `set` is split into its characters. An unregistered name, or a
    * `tuple` or `set` tag whose value cannot be iterated, raises `TypeError`,
    * as does any other value. When several members of a dict fail, the
    * model raises a `KeyError` before an `AttributeError` before a
    * `TypeError` (Python raises the first in insertion order). */
  function Parse(v: Value, reg: map<string, map<string, Value>>): (r: Result<Value>)
    ensures r.Err? ==> r.error in {Untyped, MissingKey("data"), AttributeError("items")}
    ensures Plain(v) || v.TupleV? || v.ListV? ==> r == Ok(v)
    ensures v.SetV? || v.QueueV? || v.ObjV? || v.OtherV? ==> r == Err(Untyped)
    decreases v, 2
  {
    match v
    case DictV(_) => ParseDict(v, reg)
    case SetV(_) => Err(Untyped)
    case QueueV(_) => Err(Untyped)
    case ObjV(_, _, _) => Err(Untyped)
    case OtherV => Err(Untyped)
    case _ => Ok(v)
  }

  /** `parse_inner_val` on a dict: the three tags, an untagged dict, or a
    * dict naming a registered class. */
  function ParseDict(v: Value, reg: map<string, map<string, Value>>): (r: Result<Value>)
    requires v.DictV?
    ensures r.Err? ==> r.error in {Untyped, MissingKey("data"), AttributeError("items")}
    ensures "_type" !in v.entries ==> r == ParseMembers(v, reg)
    // `queue.Queue(value)` takes the value as the queue's `maxsize`
    ensures "_type" in v.entries && v.entries["_type"] == StrV("queue") ==> r == Ok(QueueV([]))
    ensures "_type" in v.entries && v.entries["_type"] == StrV("tuple") ==>
              && (r.Ok? <==> "value" in v.entries && ItemsOf(v.entries["value"]).Some?)
              && (r.Ok? ==> r.value == TupleV(ItemsOf(v.entries["value"]).value))
    ensures "_type" in v.entries && v.entries["_type"] == StrV("set") ==>
              && (r.Ok? <==> "value" !in v.entries || ItemsOf(v.entries["value"]).Some?)
              && (r.Ok? ==> r.value.SetV? && NoRepeats(r.value.items)
                            && forall x :: x in r.value.items <==> "value" in v.entries && x in ItemsOf(v.entries["value"]).value)
    decreases v, 1
  {
    var e := v.entries;
    if "_type" in e && e["_type"] == StrV("tuple") then
      if "value" in e && ItemsOf(e["value"]).Some? then Ok(TupleV(ItemsOf(e["value"]).value)) else Err(Untyped)
    else if "_type" in e && e["_type"] == StrV("set") then
      if "value" !in e then Ok(SetV([]))
      else if ItemsOf(e["value"]).Some? then Ok(SetV(Dedup(ItemsOf(e["value"]).value))) else Err(Untyped)
    else if "_type" in e && e["_type"] == StrV("queue") then
      Ok(QueueV([]))
    else if "_type" !in e then ParseMembers(v, reg)
    else if !e["_type"].StrV? || e["_type"].s !in reg then Err(Untyped)
    else if "data" !in e then Err(MissingKey("data"))
    else
      var loaded := LoadFields(reg[e["_type"].s], e["data"], {}, reg);
      if loaded.Ok? then Ok(ObjV(e["_type"].s, true, loaded.value)) else Err(loaded.error)
  }

  /** An untagged dict, member by member. */
  function ParseMembers(v: Value, reg: map<string, map<string, Value>>): (r: Result<Value>)
    requires v.DictV?
    ensures r.Err? ==> r.error in {Untyped, MissingKey("data"), AttributeError("items")}
    decreases v, 0
  {
    var e := v.entries;
    if exists k :: k in e && Parse(e[k], reg) == Err(MissingKey("data")) then Err(MissingKey("data"))
    else if exists k :: k in e && Parse(e[k], reg) == Err(AttributeError("items")) then Err(AttributeError("items"))
    else if exists k :: k in e && Parse(e[k], reg).Err? then Err(Untyped)
    else Ok(DictV(map k | k in e :: Parse(e[k], reg).value))
  }

  /** The kept members of `data` that parse, parsed. */
  function Loaded(data: map<string, Value>, exclude: set<string>, reg: map<string, map<string, Value>>): map<string, Value>
  {
    map k | k in data && !Skipped(k, exclude) && Parse(data[k], reg).Ok? :: Parse(data[k], reg).value
  }

  /** `load_dict_snapshot` into an object whose attributes are `fields`,
    * given the snapshot's `data` part: every kept member that parses is
    * stored, one that raises `TypeError` is skipped, and any other error
    * propagates (a `KeyError` before an `AttributeError`); `data` that is
    * not a dict raises `AttributeError`. */
  function LoadFields(fields: map<string, Value>, data: Value, exclude: set<string>,
                      reg: map<string, map<string, Value>>): (r: Result<map<string, Value>>)
    ensures r.Err? ==> r.error in {MissingKey("data"), AttributeError("items")}
    ensures r.Ok? ==>
              data.DictV? && r.value == fields + map k | k in data.entries && !Skipped(k, exclude) &&
                                                   Parse(data.entries[k], reg).Ok? :: Parse(data.entries[k], reg).value
    decreases data, 0
  {
    if !data.DictV? then Err(AttributeError("items"))
    else
      var d := data.entries;
      if exists k :: k in d && !Skipped(k, exclude) && Parse(d[k], reg) == Err(MissingKey("data")) then Err(MissingKey("data"))
      else if exists k :: k in d && !Skipped(k, exclude) && Parse(d[k], reg) == Err(AttributeError("items")) then Err(AttributeError("items"))
      else Ok(fields + map k | k in d && !Skipped(k, exclude) && Parse(d[k], reg).Ok? :: Parse(d[k], reg).value)
  }

  /** When no kept member raises anything but `TypeError`, the load
    * succeeds with exactly the members that parse. */
  lemma LoadFieldsOk(fields: map<string, Value>, d: map<string, Value>, exclude: set<string>,
                     reg: map<string, map<string, Value>>)
    requires forall k :: k in d && !Skipped(k, exclude) ==> Parse(d[k], reg).Ok? || Parse(d[k], reg) == Err(Untyped)
    ensures LoadFields(fields, DictV(d), exclude, reg) == Ok(fields + Loaded(d, exclude, reg))
  {
  }

  /** A value that `parse_inner_val` hands back unchanged: plain values,
    * tuples, lists, and untagged dicts of such values. */
  ghost predicate ParsesToItself(v: Value)
  {
    match v
    case DictV(e) => "_type" !in e && forall k :: k in e ==> ParsesToItself(e[k])
    case _ => Plain(v) || v.TupleV? || v.ListV?
  }

  /** An attribute value that survives a snapshot and its load: sets
    * without repeats, lists without objects (list members are never
    * parsed back), dicts without a `_type` key whose members survive, and
    * `Base` objects that survive whole. */
  ghost predicate RoundTrips(v: Value, reg: map<string, map<string, Value>>)
    decreases v, 1
  {
    match v
    case SetV(items) => NoRepeats(items)
    case ListV(items) => forall i :: 0 <= i < |items| ==> !items[i].ObjV?
    case DictV(e) => "_type" !in e && forall k :: k in e ==> InnerRoundTrips(e[k], reg)
    case ObjV(_, isBase, _) => isBase && ObjRoundTrips(v, reg)
    case QueueV(_) => false
    case OtherV => false
    case _ => true
  }

  /** A dict or list member that survives: a `Base` object that survives
    * whole, or a value parsed back unchanged. */
  ghost predicate InnerRoundTrips(v: Value, reg: map<string, map<string, Value>>)
    decreases v, 2
  {
    if v.ObjV? then v.isBase && ObjRoundTrips(v, reg) else ParsesToItself(v)
  }

  /** An object that survives whole: its class is registered under a name
    * that is not one of the three tags, a fresh instance has no attribute
    * the snapshot lacks, and every attribute is kept and survives. */
  ghost predicate ObjRoundTrips(o: Value, reg: map<string, map<string, Value>>)
    requires o.ObjV?
    decreases o, 0
  {
    && o.typeName in reg && o.typeName !in {"tuple", "set", "queue"}
    && reg[o.typeName].Keys <= o.fields.Keys
    && forall k :: k in o.fields ==> !Skipped(k, {}) && Encodes(o.fields[k]) && RoundTrips(o.fields[k], reg)
  }

  lemma {:induction false} ParseItself(v: Value, reg: map<string, map<string, Value>>)
    requires ParsesToItself(v)
    ensures Parse(v, reg) == Ok(v)
    decreases v, 0
  {
    if v.DictV? {
      var e := v.entries;
      forall k | k in e ensures Parse(e[k], reg) == Ok(e[k]) {
        ParseItself(e[k], reg);
      }
      UntaggedDict(e, e, reg);
    }
  }

  /** An untagged dict whose members parse to `parsed` parses to the dict
    * of `parsed`. */
  lemma UntaggedDict(e: map<string, Value>, parsed: map<string, Value>, reg: map<string, map<string, Value>>)
    requires "_type" !in e && e.Keys == parsed.Keys
    requires forall k :: k in e ==> Parse(e[k], reg) == Ok(parsed[k])
    ensures Parse(DictV(e), reg) == Ok(DictV(parsed))
  {
    assert Parse(DictV(e), reg) == ParseMembers(DictV(e), reg);
    assert !exists k :: k in e && Parse(e[k], reg).Err?;
    assert !exists k :: k in e && Parse(e[k], reg) == Err(MissingKey("data"));
    assert !exists k :: k in e && Parse(e[k], reg) == Err(AttributeError("items"));
    var m := map k | k in e :: Parse(e[k], reg).value;
    assert m.Keys == parsed.Keys;
    assert forall k :: k in m ==> m[k] == parsed[k];
    assert m == parsed;
  }

  /** A surviving attribute value parses back from its encoding. */
  lemma {:induction false} FieldRoundTrip(v: Value, reg: map<string, map<string, Value>>)
    requires Encodes(v) && RoundTrips(v, reg)
    ensures Parse(EncodeField(v), reg) == Ok(v)
    decreases v, 2
  {
    match v
    case ObjV(_, _, _) =>
      ObjectRoundTrip(v, reg);
    case SetV(items) =>
      SetRoundTrip(v, reg);
    case DictV(e) =>
      DictRoundTrip(v, reg);
    case ListV(items) =>
      ListRoundTrip(v, reg);
    case TupleV(_) =>
      TupleRoundTrip(v, reg);
    case _ =>
  }

  /** A surviving set attribute parses back from its `set` tag. */
  lemma SetRoundTrip(v: Value, reg: map<string, map<string, Value>>)
    requires v.SetV? && Encodes(v) && RoundTrips(v, reg)
    ensures Parse(EncodeField(v), reg) == Ok(v)
  {
    DedupNoRepeats(v.items);
    assert EncodeField(v) == Tagged("set", ListV(v.items));
  }

  /** A surviving list attribute parses back from its encoding. */
  lemma ListRoundTrip(v: Value, reg: map<string, map<string, Value>>)
    requires v.ListV? && Encodes(v) && RoundTrips(v, reg)
    ensures Parse(EncodeField(v), reg) == Ok(v)
  {
    var items := v.items;
    assert seq(|items|, i requires 0 <= i < |items| => EncodeInner(items[i])) == items;
  }

  /** A surviving tuple attribute parses back from its `tuple` tag. */
  lemma TupleRoundTrip(v: Value, reg: map<string, map<string, Value>>)
    requires v.TupleV? && Encodes(v) && RoundTrips(v, reg)
    ensures Parse(EncodeField(v), reg) == Ok(v)
  {
    assert EncodeField(v) == Tagged("tuple", v);
  }

  /** A surviving dict attribute parses back from its encoding. */
  lemma {:induction false} DictRoundTrip(v: Value, reg: map<string, map<string, Value>>)
    requires v.DictV? && RoundTrips(v, reg)
    ensures Parse(EncodeField(v), reg) == Ok(v)
    decreases v, 1
  {
    var e := v.entries;
    var enc := map k | k in e :: EncodeInner(e[k]);
    assert EncodeField(v) == DictV(enc);
    forall k | k in enc ensures Parse(enc[k], reg) == Ok(e[k]) {
      InnerRoundTrip(e[k], reg);
    }
    UntaggedDict(enc, e, reg);
  }

  /** A surviving dict or list member parses back from its encoding. */
  lemma {:induction false} InnerRoundTrip(v: Value, reg: map<string, map<string, Value>>)
    requires InnerRoundTrips(v, reg)
    ensures Parse(EncodeInner(v), reg) == Ok(v)
    decreases v, 3
  {
    if v.ObjV? {
      ObjectRoundTrip(v, reg);
    } else {
      ParseItself(v, reg);
    }
  }

  /** Updating `a` with a map that covers all of its keys leaves just
    * that map. */
  lemma MergeCovered(a: map<string, Value>, b: map<string, Value>)
    requires a.Keys <= b.Keys
    ensures a + b == b
  {
  }

  /** A dict tagged with a registered class name (not one of the three
    * tags) whose `data` loads into a fresh instance's attributes parses to
    * that instance. */
  lemma ObjectTagged(v: Value, n: string, f: map<string, Value>, reg: map<string, map<string, Value>>)
    requires v.DictV? && "_type" in v.entries && v.entries["_type"] == StrV(n) && "data" in v.entries
    requires n in reg && n !in {"tuple", "set", "queue"}
    requires LoadFields(reg[n], v.entries["data"], {}, reg) == Ok(f)
    ensures Parse(v, reg) == Ok(ObjV(n, true, f))
  {
    assert Parse(v, reg) == ParseDict(v, reg);
  }

  /** A surviving `Base` object comes back from its snapshot as an equal
    * fresh instance of its registered class. */
  lemma {:induction false} ObjectRoundTrip(o: Value, reg: map<string, map<string, Value>>)
    requires o.ObjV? && o.isBase && ObjRoundTrips(o, reg)
    ensures Parse(SnapshotOf(o, {}), reg) == Ok(o)
    decreases o, 1
  {
    SnapshotRoundTrip(o, {}, reg[o.typeName], reg);
    KeptAll(o.fields);
    MergeCovered(reg[o.typeName], o.fields);
    ObjectTagged(SnapshotOf(o, {}), o.typeName, o.fields, reg);
  }

  /** When every attribute is kept and survives, the kept attributes are
    * all of them. */
  lemma KeptAll(fields: map<string, Value>)
    requires forall k :: k in fields ==> !Skipped(k, {}) && Encodes(fields[k])
    ensures (map k | k in fields && !Skipped(k, {}) && Encodes(fields[k]) :: fields[k]) == fields
  {
    var kept := map k | k in fields && !Skipped(k, {}) && Encodes(fields[k]) :: fields[k];
    assert kept.Keys == fields.Keys;
  }

  /** `load_dict_snapshot(o2, create_dict_snapshot(o, exclude), exclude)`:
    * every kept attribute of `o` whose value survives is restored in `o2`,
    * and `o2`'s other attributes stay as they were. */
  lemma {:induction false} SnapshotRoundTrip(o: Value, exclude: set<string>, fields: map<string, Value>, reg: map<string, map<string, Value>>)
    requires o.ObjV?
    requires forall k :: k in o.fields && !Skipped(k, exclude) && Encodes(o.fields[k]) ==> RoundTrips(o.fields[k], reg)
    ensures LoadFields(fields, SnapshotOf(o, exclude).entries["data"], exclude, reg) ==
            Ok(fields + map k | k in o.fields && !Skipped(k, exclude) && Encodes(o.fields[k]) :: o.fields[k])
    decreases o, 0
  {
    var data := SnapshotOf(o, exclude).entries["data"].entries;
    forall k | k in data ensures Parse(data[k], reg) == Ok(o.fields[k]) {
      FieldRoundTrip(o.fields[k], reg);
    }
    KeptLoaded(o, exclude, reg);
  }

  /** When every recorded attribute parses back to `o`'s value, loading the
    * record gives back exactly the kept attributes whose values survive. */
  lemma KeptLoaded(o: Value, exclude: set<string>, reg: map<string, map<string, Value>>)
    requires o.ObjV?
    requires var data := SnapshotOf(o, exclude).entries["data"].entries;
             forall k :: k in data ==> Parse(data[k], reg) == Ok(o.fields[k])
    ensures Loaded(SnapshotOf(o, exclude).entries["data"].entries, exclude, reg)
            == map k | k in o.fields && !Skipped(k, exclude) && Encodes(o.fields[k]) :: o.fields[k]
  {
    var data := SnapshotOf(o, exclude).entries["data"].entries;
    assert Loaded(data, exclude, reg) == map k | k in o.fields && !Skipped(k, exclude) && Encodes(o.fields[k]) :: o.fields[k];
  }

  /** A list holding an object does not survive: its member comes back as
    * the object's snapshot dictionary. */
  lemma ListOfObjectsStaysEncoded(o: Value, reg: map<string, map<string, Value>>)
    requires o.ObjV?
    ensures Parse(EncodeField(ListV([o])), reg) == Ok(ListV([SnapshotOf(o, {})]))
    ensures Parse(EncodeField(ListV([o])), reg) != Ok(ListV([o]))
  {
    assert EncodeField(ListV([o])) == ListV([SnapshotOf(o, {})]);
  }

  /** `base_class_registry`: class name -> the attributes a fresh
    * instance of the class has. */
  class Registry {
    var classes: map<string, map<string, Value>>

    constructor ()
      ensures classes == map[]
    {
      classes := map[];
    }

    /** `register_base_cls`: filed under its name, replacing a class of
      * the same name. */
    method Register(name: string, defaults: map<string, Value>)
      modifies this
      ensures classes == old(classes)[name := defaults]
      ensures GetByName(name) == Some(defaults)
    {
      classes := classes[name := defaults];
    }

    /** `get_base_cls_by_name`: `None` for an unknown name. */
    function GetByName(name: string): (r: Option<map<string, Value>>)
      reads this
      ensures r.Some? <==> name in classes
      ensures r.Some? ==> r.value == classes[name]
    {
      if name in classes then Some(classes[name]) else None
    }
  }

  /** An object whose `__dict__` a snapshot is loaded into. */
  class Instance {
    const typeName: string
    var fields: map<string, Value>

    constructor (typeName: string, fields: map<string, Value>)
      ensures this.typeName == typeName && this.fields == fields
    {
      this.typeName := typeName;
      this.fields := fields;
    }

    /** `get_snapshot`, i.e. `create_dict_snapshot(self)`. */
    function GetSnapshot(): (d: Value)
      reads this
      ensures d.DictV? && "_type" in d.entries && d.entries["_type"] == StrV(typeName)
    {
      SnapshotOf(ObjV(typeName, true, fields), {})
    }

    /** `load_dict_snapshot(self, dict_data, exclude)`: `dict_data` that
      * is not a dict raises `TypeError`, one without `data` raises
      * `KeyError`, and `data` that is not a dict raises `AttributeError`;
      * otherwise see `LoadData`. */
    method LoadDictSnapshot(dictData: Value, exclude: set<string>, reg: Registry) returns (err: Option<Error>)
      modifies this
      ensures !dictData.DictV? ==> err == Some(Untyped) && fields == old(fields)
      ensures dictData.DictV? && "data" !in dictData.entries ==> err == Some(MissingKey("data")) && fields == old(fields)
      ensures dictData.DictV? && "data" in dictData.entries && !dictData.entries["data"].DictV? ==>
                err == Some(AttributeError("items")) && fields == old(fields)
      ensures dictData.DictV? && "data" in dictData.entries && dictData.entries["data"].DictV? ==>
                LoadedInto(old(fields), dictData.entries["data"].entries, exclude, reg.classes, err, fields)
    {
      if !dictData.DictV? {
        return Some(Untyped);
      }
      if "data" !in dictData.entries {
        return Some(MissingKey("data"));
      }
      var dataV := dictData.entries["data"];
      if !dataV.DictV? {
        return Some(AttributeError("items"));
      }
      err := LoadData(dataV.entries, exclude, reg.classes);
    }

    /** The loop of `load_dict_snapshot` over the members of `data`: a kept
      * member that parses is stored, one that raises `TypeError` is
      * skipped, and any other error stops the load, leaving the members
      * stored before it. */
    method LoadData(d: map<string, Value>, exclude: set<string>, reg: map<string, map<string, Value>>)
      returns (err: Option<Error>)
      modifies this
      ensures LoadedInto(old(fields), d, exclude, reg, err, fields)
    {
      ghost var f0 := fields;
      ghost var loaded := Loaded(d, exclude, reg);
      ghost var done: set<string> := {};
      var todo := d.Keys;
      while todo != {}
        invariant todo <= d.Keys && done == d.Keys - todo
        invariant Partial(f0, loaded, done, fields)
        invariant Harmless(d, exclude, reg, done)
        decreases todo
      {
        var k := Pick(todo);
        ghost var before := fields;
        if !Skipped(k, exclude) {
          var p := Parse(d[k], reg);
          if p.Ok? {
            fields := fields[k := p.value];
          } else if p.error != Untyped {
            PartialSub(f0, loaded, done, fields);
            LoadStopped(f0, d, exclude, reg, k, fields);
            return Some(p.error);
          }
        }
        PartialStep(f0, d, exclude, reg, done, k, before, fields);
        todo := todo - {k};
        done := done + {k};
      }
      LoadCompleted(f0, d, exclude, reg, fields);
      err := None;
    }
  }

  /** The members of `loaded` whose keys are among `done`. */
  function Restrict(loaded: map<string, Value>, done: set<string>): (r: map<string, Value>)
    ensures r.Keys == loaded.Keys * done
  {
    map k | k in done && k in loaded :: loaded[k]
  }

  /** `f` is `f0` with the loaded members among `done` stored. */
  ghost predicate Partial(f0: map<string, Value>, loaded: map<string, Value>, done: set<string>, f: map<string, Value>)
  {
    f == f0 + Restrict(loaded, done)
  }

  /** No kept member among `done` raises anything but `TypeError`. */
  ghost predicate Harmless(d: map<string, Value>, exclude: set<string>, reg: map<string, map<string, Value>>, done: set<string>)
  {
    forall k :: k in done && k in d && !Skipped(k, exclude) ==> Parse(d[k], reg).Ok? || Parse(d[k], reg) == Err(Untyped)
  }

  /** What `LoadData` leaves: with no error, exactly the loaded members
    * stored over the old attributes; an error is one that is not a
    * `TypeError` and exactly when the whole load fails; either way no
    * attribute appears that is neither old nor loaded. */
  ghost predicate LoadedInto(f0: map<string, Value>, d: map<string, Value>, exclude: set<string>,
                             reg: map<string, map<string, Value>>, err: Option<Error>, f: map<string, Value>)
  {
    && (err.None? <==> LoadFields(f0, DictV(d), exclude, reg).Ok?)
    && (err.None? ==> f == f0 + Loaded(d, exclude, reg))
    && (err.Some? ==> err.value in {MissingKey("data"), AttributeError("items")})
    && (forall k :: k in f ==> k in f0 || k in Loaded(d, exclude, reg))
  }

  /** Storing the loaded value of one more key (or nothing, when that
    * key did not load) extends the stored part by that key. */
  lemma RestrictStep(f0: map<string, Value>, loaded: map<string, Value>, done: set<string>, k: string,
                     f: map<string, Value>, f': map<string, Value>)
    requires f == f0 + Restrict(loaded, done)
    requires f' == if k in loaded then f[k := loaded[k]] else f
    ensures f' == f0 + Restrict(loaded, done + {k})
  {
    if k in loaded {
      assert Restrict(loaded, done + {k}) == Restrict(loaded, done)[k := loaded[k]];
    } else {
      assert Restrict(loaded, done + {k}) == Restrict(loaded, done);
    }
  }

  lemma PartialStep(f0: map<string, Value>, d: map<string, Value>, exclude: set<string>, reg: map<string, map<string, Value>>,
                    done: set<string>, k: string, f: map<string, Value>, f': map<string, Value>)
    requires k in d && k !in done
    requires Partial(f0, Loaded(d, exclude, reg), done, f) && Harmless(d, exclude, reg, done)
    requires !Skipped(k, exclude) ==> Parse(d[k], reg).Ok? || Parse(d[k], reg) == Err(Untyped)
    requires f' == if !Skipped(k, exclude) && Parse(d[k], reg).Ok? then f[k := Parse(d[k], reg).value] else f
    ensures Partial(f0, Loaded(d, exclude, reg), done + {k}, f') && Harmless(d, exclude, reg, done + {k})
  {
    var loaded := Loaded(d, exclude, reg);
    assert k in loaded <==> !Skipped(k, exclude) && Parse(d[k], reg).Ok?;
    RestrictStep(f0, loaded, done, k, f, f');
  }

  lemma PartialSub(f0: map<string, Value>, loaded: map<string, Value>, done: set<string>, f: map<string, Value>)
    requires Partial(f0, loaded, done, f)
    ensures forall k :: k in f ==> k in f0 || k in loaded
  {
  }

  lemma LoadStopped(f0: map<string, Value>, d: map<string, Value>, exclude: set<string>, reg: map<string, map<string, Value>>,
                    k: string, f: map<string, Value>)
    requires k in d && !Skipped(k, exclude) && Parse(d[k], reg).Err? && Parse(d[k], reg).error != Untyped
    requires forall j :: j in f ==> j in f0 || j in Loaded(d, exclude, reg)
    ensures LoadedInto(f0, d, exclude, reg, Some(Parse(d[k], reg).error), f)
  {
  }

  lemma LoadCompleted(f0: map<string, Value>, d: map<string, Value>, exclude: set<string>, reg: map<string, map<string, Value>>,
                      f: map<string, Value>)
    requires Partial(f0, Loaded(d, exclude, reg), d.Keys, f) && Harmless(d, exclude, reg, d.Keys)
    ensures LoadedInto(f0, d, exclude, reg, None, f)
  {
    var loaded := Loaded(d, exclude, reg);
    assert Restrict(loaded, d.Keys) == loaded;
    LoadFieldsOk(f0, d, exclude, reg);
  }

  /** `StateEncoder.default`: a `Vector2` becomes a tagged dict; anything
    * else JSON cannot write raises `TypeError`. */
  function EncodeDefault(v: Value): (r: Result<Value>)
    ensures r.Ok? <==> v.VecV?
  {
    if v.VecV? then Ok(DictV(map["_type" := StrV("Vector2"), "x" := IntV(v.v.x), "y" := IntV(v.v.y)]))
    else Err(TypeError("not JSON serializable"))
  }

  /** `StateDecoder.object_hook`: a dict tagged `Vector2` becomes the
    * vector (a missing coordinate raises `KeyError`); every other dict is
    * kept as it is. */
  function ObjectHook(d: map<string, Value>): (r: Result<Value>)
    ensures !("_type" in d && d["_type"] == StrV("Vector2")) ==> r == Ok(DictV(d))
  {
    if "_type" !in d || d["_type"] != StrV("Vector2") then Ok(DictV(d))
    else if "x" !in d then Err(MissingKey("x"))
    else if "y" !in d then Err(MissingKey("y"))
    else if d["x"].IntV? && d["y"].IntV? then Ok(VecV(Vec(d["x"].i, d["y"].i)))
    else Err(TypeError("Vector2 coordinates"))
  }

  /** The decoder undoes the encoder on vectors. */
  lemma VectorRoundTrip(p: Vec)
    ensures EncodeDefault(VecV(p)).Ok? && EncodeDefault(VecV(p)).value.DictV?
    ensures ObjectHook(EncodeDefault(VecV(p)).value.entries) == Ok(VecV(p))
  {
  }
}
