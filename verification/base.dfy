/** Shared value types of the engine: optional values, error results,
  * object/event identifiers, grid coordinates and integer positions. */
module Base {

  /** Python's `None`-or-value. */
  datatype Option<T> = None | Some(value: T)

  /** The exceptions the modelled code raises are returned as `Err`. */
  datatype Error =
    | KeyError(key: int)
    | IndexError(index: int)
    | NameError(name: string)
    | TypeError(what: string)
    | AttributeError(attr: string)
    | MissingKey(name: string)
    | ZeroDivisionError
    | Timeout

  datatype Result<T> = Ok(value: T) | Err(error: Error)

  /** A value stored in an object's or a player's `data` bag: a scalar or a
    * list (a tuple is stored as a list). */
  datatype Datum = DNone | DBool(b: bool) | DInt(i: int) | DStr(s: string) | DList(items: seq<Datum>)

  /** Python's truth value of a stored value. */
  predicate Truthy(d: Datum)
  {
    match d
    case DNone => false
    case DBool(b) => b
    case DInt(i) => i != 0
    case DStr(s) => s != ""
    case DList(items) => items != []
  }

  /** A byte of a datagram or of an encoded payload. */
  type Byte = b: int | 0 <= b < 256

  /** Ids handed out by `gen_id` (and player uids after stringification). */
  type Id = nat

  /** An integer grid cell `(x, y)` of the spatial index or of the map. */
  datatype Coord = Coord(x: int, y: int)

  /** A position; the engine places objects on whole pixels, so positions
    * are integer vectors (see README, "Left out"). */
  datatype Vec = Vec(x: int, y: int)

  /** Picks some member of a non-empty set, as iterating over it would. */
  method Pick<T>(s: set<T>) returns (x: T)
    requires s != {}
    ensures x in s
  {
    x :| x in s;
  }

  /** Moving a picked member `k` from the members still to visit to those
    * visited. */
  lemma PickedStep<T>(all: set<T>, done: set<T>, todo: set<T>, k: T)
    requires todo <= all && done == all - todo && k in todo
    ensures k in all && k !in done && todo - {k} <= all && done + {k} == all - (todo - {k})
  {
  }

  /** The slot value a ring buffer of `size` slots shows for slot `s`
    * after the values `hist` were written one after another from slot 0:
    * the latest one written to `s`, or `None` when none was. */
  function LatestAt<T>(hist: seq<T>, s: nat, size: nat): Option<T>
    requires size > 0
  {
    if hist == [] then None
    else if (|hist| - 1) % size == s then Some(hist[|hist| - 1])
    else LatestAt(hist[..|hist| - 1], s, size)
  }
}
