/** `GObject` of `simpleland/object.py`: a game object whose setters update
  * its position, data bag, enabled flag and shapes in place and stamp the
  * tick of the change. */
module GameObject {
  import opened Base
  import Ids

  /** A collision shape; the shape group keys shapes by `label`. */
  datatype Shape = Shape(shapeLabel: string, objectId: Option<Id>, collisionType: int, sensor: bool)

  /** What a snapshot of an object carries (its encoding as a tagged
    * dictionary is the business of module `SnapshotCodec`). */
  datatype ObjectSnapshot = ObjectSnapshot(
    id: Id, configId: Option<string>, position: Option<Vec>, viewPosition: Option<Vec>,
    playerId: Option<string>, createdTick: int, enabled: bool, visible: bool,
    lastChange: Option<int>, data: map<string, Datum>, shapes: map<string, Shape>)

  /** The collision type `add_shape` applies when none is given. */
  const DefaultCollisionType: int := 1

  class GObject {
    const id: Id
    var position: Option<Vec>
    var viewPosition: Option<Vec>
    var configId: Option<string>
    var playerId: Option<string>
    var createdTick: int
    var data: map<string, Datum>
    var lastChange: Option<int>
    var enabled: bool
    var visible: bool
    /** The shape group: label -> shape. */
    var shapes: map<string, Shape>
    /** Whether a position-update callback has been installed; until then
      * `update_position` calls a no-op. */
    var positionCallbackInstalled: bool

    /** A new object: a fresh `gen_id` unless an id is given, no position,
      * enabled, visible, never changed; `now` is the clock's tick. */
    constructor (ids: Ids.IdGen, givenId: Option<Id>, initialData: Option<map<string, Datum>>, now: int)
      requires ids.Valid()
      modifies ids
      ensures ids.Valid()
      ensures givenId.Some? ==> id == givenId.value && ids.uid == old(ids.uid) && ids.issued == old(ids.issued)
      ensures givenId.None? ==> id == old(ids.uid) + 1 && id !in old(ids.issued) && ids.issued == old(ids.issued) + {id}
      ensures position.None? && viewPosition.None? && configId.None? && playerId.None?
      ensures enabled && visible && lastChange.None? && shapes == map[] && !positionCallbackInstalled
      ensures createdTick == now
      ensures data == (if initialData.None? then map[] else initialData.value)
    {
      var newId: Id;
      if givenId.None? {
        newId := ids.GenId();
      } else {
        newId := givenId.value;
      }
      id := newId;
      position := None;
      viewPosition := None;
      configId := None;
      playerId := None;
      createdTick := now;
      data := if initialData.None? then map[] else initialData.value;
      lastChange := None;
      enabled := true;
      visible := true;
      shapes := map[];
      positionCallbackInstalled := false;
    }

    /** `Base.create_from_snapshot` for an object: a new `GObject()`, which
      * draws a `gen_id` id and stamps its creation tick, then
      * `load_snapshot`, which replaces the id, the creation tick and every
      * other recorded attribute by the snapshot's. */
    constructor FromSnapshot(ids: Ids.IdGen, s: ObjectSnapshot, sensorType: int)
      requires ids.Valid()
      modifies ids
      ensures ids.Valid() && ids.uid == old(ids.uid) + 1 && ids.issued == old(ids.issued) + {ids.uid}
      ensures Snapshot() == s.(shapes := Reloaded(map[], s, sensorType))
      ensures id == s.id && playerId == s.playerId && createdTick == s.createdTick && visible == s.visible
      ensures viewPosition == s.viewPosition && !positionCallbackInstalled
    {
      var drawn := ids.GenId();
      id := s.id;
      configId := s.configId;
      position := s.position;
      viewPosition := s.viewPosition;
      playerId := s.playerId;
      createdTick := s.createdTick;
      enabled := s.enabled;
      visible := s.visible;
      lastChange := s.lastChange;
      data := s.data;
      positionCallbackInstalled := false;
      new;
      shapes := Reloaded(map[], s, sensorType);
    }

    /** The interpolated view position when one is set, else the position. */
    function GetViewPosition(): (p: Option<Vec>)
      reads this
      ensures viewPosition.Some? ==> p == viewPosition
      ensures viewPosition.None? ==> p == position
    {
      if viewPosition.None? then position else viewPosition
    }

    method Disable()
      modifies this`enabled
      ensures !enabled
    {
      enabled := false;
    }

    method Enable()
      modifies this`enabled
      ensures enabled
    {
      enabled := true;
    }

    /** Stores `v` under `k` and stamps the change with tick `now`. */
    method SetDataValue(k: string, v: Datum, now: int)
      modifies this`data, this`lastChange
      ensures data == old(data)[k := v] && lastChange == Some(now)
    {
      data := data[k := v];
      lastChange := Some(now);
    }

    /** `get_data_value`: the stored value or the default. */
    function GetDataValue(k: string, default: Datum): (v: Datum)
      reads this
      ensures k in data ==> v == data[k]
      ensures k !in data ==> v == default
    {
      if k in data then data[k] else default
    }

    method SetLastChange(t: int)
      modifies this`lastChange
      ensures lastChange == Some(t)
    {
      lastChange := Some(t);
    }

    /** Sets the position (or `None`) and stamps the change with `now`. */
    method SetPosition(p: Option<Vec>, now: int)
      modifies this`position, this`lastChange
      ensures position == p && lastChange == Some(now)
    {
      position := p;
      lastChange := Some(now);
    }

    method SetPositionCallbackInstalled()
      modifies this`positionCallbackInstalled
      ensures positionCallbackInstalled
    {
      positionCallbackInstalled := true;
    }

    /** Stamps the shape with this object's id and the collision type, marks
      * it a sensor when the type is the sensor type, and files it under its
      * label, replacing any shape with the same label. */
    method AddShape(shape: Shape, collisionType: int, sensorType: int)
      modifies this`shapes
      ensures shape.shapeLabel in shapes
      ensures shapes == old(shapes)[shape.shapeLabel := StampedShape(shape, collisionType, sensorType)]
    {
      shapes := shapes[shape.shapeLabel := StampedShape(shape, collisionType, sensorType)];
    }

    function StampedShape(shape: Shape, collisionType: int, sensorType: int): (s: Shape)
      ensures s.shapeLabel == shape.shapeLabel && s.objectId == Some(id) && s.collisionType == collisionType
      ensures s.sensor == (shape.sensor || collisionType == sensorType)
    {
      shape.(objectId := Some(id), collisionType := collisionType,
             sensor := if collisionType == sensorType then true else shape.sensor)
    }

    /** The collision types of the object's shapes. */
    function CollisionTypes(): set<int>
      reads this`shapes
    {
      set l | l in shapes :: shapes[l].collisionType
    }

    function Snapshot(): (s: ObjectSnapshot)
      reads this
      ensures s.id == id && s.lastChange == lastChange && s.position == position && s.viewPosition == viewPosition
      ensures s.playerId == playerId && s.createdTick == createdTick && s.visible == visible && s.enabled == enabled
      ensures s.configId == configId && s.data == data && s.shapes == shapes
    {
      ObjectSnapshot(id, configId, position, viewPosition, playerId, createdTick, enabled, visible, lastChange, data, shapes)
    }

    /** The shape group after `load_snapshot` re-adds the snapshot's shapes
      * with `add_shape`'s default collision type. */
    function Reloaded(old_shapes: map<string, Shape>, s: ObjectSnapshot, sensorType: int): (r: map<string, Shape>)
      ensures r.Keys == old_shapes.Keys + s.shapes.Keys
      ensures forall l :: l in s.shapes ==> r[l].collisionType == DefaultCollisionType && r[l].objectId == Some(id)
      ensures forall l :: l in old_shapes && l !in s.shapes ==> r[l] == old_shapes[l]
    {
      old_shapes + map l | l in s.shapes :: StampedShape(s.shapes[l], DefaultCollisionType, sensorType)
    }

    /** `load_snapshot`: every recorded attribute is overwritten, and each
      * recorded shape is added again through `add_shape` without its
      * collision type, so it takes the default type; shapes the snapshot
      * does not name stay. The object keeps its id. */
    method LoadSnapshot(s: ObjectSnapshot, sensorType: int)
      modifies this`configId, this`position, this`viewPosition, this`playerId, this`createdTick
      modifies this`enabled, this`visible, this`lastChange, this`data, this`shapes
      ensures Snapshot() == s.(id := id, shapes := Reloaded(old(shapes), s, sensorType))
      ensures playerId == s.playerId && createdTick == s.createdTick && visible == s.visible && viewPosition == s.viewPosition
    {
      configId := s.configId;
      position := s.position;
      viewPosition := s.viewPosition;
      playerId := s.playerId;
      createdTick := s.createdTick;
      enabled := s.enabled;
      visible := s.visible;
      lastChange := s.lastChange;
      data := s.data;
      shapes := Reloaded(shapes, s, sensorType);
    }
  }
}
