# A verified model of the landia game engine core

landia (and simpleland, the older generation of the same code) is a
tick-based game engine for 2D grid worlds. Game objects sit on integer
cells, and everything that happens travels as an event on a per-tick bus.
A server keeps one session per remote client and ships each client
snapshots of what changed. On top of the engine runs a survival game: a
tile map, objects with inventories and crafting, and game modes such as
food collection, tag, infection and capture the flag.

The Dafny project models that core, one module per component:

- `Base`, `Ids`, `Clock`, `Rounding`, `MergeDict`: the shared values. These
  are the global id counter, the step clock, Python's half-to-even
  `round` behind the position/cell conversion, and the recursive
  configuration merge.
- `GameObject`, `GridIndex`, `Physics`, `ObjectTable`: game objects and
  the grid index. The grid physics engine applies moves at once or buffers
  them until the tick ends, committing or dropping each one on its
  collision verdict. The object table keeps a config-id index and builds
  full and delta snapshots.
- `Events`, `EventBus`, `EventPass`, `Game`: the event kinds (delayed and
  periodic among them), the bus with its snapshots, and
  `GameContext.run_event_processing`. That pass dispatches every event on
  the bus and every follow-up event, then removes the marked ones.
  `Game.GameContext` also covers the remote-client registry, adding and
  removing objects, sound events, loading snapshots, players, and
  `run_step`.
- `Players`, `PlayerTable`, `RemoteClients`, `ServerSession`, `Framing`,
  `SnapshotCodec`, `StateDicts`, `TimeLog`: players and the player table,
  the client session record and the client request loop, the server's
  acknowledgement and backpressure handling, and the datagram framing
  with its reassembly. They also cover the tagged-dictionary snapshot
  codec, the state/dict conversion and the ring-buffer time log.
- `SurvivalUtils`, `SurvivalCommon`, `SurvivalObjects`, `SurvivalMap`,
  `SurvivalContent`, `SurvivalControllers`: the survival game.
  - The type tree and the vetoing triggers.
  - Inventory slots, the craft menu and crafting.
  - Rewards, food and stamina.
  - The text map layers and sectors.
  - Admin commands, input modes and the camera.
  - The game-mode controllers.
  - Where the two generations differ (`simpleland/contentbundles/...` or
    `landia/contentbundles/...` against `landia/survival/...`), a `newer`
    flag chooses the version.

Methods that change state are proved against specification functions or
state predicates. Lemmas prove round trips, such as snapshot export and
import, state/dict conversion, framing against reassembly, and position to
cell and back. They also prove the invariants the operations preserve.
Clocks, randomness, content handlers and collision callbacks are
parameters. Where the source draws at random, the model takes any
candidate.

## Model

| member | source | states |
|---|---|---|
| Base.Pick | landia/game.py:234-236 | the element drawn from a non-empty set is a member of it, as `set.pop()` gives |
| Clock.StepClock.constructor | simpleland/clock.py:6-10 | a new clock starts at tick 0 with the given start time |
| Clock.StepClock.GetStartTime | simpleland/clock.py:12-13 | returns the recorded start time |
| Clock.StepClock.SetStartTime | simpleland/clock.py:15-16 | the start time becomes the given one and nothing else changes |
| Clock.StepClock.Tick | simpleland/clock.py:27-33 | without a tick rate the counter grows by exactly one and the new count is returned |
| Clock.StepClock.GetTicks | simpleland/clock.py:35-36 | returns the counter and changes nothing |
| Ids.IdGen.constructor | simpleland/utils.py:4 | the id counter starts at 0 |
| Ids.IdGen.GenId | simpleland/utils.py:5-8 | each id is one more than the last, so it is larger than every id issued before and ids start at 1 |
| MergeDict.MergedDictionary | simpleland/utils.py:29-44 | a missing left side is an empty dictionary, a missing right side gives the left back, otherwise the result is the recursive merge `Merged` |
| MergeDict.MergeInto | simpleland/utils.py:36-44 | the loop over the right-hand items yields exactly the reference merge `Merged` |
| MergeDict.RestrictStep | simpleland/utils.py:36-43 | merging one more right-hand key updates that key and no other |
| MergeDict.MergedValues | simpleland/utils.py:37-43 | a key only on the left keeps its value; a right key whose values are not both dictionaries takes the right value; two nested dictionaries are merged recursively; the keys are the union |
| MergeDict.MergedEmptyRight | simpleland/utils.py:34-35 | merging an empty dictionary gives the left side back |
| MergeDict.MergedIdempotent | simpleland/utils.py:29-44 | merging a dictionary into itself changes nothing, at every depth |
| MergeDict.MergedRightAbsorbs | simpleland/utils.py:29-44 | merging the same right side twice equals merging it once |
| Rounding.RoundDiv | simpleland/physics_engine.py:80 | Python's `round(n / d)`: the result is within one half of `n / d`, and exact halves go to the even neighbour |
| Rounding.VecToCoord | simpleland/physics_engine.py:78-80 | each coordinate is the position divided by the tile size, rounded as `RoundDiv` |
| Rounding.CoordToVec | simpleland/physics_engine.py:82-83 | each component is the cell index times the tile size |
| Rounding.RoundDivExact | simpleland/physics_engine.py:80 | rounding an exact multiple of the divisor gives the factor back |
| Rounding.CoordRoundTrip | simpleland/physics_engine.py:78-83 | `vec_to_coord(coord_to_vec(c)) == c` for every cell and every positive tile size |
| GameObject.GObject.constructor | simpleland/object.py:18-49 | a new object gets a fresh `gen_id` id unless one is given; it has no position or view position, is enabled and visible, has never changed, and records the current tick as its creation tick |
| GameObject.GObject.GetViewPosition | simpleland/object.py:61-65 | the view position when one is set, otherwise the position |
| GameObject.GObject.Disable | simpleland/object.py:91-92 | the object is disabled |
| GameObject.GObject.Enable | simpleland/object.py:95-96 | the object is enabled |
| GameObject.GObject.SetDataValue | simpleland/object.py:104-106 | the key maps to the new value, every other key is kept, and the change is stamped with the current tick |
| GameObject.GObject.GetDataValue | simpleland/object.py:88-89 | the stored value when the key is present, otherwise the default |
| GameObject.GObject.SetLastChange | simpleland/object.py:149-150 | the last-change stamp becomes the given tick |
| GameObject.GObject.SetPosition | simpleland/object.py:128-130 | the position becomes the given one (or none) and the change is stamped with the current tick |
| GameObject.GObject.AddShape | simpleland/object.py:139-144 | the shape is stamped with the object's id and the collision type, is a sensor exactly when the type is the sensor type, and replaces any shape with the same label |
| GameObject.GObject.Snapshot | simpleland/object.py:158-162 | the snapshot records the id, config id, position, view position, player id, creation tick, enabled and visible flags, last change, data and shapes as the object holds them |
| GameObject.GObject.Reloaded | simpleland/object.py:169-170 | reloading re-adds every recorded shape with the default collision type and keeps shapes the snapshot does not name |
| GameObject.GObject.LoadSnapshot | simpleland/object.py:164-173 | every recorded attribute (config id, position, view position, player id, creation tick, enabled and visible flags, last change, data) is overwritten, the object keeps its id, and the shapes become `Reloaded` |
| GameObject.GObject.FromSnapshot | landia/common.py:164-168 | an object built from a snapshot draws one `gen_id` id and then carries the recorded id and every recorded attribute, its creation tick, player id, view position and visibility included, with the recorded shapes re-added at the default collision type |
| GridIndex.RemoveFirst | simpleland/physics_engine.py:51 | `list.remove`: the length drops by one exactly when the id is present, no new element appears and every other element is kept |
| GridIndex.RemoveFirstNoDup | simpleland/physics_engine.py:50-52 | removing from a bucket without duplicates removes the id altogether and keeps the bucket free of duplicates |
| GridIndex.RemoveFirstAbsent | simpleland/physics_engine.py:50-54 | removing an id not in the bucket leaves the bucket as it was |
| GridIndex.UnindexedAgrees | simpleland/physics_engine.py:41-56 | removing an id keeps the cell-to-ids and id-to-cell maps in agreement and leaves the id in no bucket |
| GridIndex.AppendedAgrees | simpleland/physics_engine.py:35-39 | appending an untracked id to a cell keeps the two maps in agreement |
| GridIndex.MovedAgrees | simpleland/physics_engine.py:32-39 | `move_obj_to` keeps the two maps in agreement |
| GridIndex.GridSpace.constructor | simpleland/physics_engine.py:19-24 | a new space tracks nothing and its maps agree |
| GridIndex.GridSpace.GetObjsAt | simpleland/physics_engine.py:29-30 | the ids in a cell, the empty list for an unoccupied cell; they are exactly the ids the reverse map places there |
| GridIndex.GridSpace.GetObjById | simpleland/physics_engine.py:58-59 | the tracked object for the id, or none |
| GridIndex.GridSpace.RemoveObj | simpleland/physics_engine.py:41-56 | an untracked id changes nothing; otherwise the id leaves its bucket (a bucket holding only it is deleted), the reverse map and the tracked objects, and every other entry is kept |
| GridIndex.GridSpace.MoveObjTo | simpleland/physics_engine.py:32-39 | the object leaves its old cell, is appended at the end of the new cell's bucket, is indexed at that cell only and is tracked |
| Events.TypeName | simpleland/event.py:8-10 | every kind has a non-empty class name, the `_type` a snapshot records |
| Events.TypeNameInjective | simpleland/event.py:8-10 | for each of the ten kinds, two kinds with the same class name are both of it or both not, so a snapshot's `_type` tells its kind back |
| Events.DefaultIsClientEvent | simpleland/event.py:121-150 | only object removals and sounds default to being forwarded to clients |
| Events.Build | simpleland/event.py:15-26 | the event keeps its id and kind; a missing or zero creation time becomes the current tick; the client flag defaults by kind and the server flag to true |
| Events.NewEvent | simpleland/event.py:20-23 | without a given id the event takes the next `gen_id` value, which no earlier id equals; with one, no id is drawn; the rest is `Build` |
| Events.DelayedKind | simpleland/event.py:95-106 | a delayed event built at a tick is due exactly `delay` ticks later |
| Events.PeriodicKind | simpleland/event.py:66-78 | with `run_immediately` the event has never run; otherwise its last run is the current tick |
| Events.DelayedRun | simpleland/event.py:111-118 | the event asks for its removal exactly when its tick has come, and then returns what its function produced; before that it returns nothing |
| Events.PeriodicDue | simpleland/event.py:87 | a never-run event is due; a run event with no interval raises `TypeError`; otherwise it is due once `last_run + interval` has been reached |
| Events.PeriodicRun | simpleland/event.py:83-91 | the function is called exactly when the event is due, and then `last_run` moves to the current tick; whatever the function returns, `run` returns no follow-ups and no removal |
| Events.PeriodicOncePerTick | simpleland/event.py:83-91 | with a positive interval, running the event again at the same tick does not call its function |
| EventBus.Snap | landia/common.py:48-86 | an event's snapshot records its class name and its fields |
| EventBus.BuildEvent | simpleland/event.py:7-10 | `cls(**data)` succeeds exactly when the name is the fields' class and the class is neither delayed nor periodic (their `func` is never recorded); the event keeps its id and kind; an object event is stamped now with the default flags; any other keeps its flags and its creation tick, a zero tick becoming now |
| EventBus.BuildSnapRoundTrip | simpleland/event.py:7-10 | rebuilding an event from its own snapshot fails for delayed and periodic events, re-stamps an object event, and otherwise gives the event back, a zero creation tick becoming the current one |
| EventBus.AddedAllSnoc | landia/event_manager.py:20-22 | adding one more event is one more `add_event` |
| EventBus.AddedAllSpec | landia/event_manager.py:17-22 | `add_events` puts every event's id on the bus, keeps every other entry, files each event under its own id, and for an id added several times the last event wins |
| EventBus.AddedAllKeys | landia/event_manager.py:17-22 | after `add_events` the bus holds exactly the old ids and the added events' ids |
| EventBus.AddedAllKeeps | landia/event_manager.py:17-22 | `add_events` leaves every entry whose id it does not add untouched |
| EventBus.AddedAllLastWins | landia/event_manager.py:17-22 | an event not followed by another with its id is the one filed under that id |
| EventBus.AddedAllKeyed | landia/event_manager.py:17-22 | `add_events` keeps every entry filed under its own id |
| EventBus.BuiltIdsComplete | landia/event_manager.py:54-61 | an entry whose class name matches contributes its id to the load |
| EventBus.BuiltIdsSound | landia/event_manager.py:54-61 | every id a load adds comes from an entry that builds |
| EventBus.LoadedAllSpec | landia/event_manager.py:54-64 | after a load the bus holds the old ids plus those of the entries that build, and every entry stays under its own id |
| EventBus.EventManager.constructor | landia/event_manager.py:13-15 | a new bus is empty |
| EventBus.EventManager.AddEvent | landia/event_manager.py:17-18 | the event is filed under its id, replacing an event with that id, and nothing else changes |
| EventBus.EventManager.AddEvents | landia/event_manager.py:20-22 | the bus becomes `AddedAll` of the old bus and the events |
| EventBus.EventManager.GetEventById | landia/event_manager.py:30-31 | the event under the id, or `KeyError` exactly when the id is absent |
| EventBus.EventManager.RemoveEventById | landia/event_manager.py:33-34 | the id leaves the bus; an absent id leaves the bus unchanged |
| EventBus.EventManager.Clear | landia/event_manager.py:36-37 | the bus is empty |
| EventBus.EventManager.GetSnapshot | landia/event_manager.py:39-44 | one snapshot per event on the bus, and nothing else |
| EventBus.EventManager.GetClientSnapshot | landia/event_manager.py:46-52 | snapshots of exactly the input events on the bus, one each |
| EventBus.EventManager.LoadSnapshot | landia/event_manager.py:54-64 | the bus becomes `LoadedAll` of the old bus and the entries |
| EventPass.Outcome | landia/game.py:235-276 | a dispatched event is removed exactly when it is not periodic, not a sound and not a delayed event still pending; views, removals, position changes, periodic events and sounds return no follow-ups; the others return what their handler returns |
| EventPass.PeriodicRunAgrees | simpleland/event.py:83-91 | what `PeriodicEvent.run` returns is the `Outcome` the pass uses for it |
| EventPass.Rearm | landia/game.py:258-262 | dispatching an event changes no key of the bus and no entry other than the periodic entry it is, which keeps its id |
| EventPass.RearmAllSpec | landia/game.py:235-276 | a whole pass changes no key of the bus and only the `last_run` of periodic entries |
| EventPass.RearmAllSnoc | landia/game.py:235-276 | one more dispatched event is one more `Rearm` |
| EventPass.ProducedSnoc | landia/game.py:274-276 | the follow-ups grow by what the next dispatched event returns |
| EventPass.ProducedContents | landia/game.py:274-276 | an event is among the follow-ups exactly when some dispatched event returned it |
| EventPass.AfterPass | landia/game.py:230-281 | the bus a pass leaves holds the old ids and the follow-ups' ids less the removed ones; no removed event stays; every entry stays under its own id |
| EventPass.IdSet | landia/game.py:280-281 | an id is in the set exactly when it is listed |
| EventPass.PassStart | landia/game.py:232-234 | a pass begins with the whole bus pending and nothing dispatched |
| EventPass.PassAdvance | landia/game.py:235-276 | popping any pending event, dispatching it and taking in its follow-ups keeps the pass on track |
| EventPass.PassDone | landia/game.py:278-281 | once nothing is pending, adding the follow-ups and removing the marked ids gives `AfterPass` |
| EventPass.PassKeepsEntry | landia/game.py:230-281 | a non-periodic entry that no follow-up replaces and that was not marked comes through a pass unchanged |
| EventPass.PeriodicSurvives | landia/game.py:258-262 | a periodic entry that no follow-up replaces stays on the bus through a whole pass with only its `last_run` changed, to the tick of the pass or not at all |
| EventPass.RearmAllPeriodic | simpleland/event.py:83-91 | re-arming across a pass leaves a periodic entry with only its `last_run` changed, to the tick of the pass or not at all |
| EventPass.SoundSurvives | landia/game.py:193-204 | a sound event stays on the bus through a pass, for `get_sound_events` to collect |
| EventPass.PendingDelayedSurvives | landia/game.py:253-257 | a delayed event that is not due stays on the bus |
| EventPass.DueDelayedFires | landia/game.py:253-257 | a due delayed event is gone after the pass and what its function returned is on the bus |
| Physics.WithCallback | simpleland/physics_engine.py:85-91 | both orders of the type pair map to the callback and every other pair keeps its callback |
| Physics.WithCallbackSymmetric | simpleland/physics_engine.py:85-91 | registering a callback keeps the callback table symmetric |
| Physics.Buffered | simpleland/physics_engine.py:114 | the new request is in the buffer |
| Physics.BufferedReplaces | simpleland/physics_engine.py:114 | a request for an object already buffered takes the earlier request's place in the insertion order |
| Physics.BufferedAppends | simpleland/physics_engine.py:114 | a request for an object not yet buffered goes to the end |
| Physics.BufferedDistinct | simpleland/physics_engine.py:114 | the buffer keeps one request per object id |
| Physics.Occupancy | simpleland/physics_engine.py:133-141 | the collision check sees exactly the tracked ids, each with its object's enabled flag and shape types |
| Physics.OccupancyFrame | simpleland/physics_engine.py:133-141 | the occupants as the check sees them depend only on the objects' enabled flags and shapes |
| Physics.OccupancyTrack | simpleland/physics_engine.py:39 | tracking one more object adds its view and nothing else |
| Physics.PassSnoc | simpleland/physics_engine.py:128-158 | the pass over one more request is one more `PassOne` |
| Physics.CommitKeepsGrid | simpleland/physics_engine.py:149 | committing a move keeps the index invariant |
| Physics.PassKeepsGrid | simpleland/physics_engine.py:128-158 | a whole pass keeps the index invariant |
| Physics.PassCommitsEnabled | simpleland/physics_engine.py:128-130 | only requests of enabled objects commit, and each commit is one of the buffered requests |
| Physics.PassKeepsOthers | simpleland/physics_engine.py:128-158 | the cell of an object no request is for is left alone |
| Physics.PassPlacesCommits | simpleland/physics_engine.py:148-149 | a committed move puts its object at the target cell, when no other request in the pass is for the same object |
| Physics.EarlierCommitBlocksLater | simpleland/physics_engine.py:133-149 | within one pass a committed move is seen by the later ones: a later move of another object into the same cell whose callback fires for the pair is blocked |
| Physics.ChangeEvents | simpleland/physics_engine.py:150-153 | one position-change event per committed move |
| Physics.ChangeEventsSnoc | simpleland/physics_engine.py:150-153 | one more committed move adds its event, with the next id, at the end |
| Physics.ConfirmationsSnoc | simpleland/physics_engine.py:157-158 | one more committed move adds its callback, when it has one, at the end |
| Physics.ChangeEvent | simpleland/physics_engine.py:116-120 | the change event carries the object, the old and new position and whether it is a player's object, is stamped with the current tick and is a server event only |
| Physics.MoveOf | simpleland/physics_engine.py:128-132 | a request is seen as a move of its object to the cell of its new position |
| Physics.MovesOf | simpleland/physics_engine.py:128 | the buffer is seen as the moves of its requests in order |
| Physics.AdvanceCases | simpleland/physics_engine.py:148-158 | one request either commits (index moved, one id drawn, one event added) or changes nothing |
| Physics.TallyOfOne | simpleland/physics_engine.py:128-158 | the pass taken one request at a time agrees with `Advance` |
| Physics.TypeList | simpleland/physics_engine.py:140-141 | the collision types listed are exactly those of the object's shapes |
| Physics.AnyCallbackFires | simpleland/physics_engine.py:142-146 | the nested loops find a firing callback exactly when some pair of the two objects' types has one that fires |
| Physics.GridPhysicsEngine.constructor | simpleland/physics_engine.py:70-76 | a new engine has an empty index, an empty buffer and no callbacks |
| Physics.GridPhysicsEngine.ViewUnchanged | simpleland/physics_engine.py:133-141 | the collision view only changes with the index or an object's enabled flag or shapes |
| Physics.GridPhysicsEngine.ViewOk | simpleland/physics_engine.py:16-59 | the view of a valid engine satisfies the index invariant |
| Physics.GridPhysicsEngine.SetCollisionCallback | simpleland/physics_engine.py:85-91 | the callback table becomes `WithCallback` of the old one |
| Physics.GridPhysicsEngine.ApplyPosition | simpleland/physics_engine.py:100-112 | one change event with the next id is added; the object is moved in the index to its new cell, or dropped for no position; its position is set and stamped; the callback is confirmed |
| Physics.GridPhysicsEngine.Relocate | simpleland/physics_engine.py:105-110 | the index and position half of an applied change |
| Physics.GridPhysicsEngine.UpdateObjPosition | simpleland/physics_engine.py:99-114 | with the check skipped the change is applied at once as in `ApplyPosition`; otherwise the request is buffered under the object's id and nothing else changes |
| Physics.GridPhysicsEngine.AddObject | simpleland/physics_engine.py:94-97 | the change is stamped, the engine's callback is installed, one change event is added and the object is placed at the cell of its current position |
| Physics.GridPhysicsEngine.RemoveObject | simpleland/physics_engine.py:122-123 | the object leaves the index and nothing else in it changes |
| Physics.GridPhysicsEngine.UpdatePosition | simpleland/object.py:118-123 | an object never added to an engine changes nothing; otherwise the request goes through `UpdateObjPosition` |
| Physics.GridPhysicsEngine.SyncPosition | simpleland/object.py:125-126 | the current position is re-submitted with the check skipped |
| Physics.GridPhysicsEngine.CheckCollision | simpleland/physics_engine.py:133-146 | the move is blocked exactly when some other enabled occupant of the target cell has a firing callback with the mover |
| Physics.GridPhysicsEngine.HitBy | simpleland/physics_engine.py:135-146 | one occupant blocks exactly when it is another, enabled object with a firing callback for some type pair |
| Physics.GridPhysicsEngine.Resolve | simpleland/physics_engine.py:128-158 | a request commits exactly when its object is enabled and no callback vetoes it, and the engine state then agrees with `Advance`; otherwise nothing changes |
| Physics.GridPhysicsEngine.Apply | simpleland/physics_engine.py:148-158 | a move that passed the check moves the object, adds its event, sets its position and confirms its callback |
| Physics.GridPhysicsEngine.Update | simpleland/physics_engine.py:125-160 | after `update()` the index is the one `Pass` computes over the buffered moves in order, one event with a fresh id is added per committed move, the committed callbacks are confirmed in order, and the buffer is empty; each request's object whose move commits stands at its requested position stamped with `now`, and every other request's object keeps its position and stamp (`Placed`) |
| Physics.GridPhysicsEngine.ResolveAll | simpleland/physics_engine.py:128-158 | the loop of `update()`: every buffered request is resolved in buffer order (the state is the tally of `Pass` over all of them) and the objects' positions and stamps agree with `Placed` |
| Physics.GridPhysicsEngine.AllResolved | simpleland/physics_engine.py:128-158 | once all requests are resolved, the index, the `gen_id` counter, the bus and the confirmations are those of `Pass` over the whole buffer |
| Physics.GridPhysicsEngine.Step | simpleland/physics_engine.py:128-158 | one more request keeps the loop invariants: the state agrees with `Pass` over one more move, and `Placed` covers one more request |
| Physics.GridPhysicsEngine.ResolveAt | simpleland/physics_engine.py:128-158 | the `i`-th request of the buffer is resolved as in `Resolve`; only its own object's position and stamp can change, and they become the requested position and `now` exactly when it commits |
| Physics.PlacedNext | simpleland/physics_engine.py:148-155 | recording the `i`-th request's outcome extends `Placed` by one request |
| Physics.StampsFrom | simpleland/physics_engine.py:128-158 | when only the `i`-th object's position and stamp may differ from a record, the new record is that record with slot `i` replaced |
| Physics.GridPhysicsEngine.ClearBuffer | simpleland/physics_engine.py:160 | the buffer is emptied and the index and the objects' positions are left alone |
| ObjectTable.AddConsistent | simpleland/object_manager.py:14-18 | adding an object keeps the config index consistent, provided an object it replaces had the same config |
| ObjectTable.RemoveConsistent | simpleland/object_manager.py:30-34 | removing an object keeps the config index consistent |
| ObjectTable.StaleIndexAfterConfigChange | simpleland/object_manager.py:30-34 | an object whose config changed after it was added leaves its id filed under the old config once removed |
| ObjectTable.GObjectManager.constructor | simpleland/object_manager.py:9-11 | a new table and config index are empty |
| ObjectTable.GObjectManager.Add | simpleland/object_manager.py:14-18 | the object is filed under its id, replacing any object with that id, and its id is added to the set of its config |
| ObjectTable.GObjectManager.ClearObjects | simpleland/object_manager.py:20-22 | the table and the index are empty |
| ObjectTable.GObjectManager.GetById | simpleland/object_manager.py:27-28 | the object under the id, or none exactly when the id is absent |
| ObjectTable.GObjectManager.RemoveById | simpleland/object_manager.py:30-34 | an absent id raises `KeyError` and changes nothing; otherwise the object leaves the table and the set of its current config, and a consistent index stays consistent |
| ObjectTable.GObjectManager.GetObjectsByConfigId | simpleland/object_manager.py:24-25 | the objects of every id filed under the config, one per id; `KeyError` exactly when a filed id is missing from the table, which a consistent index rules out |
| ObjectTable.GObjectManager.GetSnapshotUpdate | simpleland/object_manager.py:39-44 | snapshots of exactly the objects changed at or after the given tick, one each; `TypeError` exactly when some object never changed |
| ObjectTable.GObjectManager.GetSnapshotFull | simpleland/object_manager.py:46-50 | one snapshot per object in the table, and nothing else |
| Players.DigitChar | simpleland/player_manager.py:23 | a decimal digit is rendered as a character from `0` to `9` |
| Players.Digits | simpleland/player_manager.py:23 | `str` of a natural is a non-empty string of decimal digits, of at least two digits from 10 on |
| Players.DigitsInjective | simpleland/player_manager.py:23 | distinct naturals have distinct `str` renderings |
| Players.SignedDistinct | simpleland/player_manager.py:23 | a negative number's rendering never equals a natural's |
| Players.NegativeDistinct | simpleland/player_manager.py:23 | distinct negative numbers have distinct renderings |
| Players.IntUidsDistinct | simpleland/player_manager.py:23-26 | two different integer uids never share a slot of the player table |
| Players.SameStrSameInt | simpleland/player_manager.py:23-26 | integer uids filed under the same `str` key are the same uid |
| Players.Player.constructor | landia/player.py:25-36 | a new player carries the given uid, client, type, camera and humanity, has no object and an empty event queue, and an empty data bag unless one is given |
| Players.Player.FromSnapshot | landia/player.py:10-23 | a player built from a snapshot carries the snapshot's attributes and an empty event queue |
| Players.Player.GetDataValue | landia/player.py:41-42 | the stored value, or the default for a missing key |
| Players.Player.SetDataValue | landia/player.py:44-45 | the key maps to the new value and every other key is kept |
| Players.Player.AttachObject | landia/player.py:47-49 | the object id is recorded; the camera then follows the object, and a player without a camera raises `AttributeError` after recording the id |
| Players.Player.AddEvent | landia/player.py:54-55 | the event is appended at the end of the queue |
| Players.Player.PullInputEvents | landia/player.py:57-60 | the queued events are returned in insertion order and the queue is left empty |
| Players.Player.LoadSnapshot | landia/player.py:66-67 | every attribute becomes the snapshot's except the event queue, which keeps its events |
| PlayerTable.ConcatContents | simpleland/player_manager.py:28-32 | an event is in the concatenated queues exactly when it is in one of them |
| PlayerTable.LoadedStep | simpleland/player_manager.py:43-49 | loading the entries all at once equals loading them one key after another |
| PlayerTable.LoadedNext | simpleland/player_manager.py:43-49 | one more loaded key sets that key's snapshot and keeps its queue when it was present |
| PlayerTable.LoadedSpec | simpleland/player_manager.py:41-50 | after a load the table has the old keys and the loaded ones; a loaded key holds exactly its entry and keeps the queue it had (a new one has an empty queue); every other key keeps its contents |
| PlayerTable.TrackKnown | simpleland/player_manager.py:44-45 | loading a key already in the table adds no key |
| PlayerTable.TrackNew | simpleland/player_manager.py:46-49 | loading a key not in the table files a player that was in no slot before under it and reports it as new |
| PlayerTable.LoadDone | simpleland/player_manager.py:41-50 | at the end of the loop the table is `LoadedTable` of the old one and the entries |
| PlayerTable.NewCount | simpleland/player_manager.py:42-50 | one new player is returned per key of the entries not in the old table |
| PlayerTable.PlayerManager.constructor | simpleland/player_manager.py:14-15 | a new table is empty |
| PlayerTable.PlayerManager.FiledNoAlias | simpleland/player_manager.py:23 | a table whose players sit under `str` of their own uid files no player twice |
| PlayerTable.PlayerManager.AddPlayer | simpleland/player_manager.py:17-23 | the player is filed under `str(uid)`, replacing any player there, and `get_player` then finds it |
| PlayerTable.PlayerManager.GetPlayer | simpleland/player_manager.py:25-26 | the player filed under `str(uid)`, or none exactly when no player is filed there |
| PlayerTable.PlayerManager.Queues | simpleland/player_manager.py:28-32 | the queue of every player in the table |
| PlayerTable.PlayerManager.PullEvents | simpleland/player_manager.py:28-32 | the result is the concatenation of the players' old queues, each player of the table exactly once, in the order the ghost `order` lists them; every queue is left empty and nothing else about a player changes |
| PlayerTable.PlayerManager.GetSnapshot | simpleland/player_manager.py:34-39 | one entry per uid in the table, holding the snapshot of a player with that uid; when players sit under their own uids, every player has its own entry |
| PlayerTable.PlayerManager.LoadSnapshot | simpleland/player_manager.py:41-50 | a key already in the table loads its entry into that player, keeping the queue; any other key gets a new player built from its entry; the new players are returned, one per new key; every other player is left as it was |
| PlayerTable.PlayerManager.LoadEntry | simpleland/player_manager.py:44-49 | one entry is loaded into the player under its key, or built into a new player filed there and returned exactly when the key was new |
| RemoteClients.ReceiveData | landia/client.py:40-53 | datagram bodies are appended up to and including the first terminal datagram; with no terminal datagram the socket times out |
| RemoteClients.ReceiveFramed | landia/client.py:40-53 | reading the server's framing of a non-empty payload gives back exactly that payload after the announced number of datagrams |
| RemoteClients.RemoteClient.constructor | landia/client.py:80-88 | a new client has sent no snapshot, has no player, no unconfirmed or queued messages, a zero request counter and a latency ring of `None`s |
| RemoteClients.RemoteClient.AddEvent | landia/client.py:90-91 | the event is appended to the outgoing queue |
| RemoteClients.RemoteClient.ClearEvents | landia/client.py:93-94 | the outgoing queue is empty |
| RemoteClients.RemoteClient.PullEventsSnapshot | landia/client.py:96-101 | the snapshots of the queued events, in queue order, one each; the queue is left empty |
| RemoteClients.RemoteClient.AddLatency | landia/client.py:103-105 | the latency is written at slot `request_counter % 10000`, every other slot is kept, the counter moves on, and each slot holds the latest latency written there |
| RemoteClients.PulledRebuild | landia/client.py:96-101 | the snapshots pulled from a client's queue, rebuilt on the server, lose every delayed and periodic event; every other queued event but an object event comes back as queued up to its creation tick, and an input event with a non-zero creation tick comes back exactly |
| RemoteClients.ClientConnector.constructor | landia/client.py:121-144 | a new connector has empty buffers, no received snapshots and a zero request counter |
| RemoteClients.ClientConnector.RequestClientId | landia/client.py:161 | the client id sent is the empty string while none is known |
| RemoteClients.ClientConnector.DrainOutgoing | landia/client.py:169-180 | items are taken from the front of the buffer, in order, until it is empty or an absent or empty item is taken; that item is dropped and the rest stays queued |
| RemoteClients.ClientConnector.OnResponse | landia/client.py:197-219 | after a response its snapshot is acknowledged next, the server's client id is adopted, an `UPDATE` is passed on to the game and the request is counted; a lost response changes none of these |
| ServerSession.FlattenedContents | simpleland/server.py:55-57 | an event entry is in the flattened list exactly when some item holds it |
| ServerSession.NextUnconfirmed | simpleland/server.py:43-68 | after one request the new snapshot awaits acknowledgement, every acknowledged snapshot other than it is gone, nothing new but it appears, and the set never exceeds the limit |
| ServerSession.OverloadResets | simpleland/server.py:62-68 | a client at the limit that acknowledges nothing starts again from the new snapshot alone |
| ServerSession.BelowLimitKeeps | simpleland/server.py:46-68 | below the limit only acknowledged snapshots are forgotten |
| ServerSession.Baseline | simpleland/server.py:43-64 | the snapshot is built against 0 (a full snapshot) when the client acknowledged nothing, and otherwise against the last snapshot sent or 0 |
| ServerSession.Acknowledge | simpleland/server.py:42-52 | every listed timestamp leaves the unconfirmed set, an unknown one is ignored, and an empty list resets the delta base to 0 |
| ServerSession.FlattenItems | simpleland/server.py:55-57 | the items' event entries, concatenated in order |
| ServerSession.Backpressure | simpleland/server.py:62-64 | at the limit or above the client gets a full snapshot and its unconfirmed set is forgotten; below it nothing changes |
| ServerSession.Frame | simpleland/server.py:87-98 | the payload is cut into `chunks + 1` datagrams, the `i`-th headed `(i + 1, chunks)` and carrying the `i`-th slice |
| ServerSession.Receive | simpleland/server.py:42-64 | acknowledgements are applied, the client's events are loaded into the bus as `LoadedAll`, backpressure is applied, and the delta base is `Baseline` |
| ServerSession.Send | simpleland/server.py:66-100 | the new snapshot's timestamp awaits acknowledgement, the response is framed as `Frame`, and the client's delta base becomes that timestamp |
| ServerSession.HandleStep | simpleland/server.py:42-100 | the two halves of `handle` together take the unconfirmed set one `NextUnconfirmed` step |
| ServerSession.EmptyItemsNoLoad | simpleland/server.py:59-60 | empty items leave the bus as it was, so skipping the load for them changes nothing |
| ServerSession.FlattenedEmpty | simpleland/server.py:59 | the flattened list is empty exactly when every item is |
| Framing.Chunks | simpleland/server.py:88 | `math.ceil(n / size)`: the least count of chunks of `size` bytes that holds `n` bytes |
| Framing.Slice | simpleland/server.py:92 | Python's clamped slice is never longer than the requested range |
| Framing.BodiesSnoc | landia/client.py:48 | one more datagram appends its body |
| Framing.EndsAtUnique | landia/client.py:43-50 | a transfer ends at one datagram only |
| Framing.FramedPrefix | simpleland/server.py:90-98 | the first `k` framed datagrams carry the first `k * size` bytes of the payload |
| Framing.FramedPayload | simpleland/server.py:90-98 | the framed bodies concatenate to the payload and the extra last datagram is empty |
| Framing.FramedEnds | landia/client.py:40-53 | the client reading the server's datagrams of a non-empty payload stops after `chunks` of them, holding exactly the payload |
| Framing.EmptyPayloadNeverEnds | simpleland/server.py:88-98 | an empty payload is sent as one datagram headed `(1, 0)`, which the client never takes as the last |
| SnapshotCodec.Tagged | landia/common.py:59-62 | a tagged value is a dictionary with exactly the keys `_type` and `value` |
| SnapshotCodec.SnapshotOf | landia/common.py:48-85 | the snapshot records the class name and holds exactly the attributes that are neither excluded nor `_l_`-prefixed and whose kind is written (queues and unknown kinds are skipped) |
| SnapshotCodec.EncodeInner | landia/common.py:69-80 | a member of a dict or list that is not an object is kept as it is |
| SnapshotCodec.Dedup | landia/common.py:62 | Python's `set(items)` listed once: the same members, without repeats |
| SnapshotCodec.DedupNoRepeats | landia/common.py:62 | a list without repeats is its own `set` |
| SnapshotCodec.Parse | landia/common.py:88-113 | plain values, tuples and lists come back unchanged; sets, queues and other objects raise `TypeError`; the only other errors are a missing `data` and a malformed `data`; dicts are read by `ParseDict` |
| SnapshotCodec.ParseDict | landia/common.py:92-107 | an untagged dict is parsed member by member; a `queue` tag gives an empty queue whatever its value (`maxsize`); a `tuple` tag succeeds exactly when its value is a list, a tuple or a string, and gives its items, a string split into characters; a `set` tag succeeds exactly when its value is missing or one of those, and gives the same items without repeats; the failures are those of `Parse` |
| SnapshotCodec.ItemsOf | landia/common.py:95-98 | what `tuple(x)` and `set(x)` iterate over: a list's or a tuple's items, a string's one-character strings, nothing else |
| SnapshotCodec.ParseMembers | landia/common.py:99-102 | an untagged dict fails only as its members fail |
| SnapshotCodec.LoadFields | landia/common.py:140-147 | the load fails only with a missing or malformed `data`; when it succeeds the attributes are the old ones updated with the members that parse |
| SnapshotCodec.LoadFieldsOk | landia/common.py:140-147 | when no kept member raises anything but `TypeError`, the load succeeds with exactly the members that parse |
| SnapshotCodec.ParseItself | landia/common.py:88-113 | a value made only of plain values, tuples, lists and untagged dicts parses to itself |
| SnapshotCodec.UntaggedDict | landia/common.py:99-102 | an untagged dict whose members parse parses to the dict of the parsed members |
| SnapshotCodec.FieldRoundTrip | landia/common.py:48-113 | every attribute value that survives encoding parses back to itself |
| SnapshotCodec.SetRoundTrip | landia/common.py:61-96 | a set attribute, written as its item list under the `set` tag, parses back to the same set |
| SnapshotCodec.TupleRoundTrip | landia/common.py:59-94 | a tuple attribute, written under the `tuple` tag, parses back to the same tuple |
| SnapshotCodec.ListRoundTrip | landia/common.py:74-109 | a surviving list attribute, whose members are written as they are, parses back to the same list |
| SnapshotCodec.DictRoundTrip | landia/common.py:67-73 | a surviving dict attribute parses back from its encoding |
| SnapshotCodec.InnerRoundTrip | landia/common.py:69-80 | a surviving dict or list member parses back from its encoding |
| SnapshotCodec.MergeCovered | landia/common.py:141-145 | updating attributes with a map that covers all of them leaves just that map |
| SnapshotCodec.ObjectTagged | landia/common.py:103-107 | a dict tagged with a registered class whose `data` loads into a fresh instance parses to that instance |
| SnapshotCodec.ObjectRoundTrip | landia/common.py:48-113 | a `Base` object whose attributes survive comes back from its snapshot as an equal fresh instance of its registered class |
| SnapshotCodec.KeptLoaded | landia/common.py:140-147 | when every recorded attribute parses back to the object's value, the loaded attributes are exactly the kept ones whose values survive |
| SnapshotCodec.SnapshotRoundTrip | landia/common.py:140-147 | loading an object's snapshot into another object restores every kept attribute that survives and leaves the other attributes as they were |
| SnapshotCodec.ListOfObjectsStaysEncoded | landia/common.py:74-80 | a list holding an object does not round-trip: its member comes back as the object's snapshot dictionary |
| SnapshotCodec.Registry.constructor | landia/common.py:6 | the class registry starts empty |
| SnapshotCodec.Registry.Register | landia/common.py:15-16 | the class is filed under its name, replacing a class of the same name, and the lookup then finds it |
| SnapshotCodec.Registry.GetByName | landia/common.py:19-20 | the class filed under the name, or none exactly when no class is |
| SnapshotCodec.Instance.constructor | landia/common.py:157-161 | a new instance has the given class name and attributes |
| SnapshotCodec.Instance.GetSnapshot | landia/common.py:170-171 | the snapshot is a dict recording the instance's class name |
| SnapshotCodec.Instance.LoadDictSnapshot | landia/common.py:140-147 | a snapshot that is not a dict raises `TypeError`, one without `data` raises `KeyError`, one whose `data` is not a dict raises `AttributeError`, each changing nothing; otherwise the members are loaded as `LoadData` |
| SnapshotCodec.Instance.LoadData | landia/common.py:141-147 | a kept member that parses is stored, one that raises `TypeError` is skipped, and any other error stops the load, keeping the members stored before it |
| SnapshotCodec.Restrict | landia/common.py:141-147 | the loaded members whose keys have been visited |
| SnapshotCodec.RestrictStep | landia/common.py:141-147 | storing one more key's loaded value extends the stored part by that key |
| SnapshotCodec.PartialStep | landia/common.py:141-147 | one more visited member keeps the partial-load invariant |
| SnapshotCodec.LoadStopped | landia/common.py:144-147 | a member that raises anything but `TypeError` ends the load with that error |
| SnapshotCodec.LoadCompleted | landia/common.py:141-147 | once every member is visited without an error, the load is complete |
| SnapshotCodec.EncodeDefault | landia/common.py:24-30 | the encoder writes exactly vectors, as dicts; anything else raises `TypeError` |
| SnapshotCodec.ObjectHook | landia/common.py:39-45 | every dict not tagged `Vector2` is kept as it is |
| SnapshotCodec.VectorRoundTrip | landia/common.py:23-45 | the decoder undoes the encoder on vectors |
| StateDicts.Put | landia/common.py:189 | `d[k] = v`: an existing key keeps its place and takes the new value, and a new key goes to the end |
| StateDicts.PutUnique | landia/common.py:189 | an assignment keeps the keys distinct |
| StateDicts.FromPairs | landia/common.py:187-189 | the dict built by assigning pairs in order has distinct keys |
| StateDicts.LookupPut | landia/common.py:189 | after `d[k] = v` the lookup of `k` gives `v` and every other lookup is unchanged |
| StateDicts.FromPairsLastWins | landia/common.py:187-189 | each key takes the value of its last pair, and no other key appears |
| StateDicts.FromUniquePairs | landia/common.py:187-189 | pairs whose keys are already distinct come back unchanged, in order |
| StateDicts.StateToDict | landia/common.py:184-190 | every name keeps its entry, whose pairs are assigned in order into a fresh dict |
| StateDicts.DictToState | landia/common.py:193-199 | every name keeps its entry, listing its dict's pairs in the dict's order |
| StateDicts.DictRoundTrip | landia/common.py:184-199 | `state_to_dict(dict_to_state(d)) == d` for every dict form |
| StateDicts.StateRoundTrip | landia/common.py:184-199 | `dict_to_state(state_to_dict(s)) == s` when no list repeats a key |
| StateDicts.RepeatedKeyCollapses | landia/common.py:186-189 | a list that repeats a key does not come back: its dict keeps one pair per key |
| TimeLog.Insert | landia/common.py:314 | inserting into an ascending list gives an ascending list with one more element, holding exactly the old values and the new one |
| TimeLog.Sort | landia/common.py:314 | `sorted` gives an ascending list of the same length with the same values |
| TimeLog.InsertPermutes | landia/common.py:314 | insertion adds exactly one occurrence of the value |
| TimeLog.SortPermutes | landia/common.py:314 | `sorted` keeps every value as often as it occurs |
| TimeLog.Stored | landia/common.py:314 | the filled slots' timestamps, exactly, with the `None`s dropped |
| TimeLog.LastIndexOf | landia/common.py:313 | the lookup built by enumeration gives the last slot holding a value, or none exactly when no slot holds it |
| TimeLog.TimeLoggingContainer.constructor | landia/common.py:293-297 | a new log has `log_size` empty slots and nothing added |
| TimeLog.TimeLoggingContainer.Add | landia/common.py:303-306 | the entry goes to slot `counter % log_size` and the counter advances, each slot holding the latest entry written there; a log of no slots raises `ZeroDivisionError` |
| TimeLog.TimeLoggingContainer.GetLatestWithTimestamp | landia/common.py:352-358 | the last entry added, or `(None, None)` when nothing was |
| TimeLog.TimeLoggingContainer.GetBorderingTimestamps | landia/common.py:311-326 | the previous timestamp is the largest stored one below `t` and the next the smallest stored one at or above it, each present exactly when such a timestamp is stored, and each index is the last slot holding it |
| TimeLog.TimeLoggingContainer.GetPairByTimestamp | landia/common.py:328-333 | each bordering timestamp comes with the object of a slot holding it; a missing side has no object |
| TimeLog.TimeLoggingContainer.EmptySlotEmptyLog | landia/common.py:295-306 | a slot without a timestamp holds no object |
| TimeLog.SortedStored | landia/common.py:314 | the sorted list holds exactly the stored timestamps |
| TimeLog.FoundBorders | landia/common.py:315-322 | scanning the ascending list to the first value at or above `t` finds the largest stored value below `t` and the smallest at or above it |
| SurvivalUtils.TruncDiv | simpleland/contentbundles/survival_utils.py:9 | Python's `int(n / d)`: the quotient truncated toward zero, for both signs of `n` |
| SurvivalUtils.VecToCell | simpleland/contentbundles/survival_utils.py:7-9 | each component is the position divided by the tile size and truncated |
| SurvivalUtils.CellToVec | simpleland/contentbundles/survival_utils.py:12-14 | each component is the cell index times the tile size |
| SurvivalUtils.TruncDivExact | simpleland/contentbundles/survival_utils.py:9 | truncating an exact multiple gives the factor back, whatever its sign |
| SurvivalUtils.CellRoundTrip | simpleland/contentbundles/survival_utils.py:7-14 | `vec_to_coord(coord_to_vec(c)) == c` for every cell |
| SurvivalUtils.NegativeOffsetLeavesCell | simpleland/contentbundles/survival_utils.py:7-14 | on the negative side truncation maps a position inside cell -1 to cell 0, so the trip from positions to cells and back is not an identity |
| SurvivalUtils.Mod360 | simpleland/contentbundles/survival_utils.py:17 | Python's `a % 360`: the representative in `[0, 360)` of the angle's class |
| SurvivalUtils.NormalizeAngle | simpleland/contentbundles/survival_utils.py:16-26 | the result is 0, 90, 180 or 270: 180 exactly for `[135, 225)`, 90 for `[45, 135)`, 270 for `[225, 315)` and 0 otherwise, after reducing modulo 360 |
| SurvivalUtils.SpriteDirection | simpleland/contentbundles/survival_utils.py:28-39 | the direction is one of up, left, right and down |
| SurvivalUtils.SpriteDirectionAgrees | simpleland/contentbundles/survival_utils.py:16-39 | the direction names the normalised angle: 180 is up, 90 left, 270 right and 0 down |
| SurvivalUtils.NormalizeStable | simpleland/contentbundles/survival_utils.py:16-26 | normalising twice changes nothing, and neither does a whole turn |
| SurvivalUtils.IntsToMultiHot | simpleland/contentbundles/survival_utils.py:59-70 | the vector has `max_id` slots and holds 1 exactly at the slots some listed index hits (numpy counting negative indices from the end) and 0 elsewhere; `None` gives zeros; an index outside the vector raises exactly when one is listed |
| SurvivalUtils.OneHot | simpleland/contentbundles/survival_utils.py:54-55 | a vector of the given length with a single 1 at the given slot |
| SurvivalUtils.Read | simpleland/contentbundles/survival_utils.py:49-52 | a named entry's vector, or the shared zero vector of the map's width |
| SurvivalUtils.IntMapToOnehotMap | simpleland/contentbundles/survival_utils.py:42-57 | the width is `max_id` or, by default, the number of names; each name maps to the one-hot vector of its index; an index outside the vector raises exactly when some name has one |
| SurvivalUtils.ReadDefaults | simpleland/contentbundles/survival_utils.py:49-52 | `None`, `""` and unknown names read as the zero vector, and every read has the map's width |
| SurvivalCommon.Expiry | simpleland/contentbundles/survival_common.py:65-70 | a record found expired stays so; otherwise it is expired exactly when it is not continuous and more than `ticks` ticks have passed since its start |
| SurvivalCommon.Answers | simpleland/contentbundles/survival_common.py:92-97 | one answer per query |
| SurvivalCommon.ExpirySticks | simpleland/contentbundles/survival_common.py:92-97 | once a query answers true every later query answers true, whatever tick it is asked at |
| SurvivalCommon.AllTrueAfter | simpleland/contentbundles/survival_common.py:93-94 | starting from an expired record every answer is true |
| SurvivalCommon.ContinuousNeverExpires | simpleland/contentbundles/survival_common.py:96 | a continuous record never expires unless it was created expired |
| SurvivalCommon.Effect.constructor | simpleland/contentbundles/survival_common.py:46-60 | an effect keeps its settings, starts at the current tick and is not expired |
| SurvivalCommon.Effect.IsExpired | simpleland/contentbundles/survival_common.py:65-70 | the answer is `Expiry` of the cached flag at the current tick, and is cached |
| SurvivalCommon.StartTickOf | simpleland/contentbundles/survival_common.py:85 | a missing or zero start tick means the current tick; any other is kept |
| SurvivalCommon.Action.constructor | simpleland/contentbundles/survival_common.py:74-90 | an action keeps its settings, starts at `StartTickOf` and is not expired |
| SurvivalCommon.Action.IsExpired | simpleland/contentbundles/survival_common.py:92-97 | the answer is `Expiry` of the cached flag at the current tick, and is cached |
| SurvivalCommon.StateController.constructor | simpleland/contentbundles/survival_common.py:110-114 | a new controller has not started |
| SurvivalCommon.StateController.Reset | simpleland/contentbundles/survival_common.py:120-121 | after `reset` the controller has started |
| SurvivalObjects.ParentLower | simpleland/contentbundles/survival_objects.py:52-62 | the type tree has no cycle: each parent sits strictly lower than its child |
| SurvivalObjects.Lineage | simpleland/contentbundles/survival_objects.py:65-75 | a type's lineage holds the type and is closed under taking the parent |
| SurvivalObjects.GetTypes | simpleland/contentbundles/survival_objects.py:65-75 | the loop that climbs the tree returns exactly the lineage of the starting type |
| SurvivalObjects.LineageExamples | simpleland/contentbundles/survival_objects.py:52-75 | a human is human, animal and animate; a tree is tree, plant and physical object; a type outside the tree is only itself |
| SurvivalObjects.PhysicalObject.constructor | simpleland/contentbundles/survival_objects.py:95-139 | a new object takes its health, maximum health, permanence, collision type and collectability from its configuration, with the defaults 100, 100, false, 1 and false for absent keys; it keeps the configured tags and disabled actions, has no triggers and no queued action, and starts the default idle action at the current tick |
| SurvivalObjects.PhysicalObject.DefaultAction | simpleland/contentbundles/survival_objects.py:358-366 | the current action becomes a fresh, continuous, non-blocking idle action lasting three step durations and starting at the current tick |
| SurvivalObjects.PhysicalObject.AddTag | simpleland/contentbundles/survival_objects.py:173-174 | the tag set gains the tag |
| SurvivalObjects.PhysicalObject.RemoveTag | simpleland/contentbundles/survival_objects.py:178-179 | the tag set loses the tag; removing an absent tag is no error |
| SurvivalObjects.PhysicalObject.AddTrigger | simpleland/contentbundles/survival_objects.py:162-168 | the triggers of the named action become the old ones with the id set to the callback, in place when the id was there and appended otherwise; other actions keep theirs |
| SurvivalObjects.PhysicalObject.RemoveTrigger | simpleland/contentbundles/survival_objects.py:170-171 | succeeds exactly when the action has triggers and the id is among them, and then removes just that entry; an action without triggers raises `TypeError`, a missing id `KeyError`, and an error changes nothing |
| SurvivalObjects.PhysicalObject.InvokeTriggers | simpleland/contentbundles/survival_objects.py:152-160 | every trigger of the action runs, in registration order, and the call is cancelled exactly when some trigger answered falsy |
| SurvivalObjects.PhysicalObject.Gate | simpleland/contentbundles/survival_objects.py:78-87 | a disabled action is refused without running any trigger; otherwise all its triggers run, and it is refused exactly when one of them vetoes |
| SurvivalObjects.PhysicalObject.CollisionWith | simpleland/contentbundles/survival_objects.py:368-382 | the objects collide exactly when the call is allowed and both have the same positive collision type; a collision starts a fresh blocking one-step idle action at the current tick, and no collision leaves the action as it was |
| SurvivalObjects.PhysicalObject.ReceiveDamage | simpleland/contentbundles/survival_objects.py:415-420 | an allowed hit takes `damage` off the health of a non-permanent object; a permanent object, a disabled or a vetoed call leave health alone |
| SurvivalObjects.Without | simpleland/contentbundles/survival_objects.py:171 | deleting a key keeps every other entry and no entry under that key |
| SurvivalObjects.WithoutUnique | simpleland/contentbundles/survival_objects.py:171 | deleting a key from a dict with unique keys keeps the keys unique and leaves the key absent |
| SurvivalObjects.FirstStack | simpleland/contentbundles/survival_objects.py:497-506 | the first slot from the start holding a stack of the same config with room, and no such slot before it; `None` when there is none |
| SurvivalObjects.FirstFree | simpleland/contentbundles/survival_objects.py:508-514 | the first empty slot other than slot 0, with every slot before it taken; `None` when slots 1 to 9 are full |
| SurvivalObjects.AddKeepsShape | simpleland/contentbundles/survival_objects.py:496-515 | adding keeps ten slots, never touches slot 0, keeps the selection in range and never pushes a stack past its maximum |
| SurvivalObjects.AddFailsWhenFull | simpleland/contentbundles/survival_objects.py:496-515 | adding fails exactly when the object cannot stack onto any slot and slots 1 to 9 are all taken |
| SurvivalObjects.TakeKeepsOthers | simpleland/contentbundles/survival_objects.py:530-546 | removing never changes slot 0 or any slot other than the one named, and keeps the game's objects |
| SurvivalObjects.Found | simpleland/contentbundles/survival_objects.py:517-525 | only slots below the bound appear, and no more entries than slots searched |
| SurvivalObjects.FoundSound | simpleland/contentbundles/survival_objects.py:517-525 | every entry found is a slot holding an object of the config, under the id it holds, and the slots are increasing |
| SurvivalObjects.FoundComplete | simpleland/contentbundles/survival_objects.py:517-525 | every slot holding an object of the config is found |
| SurvivalObjects.SumCountsSnoc | simpleland/contentbundles/survival_objects.py:604 | summing the counts of one more stack adds that stack's count |
| SurvivalObjects.FoundTotal | simpleland/contentbundles/survival_objects.py:604 | the counts of the stacks found add up to the config's total in the inventory |
| SurvivalObjects.Inventory.constructor | simpleland/contentbundles/survival_objects.py:454-467 | a new inventory has ten empty slots, slot 0 selected and no owner |
| SurvivalObjects.Inventory.SetOwnerObjId | simpleland/contentbundles/survival_objects.py:469-470 | the owner becomes the given object |
| SurvivalObjects.Inventory.SelectItem | simpleland/contentbundles/survival_objects.py:476-487 | the selection moves one slot back or forward, wrapping at both ends, and stays in range |
| SurvivalObjects.Inventory.Add | simpleland/contentbundles/survival_objects.py:496-515 | the inventory, the objects and the world operations after `add` are those of `AddSpec`: the object joins the first stack with room and is removed from the game, or takes the first free slot other than 0 and is disabled, or the call fails and changes nothing |
| SurvivalObjects.Inventory.Find | simpleland/contentbundles/survival_objects.py:517-525 | the loop returns exactly the stacks of the config, in slot order (`Found`) |
| SurvivalObjects.Inventory.RemoveBySlot | simpleland/contentbundles/survival_objects.py:530-546 | the result and the new state are those of `TakeSpec`: slot 0 and empty slots give nothing, a stack of more than one gives up a fresh one-unit object unless everything is taken, otherwise the slot is emptied and its object handed back |
| SurvivalObjects.Inventory.RemoveSelected | simpleland/contentbundles/survival_objects.py:527-528 | removing the selected slot is `TakeSpec` at the slot selected before the call |
| SurvivalObjects.StepAsWritten | simpleland/contentbundles/survival_objects.py:616-625 | one step of the consumption loop as written keeps ten slots and the game's objects |
| SurvivalObjects.FoldAsWritten | simpleland/contentbundles/survival_objects.py:613-625 | the loop as written keeps ten slots and the game's objects |
| SurvivalObjects.StepFixed | simpleland/contentbundles/survival_objects.py:616-625 | the corrected step keeps ten slots, the game's objects and the selection |
| SurvivalObjects.FoldFixed | simpleland/contentbundles/survival_objects.py:613-625 | the corrected loop keeps ten slots, the game's objects and the selection |
| SurvivalObjects.TotalAtSlot | simpleland/contentbundles/survival_objects.py:604 | inventories differing only at one slot differ in total by that slot's units |
| SurvivalObjects.TotalSame | simpleland/contentbundles/survival_objects.py:604 | inventories that agree slot by slot have the same total |
| SurvivalObjects.SumCountsFrame | simpleland/contentbundles/survival_objects.py:604 | counts of objects outside the stacks found do not change their sum |
| SurvivalObjects.StepFixedAccounts | simpleland/contentbundles/survival_objects.py:616-625 | one corrected step moves units from the config's total into what is no longer needed, one for one, and leaves every other config's total and every other slot alone |
| SurvivalObjects.FoldFixedConsumesExactly | simpleland/contentbundles/survival_objects.py:613-625 | when the stacks found hold enough, the corrected loop lowers the config's total by exactly the required count and leaves every other config's total alone |
| SurvivalObjects.ConsumeFixed | simpleland/contentbundles/survival_objects.py:612-625 | consuming every requirement keeps ten slots, the game's objects and the selection |
| SurvivalObjects.HaveReqsTotals | simpleland/contentbundles/survival_objects.py:595-607 | when the requirement check passes, the inventory holds at least the required units of each requirement |
| SurvivalObjects.ConsumeFixedExact | simpleland/contentbundles/survival_objects.py:612-625 | with enough of each distinct requirement, consumption takes exactly the required count of each and leaves every other config's total alone |
| SurvivalObjects.CraftSpec | simpleland/contentbundles/survival_objects.py:590-629 | crafting keeps ten slots |
| SurvivalObjects.AddKeepsOtherTotals | simpleland/contentbundles/survival_objects.py:496-515 | adding an object never changes the total of a different config |
| SurvivalObjects.SpawnKeepsOtherTotals | simpleland/contentbundles/survival_objects.py:626-628 | creating an object under a fresh id never changes the total of a different config |
| SurvivalObjects.CraftTakesRequirements | simpleland/contentbundles/survival_objects.py:590-629 | a craft that goes ahead takes exactly the required units of each requirement other than the crafted config, and leaves every config neither required nor crafted alone |
| SurvivalObjects.AsWrittenTakesTooMuch | simpleland/contentbundles/survival_objects.py:616-625 | as written, stacks of 5 and 3 wood and a requirement of 2 end as 3 and 1: the second stack is also consumed although nothing more was needed |
| SurvivalObjects.FoundSkips | simpleland/contentbundles/survival_objects.py:517-525 | slots holding no stack of the config add nothing to what is found |
| SurvivalObjects.AsWrittenFound | simpleland/contentbundles/survival_objects.py:517-525 | in that example both stacks are found, in slot order, whatever their counts |
| SurvivalObjects.AsWrittenTotals | simpleland/contentbundles/survival_objects.py:604-625 | in that example the total goes from 8 to 4 where taking 2 should leave 6 |
| SurvivalObjects.AsWrittenLeavesStaleSlot | simpleland/contentbundles/survival_objects.py:616-621 | as written, a stack exactly the size needed loses one unit to `remove_by_slot`, which splits off a fresh object, and the stack is queued for removal while its slot still names it |
| SurvivalObjects.FixedClearsSlot | simpleland/contentbundles/survival_objects.py:616-621 | the corrected step empties that slot |
| SurvivalObjects.CheckReqs | simpleland/contentbundles/survival_objects.py:595-607 | the requirement loop answers exactly `HaveReqs`: every requirement is found with at least the required count |
| SurvivalObjects.ConsumeReq | simpleland/contentbundles/survival_objects.py:613-625 | the removal loop for one requirement, calling `find` and `remove_by_slot`, ends in the state of the corrected fold over the stacks found |
| SurvivalObjects.CraftMenu.constructor | simpleland/contentbundles/survival_objects.py:566-572 | a new menu keeps its entries and selects entry 0 |
| SurvivalObjects.WrapStep | simpleland/contentbundles/survival_objects.py:577-588 | one step back from the first of `n` entries lands on the last, one step forward from the last on the first, and every other step moves by one |
| SurvivalObjects.CraftMenu.SelectItem | simpleland/contentbundles/survival_objects.py:577-588 | on a non-empty menu the selection moves one entry back or forward, wrapping at both ends |
| SurvivalObjects.CraftMenu.CraftSelected | simpleland/contentbundles/survival_objects.py:590-629 | an empty menu raises `IndexError` and changes nothing; otherwise the inventory ends as `CraftSpec` says: unmet requirements change nothing, met ones are consumed and the new object is created and added |
| SurvivalObjects.Upkeep | simpleland/contentbundles/survival_objects.py:1075-1096 | the maxima never change; energy decays by its rate, never below 0, once its period has passed; health stays within its maximum; stamina changes only when its timer has passed and it is below the gate, and stays within its maximum; with no timer due nothing changes |
| SurvivalObjects.UpkeepRunSane | simpleland/contentbundles/survival_objects.py:1075-1096 | however many updates run, energy stays non-negative and health and stamina stay within their maxima, as long as the low-energy penalty is not negative |
| SurvivalObjects.AnimateObject.constructor | simpleland/contentbundles/survival_objects.py:643-677 | a new animate object has energy, stamina, timers and rewards at 0, the configured maxima, an inventory owned by its body and the configured craft menu with entry 0 selected |
| SurvivalObjects.AnimateObject.AddReward | simpleland/contentbundles/survival_objects.py:679-681 | the step reward and the running total both grow by the reward |
| SurvivalObjects.AnimateObject.Spawn | simpleland/contentbundles/survival_objects.py:735-745 | an allowed spawn sets energy and stamina to their start values and makes every timer due; a refused one changes no vital |
| SurvivalObjects.AnimateObject.Update | simpleland/contentbundles/survival_objects.py:1075-1109 | the vitals become `Upkeep` of the old ones, and the object dies exactly when its health is at most 0; a living object's player gets `allow_input` set to true, and a dying one's player data is unchanged |
| SurvivalObjects.AnimateObject.ConsumeFood | simpleland/contentbundles/survival_objects.py:856-862 | an allowed meal adds the food's energy capped at the maximum and appends one instant "eat" action to the queue; a refused one changes neither |
| SurvivalObjects.AnimateObject.SelectItem | simpleland/contentbundles/survival_objects.py:747-753 | an allowed call moves the inventory selection with wrap-around and starts a fresh one-step idle action; a refused one changes neither |
| SurvivalObjects.AnimateObject.SelectCraftType | simpleland/contentbundles/survival_objects.py:770-776 | an allowed call moves the craft menu's selection with wrap-around and starts a fresh one-step idle action; a refused one changes neither |
| SurvivalObjects.AnimateObject.Craft | simpleland/contentbundles/survival_objects.py:762-768 | an allowed call crafts the selected entry into the inventory and then idles for one step, raising `IndexError` on an empty menu; a refused call changes neither the inventory nor the action |
| SurvivalMap.AppendAt | simpleland/contentbundles/survival_map.py:29-32 | the info goes at the end of its cell's list and every other cell keeps its list |
| SurvivalMap.SectorCoord | simpleland/contentbundles/survival_map.py:55-58 | the sector returned contains the cell (floor division by the sector size on both axes); no coordinate gives sector (0, 0) |
| SurvivalMap.SectorCoordFromPos | simpleland/contentbundles/survival_map.py:60-63 | the sector returned contains the cell of the position (floor division by the tile size); no position gives sector (0, 0) |
| SurvivalMap.CornerInSector | simpleland/contentbundles/survival_map.py:160-165 | the corner cell computed for a missing sector falls back in that sector |
| SurvivalMap.FloorOfMultiple | simpleland/contentbundles/survival_map.py:58 | floor division of a multiple recovers the factor, for either sign |
| SurvivalMap.NeighCoords | simpleland/contentbundles/survival_map.py:139-150 | exactly the eight sectors that differ from the given one by at most one on each axis, never the sector itself |
| SurvivalMap.AddTo | simpleland/contentbundles/survival_map.py:66-74 | the sector table gains the cell's sector when missing and no other sector |
| SurvivalMap.AddToRecords | simpleland/contentbundles/survival_map.py:66-74 | adding appends the info to the cell's record and changes no other cell's record |
| SurvivalMap.AddAll | simpleland/contentbundles/survival_map.py:104-124 | a run of `add` calls never loses a sector |
| SurvivalMap.AddAllCons | simpleland/contentbundles/survival_map.py:104-124 | a run of `add` calls is the first call followed by the rest |
| SurvivalMap.AddAllRecords | simpleland/contentbundles/survival_map.py:104-124 | after a run of `add` calls each cell records what it had followed by the infos added at it, in the order they were added |
| SurvivalMap.AddAllAppend | simpleland/contentbundles/survival_map.py:104-124 | two runs of `add` calls in a row are the run of both |
| SurvivalMap.KeyAt | simpleland/contentbundles/survival_map.py:115 | the key is the one or two characters of the line at that column |
| SurvivalMap.LineCellsExact | simpleland/contentbundles/survival_map.py:112-124 | a row yields exactly the cells `(cidx / 2, ridx)` for each even column whose key is in the index, with that key's info |
| SurvivalMap.LayerXRows | simpleland/contentbundles/survival_map.py:110-120 | in a layer whose rows all have `w` cells and a newline, the parsed width becomes the larger of the width so far and `w` |
| SurvivalMap.NewlineRowsX | simpleland/contentbundles/survival_map.py:110-120 | with newline-terminated rows of `w` cells the parsed width is `w`: the newline's own cell, one past the last real column |
| SurvivalMap.AllXNoRows | simpleland/contentbundles/survival_map.py:110-120 | layers without rows leave the width as it was |
| SurvivalMap.RowSpawns | simpleland/contentbundles/survival_map.py:85-90 | two objects per column of the range, and none for an empty range |
| SurvivalMap.ColumnSpawns | simpleland/contentbundles/survival_map.py:92-97 | two objects per row of the range, and none for an empty range |
| SurvivalMap.RowSpawnsExact | simpleland/contentbundles/survival_map.py:85-90 | the top and bottom walls are exactly the boundary config at each column of the range in the two boundary rows |
| SurvivalMap.ColumnSpawnsExact | simpleland/contentbundles/survival_map.py:92-97 | the side walls are exactly the boundary config at each row of the range in the two boundary columns |
| SurvivalMap.PerimeterExact | simpleland/contentbundles/survival_map.py:76-97 | the boundary objects are all of the boundary config and sit exactly on the rectangle's perimeter |
| SurvivalMap.Size | landia/survival/survival_map.py:139-142 | the size exists exactly when both ranges do, and is each range's width |
| SurvivalMap.Center | landia/survival/survival_map.py:132-137 | the centre exists exactly when the size does, and lies within half a cell of each range's midpoint |
| SurvivalMap.NewerSpawnPointAsWritten | landia/survival/survival_map.py:215-220 | as written, a spawn point raises `AttributeError` (the class has no `add_spawn_point`); the corrected loader files it under its id |
| SurvivalMap.AsWrittenAgreesOffSpawnPoints | landia/survival/survival_map.py:215-224 | the loader as written fails exactly on spawn points, and agrees with the corrected loader on every other entry |
| SurvivalMap.CellEntries | simpleland/contentbundles/survival_map.py:167-169 | one entry per info of the cell, in order, each at that cell |
| SurvivalMap.AddPoint | simpleland/contentbundles/survival_map.py:172-178 | the position is appended to the key's list (a missing key starts empty) and every other key keeps its list |
| SurvivalMap.FlattenStep | simpleland/contentbundles/survival_map.py:167-169 | a sector's entries are the first cell's infos followed by the rest's |
| SurvivalMap.PlacementsExact | simpleland/contentbundles/survival_map.py:180-186 | an object is spawned exactly for each entry that is not a spawn point, with that entry's config at its cell |
| SurvivalMap.LoadStep | simpleland/contentbundles/survival_map.py:180-186 | loading entries from `i` on is loading entry `i` and then the rest |
| SurvivalMap.PlacementsAppend | simpleland/contentbundles/survival_map.py:167-169 | the objects spawned from two runs of entries are those of the first run followed by those of the second |
| SurvivalMap.WithSpawnPointsAppend | simpleland/contentbundles/survival_map.py:167-169 | the spawn points recorded from two runs of entries are those of the first run, then the second |
| SurvivalMap.LineCellsInRow | simpleland/contentbundles/survival_map.py:112-116 | every cell a row yields lies in that row, between column 0 and the row's last cell |
| SurvivalMap.LayerXGrows | simpleland/contentbundles/survival_map.py:117-118 | the parsed width never shrinks and covers every row of the layer |
| SurvivalMap.LayerYGrows | simpleland/contentbundles/survival_map.py:119-120 | the parsed height never shrinks and covers every non-empty row of the layer |
| SurvivalMap.AllXGrows | simpleland/contentbundles/survival_map.py:110-118 | the parsed width never shrinks and covers every row of every layer |
| SurvivalMap.AllYGrows | simpleland/contentbundles/survival_map.py:110-120 | the parsed height never shrinks and covers every non-empty row of every layer |
| SurvivalMap.LayerCellsFrom | simpleland/contentbundles/survival_map.py:112-124 | every cell a layer yields lies in one of its non-empty rows, within that row's cells |
| SurvivalMap.AllCellsFrom | simpleland/contentbundles/survival_map.py:110-124 | every cell the layers yield lies in some layer's non-empty row, within that row's cells |
| SurvivalMap.CellsWithinExtents | simpleland/contentbundles/survival_map.py:104-124 | every cell placed from the static layers lies within the extents the parse computes: `0 <= x <= xmax` and `0 <= y <= ymax` |
| SurvivalMap.Bounded | simpleland/contentbundles/survival_map.py:126-129 | the older version fills only missing ranges, with `[-1, xmax + 1]` and `[-1, ymax + 1]`; the newer one (landia/survival/survival_map.py:167-169) always sets `[-1, xmax]` and `[-1, ymax + 1]` |
| SurvivalMap.BoundaryWalls | landia/survival/survival_map.py:167-169 | with newline-terminated rows of `w` cells, the newer version's side walls are at columns -1 and `w`, while the older version's are at -1 and `w + 1`; both versions put the same walls top and bottom |
| SurvivalMap.Defaulted | landia/survival/survival_map.py:176-180 | later `initialize` calls fill a missing range with `[4, 20]` and keep a present one |
| SurvivalMap.DistinctSnoc | simpleland/contentbundles/survival_map.py:152-158 | appending a sector not yet in a duplicate-free order keeps it duplicate-free |
| SurvivalMap.DistinctPrepend | simpleland/contentbundles/survival_map.py:152-158 | putting at most one new sector before a duplicate-free order keeps it duplicate-free |
| SurvivalMap.SectorEntriesSnoc | simpleland/contentbundles/survival_map.py:160-169 | loading one more sector appends that sector's entries |
| SurvivalMap.SectorEntriesAppend | simpleland/contentbundles/survival_map.py:152-169 | the entries of two runs of sectors are those of the first run followed by those of the second |
| SurvivalMap.SectorEntriesKeeps | simpleland/contentbundles/survival_map.py:160-165 | creating empty sectors does not change the entries of any sector order |
| SurvivalMap.KeepsRefl | simpleland/contentbundles/survival_map.py:160-165 | a sector table keeps its own entries |
| SurvivalMap.KeepsTrans | simpleland/contentbundles/survival_map.py:160-165 | keeping entries carries over two steps |
| SurvivalMap.KeepsAfterLoad | simpleland/contentbundles/survival_map.py:160-165 | `load_sector` only ever adds an empty sector, so every sector keeps its entries |
| SurvivalMap.GameMap.constructor | simpleland/contentbundles/survival_map.py:37-53 | a new map has no sectors, nothing loaded and no spawn points; a missing boundary is `None` in the older version and empty in the newer one (landia/survival/survival_map.py:66) |
| SurvivalMap.GameMap.Add | simpleland/contentbundles/survival_map.py:66-74 | the sector table becomes `AddTo` of the old one, and the sector returned is the cell's sector |
| SurvivalMap.GameMap.ScanLine | simpleland/contentbundles/survival_map.py:112-120 | the loop over one row's columns adds exactly the row's indexed cells and widens the extents to the row's |
| SurvivalMap.GameMap.ScanLayer | simpleland/contentbundles/survival_map.py:110-120 | the loop over a layer's rows adds exactly the layer's indexed cells and widens the extents to the layer's |
| SurvivalMap.GameMap.LoadStaticLayers | simpleland/contentbundles/survival_map.py:104-129 | every layer's indexed cells are added to the sectors; a `None` boundary raises `TypeError` after the scan and is left alone, otherwise the boundary takes the parsed extents as `Bounded` says |
| SurvivalMap.GameMap.LoadBoundary | simpleland/contentbundles/survival_map.py:76-97 | no boundary spawns nothing; a missing range raises `KeyError`; a missing object config raises `KeyError` in the older version and spawns nothing in the newer (landia/survival/survival_map.py:101-103); otherwise exactly the perimeter objects are spawned |
| SurvivalMap.GameMap.AddSpawnPoint | simpleland/contentbundles/survival_map.py:172-175 | the spawn-point table becomes `AddPoint` of the old one |
| SurvivalMap.GameMap.LoadObjFromInfo | simpleland/contentbundles/survival_map.py:180-186 | an ordinary entry spawns its object at the cell and records no spawn point; a spawn point spawns nothing and is appended under its key (the config in the older version, the id in the corrected newer one) |
| SurvivalMap.GameMap.LoadCell | simpleland/contentbundles/survival_map.py:168-169 | the infos of one cell are loaded in order: the objects spawned and the spawn points recorded are those of `Placements` and `WithSpawnPoints` |
| SurvivalMap.GameMap.LoadSector | simpleland/contentbundles/survival_map.py:160-169 | the sector is marked loaded and created empty when missing; its entries are loaded cell by cell in the order the cells were first used |
| SurvivalMap.GameMap.LoadCells | simpleland/contentbundles/survival_map.py:167-169 | the entries of a sector are loaded cell by cell, in the order the cells were first used |
| SurvivalMap.GameMap.LoadSectorsNearCoord | simpleland/contentbundles/survival_map.py:152-158 | afterwards the sector and its eight neighbours are loaded; exactly those not loaded before are loaded now, each once, and their entries are spawned in that order |
| SurvivalMap.GameMap.LoadEach | simpleland/contentbundles/survival_map.py:157-158 | each sector of the set is loaded once, and the entries spawned are theirs in the order they were loaded |
| SurvivalMap.GameMap.Initialize | simpleland/contentbundles/survival_map.py:132-137 | the first call parses the layers, sets the boundary and spawns its walls; later calls fill missing ranges with `[4, 20]` in the newer version (landia/survival/survival_map.py:171-181). Either way the sectors around the coordinate's sector are then loaded, and the call fails exactly on a `None` boundary (or a boundary without an object config in the older version) |
| SurvivalContent.Zooms | landia/survival/survival_content.py:546-551 | one zoom event per zoom key held, all for the player: in by 50 exactly when key 32 is held, out by 50 exactly when key 31 is |
| SurvivalContent.PanKey | landia/survival/survival_content.py:500-516 | no pan key held gives nothing; otherwise the direction and angle of the last pan key checked, so A (key 1) wins with left and 90 |
| SurvivalContent.CameraPan | landia/survival/survival_content.py:497-522 | with no pan key the camera stays still; the newer version moves five steps in the key's direction and turns to its angle; the older version (simpleland/contentbundles/survival_grid.py:366-390) never turns |
| SurvivalContent.PanWithoutKeyRaises | landia/survival/survival_content.py:500-520 | as written, an admin whose input holds a zoom key but no pan key raises `NameError` on `new_angle`; the corrected pan leaves the camera still |
| SurvivalContent.PanAgrees | landia/survival/survival_content.py:497-522 | the pan as written fails exactly in the newer version with no pan key held, and otherwise equals the corrected pan |
| SurvivalContent.NewFactor | landia/survival/survival_content.py:564-573 | key 80 lowers the factor by one hundredth but never below 0; key 81 raises it by one hundredth; with neither it is unchanged |
| SurvivalContent.NewMode | landia/survival/survival_content.py:575-581 | key 99 sets CONSOLE whatever else is held, key 13 alone sets ADMIN, and otherwise the data is unchanged |
| SurvivalContent.Duration | landia/survival/survival_content.py:232-242 | the step lasts at least one tick and is the tick rate (1 when unset or 0) times the factor whenever that is longer |
| SurvivalContent.DurationMonotone | landia/survival/survival_content.py:232-242 | with a non-negative tick rate a larger factor never gives a shorter step |
| SurvivalContent.Appended | landia/survival/survival_content.py:614-619 | the item goes at the end of the list under the key (empty when missing) and every other entry stays |
| SurvivalContent.UpToSpace | landia/survival/survival_content.py:410 | the text up to the first space: a space-free prefix followed by a space or the end |
| SurvivalContent.Lower | landia/survival/survival_content.py:413 | ASCII `str.lower`: each of `A`-`Z` becomes its lower-case letter and every other character is kept, position by position |
| SurvivalContent.Upper | landia/survival/survival_content.py:416 | ASCII `str.upper`: each of `a`-`z` becomes its upper-case letter and every other character is kept, position by position |
| SurvivalContent.CommandLine | landia/survival/survival_content.py:403-492 | a reset is announced with its text; any other command logs a line exactly when it reports an error |
| SurvivalContent.SuccessLoggedAsFailure | simpleland/contentbundles/survival_grid.py:314-361 | as written the older version logs "Command failed" after a successful reset; the corrected handler only announces the reset |
| SurvivalContent.InputModeAlwaysRaises | simpleland/contentbundles/survival_grid.py:320-326 | as written every `input_mode` command that names a mode raises `TypeError` at `set("play","console","admin")`, and the newer version (landia/survival/survival_content.py:409-416) classifies it alike |
| SurvivalContent.KnownModeAccepted | landia/survival/survival_content.py:409-416 | the corrected check accepts `input_mode Admin` as a known mode and reports no error |
| SurvivalContent.UpToSpaceOfWord | landia/survival/survival_content.py:410 | splitting a space-free word followed by a space or the end gives the word |
| SurvivalContent.AdminLower | landia/survival/survival_content.py:413 | "Admin" names a known mode |
| SurvivalContent.GameContent.constructor | landia/survival/survival_content.py:45-137 | a new content keeps its version, map and step factor, and has no cached step duration |
| SurvivalContent.GameContent.StepDuration | landia/survival/survival_content.py:232-242 | the cached duration when there is one, otherwise `Duration` of the current factor, which is then cached; a cache that was fresh for the tick rate stays fresh |
| SurvivalContent.GameContent.ProcessInputEvent | landia/survival/survival_content.py:526-601 | no player gives nothing; the older version (simpleland/contentbundles/survival_grid.py:393-466) also ignores a player not allowed input. Escape stops the game in PLAY and otherwise returns to PLAY; CONSOLE only zooms; ADMIN zooms and pans; any other mode zooms, applies `NewFactor` and `NewMode`, and queues the input exactly in PLAY, off the client, for an enabled object of a player allowed input and not awaiting reset. The factor changes only through keys 80 and 81, and a change clears the cache |
| SurvivalContent.GameContent.RequestReset | landia/survival/survival_content.py:247-249 | every player's reset flag is set and nothing else in their data changes, so a reset is then required |
| SurvivalContent.GameContent.ResetRequired | landia/survival/survival_content.py:251-255 | true exactly when every player's flag (true when unset) is set; with no players a reset is required |
| SurvivalContent.GameContent.GetStepInfo | landia/survival/survival_content.py:302-329 | no player reports reward 0, not done and "no player found"; a player not allowed observations is skipped with nothing changed; a missing object is skipped with reward 0; otherwise the object's reward is reported and zeroed, done is the reset flag, and a done player loses its observations |
| SurvivalContent.GameContent.MessagePlayer | landia/survival/survival_content.py:604-612 | `(due tick, message)` is appended to the player's messages (cleared first when asked, in the newer version), due the duration times the step duration, truncated to whole ticks, after the current tick |
| SurvivalContent.GameContent.LogConsole | landia/survival/survival_content.py:614-619 | the line stamped with the current tick is appended to the log of every player, or of the named player only; the others are unchanged |
| SurvivalContent.GameContent.ProcessAdminCommand | landia/survival/survival_content.py:403-495 | with the corrected mode check: the handler raises exactly as `AdminError` says, and then changes nothing; otherwise a reset sets every reset flag and is announced, a known mode is set, upper-cased, on the issuing player, a save announces its file to everyone, a failing script is reported to everyone, and an error is logged to everyone, each bag changing exactly so |
| SurvivalContent.AdminError | landia/survival/survival_content.py:409-481 | a known `input_mode` from a missing player, a `spawn` or `controller` from a missing player or one without an object, and a `controller` or `run` without a second word raise; no other command does |
| SurvivalContent.AdminLine | landia/survival/survival_content.py:403-492 | a save logs "Saving to" and its file under the save path; a run logs a line exactly when its script raises; any other command logs what `CommandLine` says |
| SurvivalContent.SaveName | landia/survival/survival_content.py:433-437 | a save command with exactly two words saves under its second word, any other under "default" |
| SurvivalContent.JoinPath | landia/survival/survival_content.py:441-443 | `os.path.join`: an absolute second part wins; otherwise the parts are joined by exactly one slash unless the first is empty or ends in one |
| SurvivalContent.GameContent.ProcessPositionChange | landia/survival/survival_content.py:394-401 | when a player's object crosses into another sector, that sector and its eight neighbours end up loaded; the ones not loaded before are read, each once, and their objects are placed and their spawn points recorded as `Placements` and `WithSpawnPoints` say over those sectors' entries; otherwise the map is unchanged and nothing is spawned |
| SurvivalControllers.OnlyOne | landia/survival/survival_controllers.py:207-213 | in a list of objects with distinct ids, every other object has another body and another id |
| SurvivalControllers.IdsBeforeStep | landia/survival/survival_controllers.py:244-245 | the ids of the first `i + 1` objects are those of the first `i` plus the id of object `i` |
| SurvivalControllers.IdsBeforeAll | landia/survival/survival_controllers.py:244-245 | the ids of all the objects of a list, taken one by one, are the list's ids |
| SurvivalControllers.DistinctObjects | landia/survival/survival_controllers.py:207-213 | two positions of a list with distinct ids hold different objects with different bodies |
| SurvivalControllers.PutHolds | simpleland/contentbundles/survival_objects.py:166-167 | after `fn_triggers[id] = trigger` the pair of the id and its callback is in the action's trigger list, whether the id was there before or not |
| SurvivalControllers.Hook | landia/survival/survival_controllers.py:229 | `add_trigger` registers the function under its id for the event, and changes no other event's triggers |
| SurvivalControllers.FirstTarget | landia/survival/survival_controllers.py:264-269 | a found position lies in range and holds an eligible object (it plays and is not already marked); none found means no object from the start position is eligible |
| SurvivalControllers.FindTarget | landia/survival/survival_controllers.py:264-269 | the loop over the candidates finds the first eligible one, the position `FirstTarget` names |
| SurvivalControllers.ResetData | landia/survival/survival_controllers.py:20-24 | after a reset, `reset_required` is false, `allow_obs` is true, `lives_used` is 0 (and, in the older version, `food_reward_count` too); every other key keeps its value |
| SurvivalControllers.PlayerSpawnController.constructor | landia/survival/survival_controllers.py:16-18 | a spawn controller starts unstarted |
| SurvivalControllers.PlayerSpawnController.ResetPlayer | landia/survival/survival_controllers.py:20-24 | the player's data becomes `ResetData` of the old data and its pending events are cleared |
| SurvivalControllers.PlayerSpawnController.SpawnPlayer | landia/survival/survival_controllers.py:38-58 | a player with an object keeps it and fails only when that object is gone; a player without one gets a new object; the spawn point is the stored one when there is one, else an available one; data is reset only when asked |
| SurvivalControllers.PlayerSpawnController.Join | landia/survival/survival_controllers.py:33-36 | before the first reset a join does nothing; afterwards the player is reset and spawned, failing exactly when its object is gone |
| SurvivalControllers.ObjectCollisionController.constructor | landia/survival/survival_controllers.py:67-72 | the controller watches `rock1` with reward -1 and no actors |
| SurvivalControllers.ObjectCollisionController.CollisionWithTrigger | landia/survival/survival_controllers.py:82-86 | the collision always goes ahead; the actor loses 1 exactly when the other object is a rock |
| SurvivalControllers.ObjectCollisionController.Reset | landia/survival/survival_controllers.py:88-95 | after a reset the actors are exactly the human objects, each with the collision trigger registered |
| SurvivalControllers.FoodCollectController.constructor | landia/survival/survival_controllers.py:103-111 | no actors and no food; food is checked every ten steps and four pieces are needed |
| SurvivalControllers.FoodCollectController.AddPlayerObject | landia/survival/survival_controllers.py:128-131 | the object becomes an actor with the collision and death triggers registered |
| SurvivalControllers.FoodCollectController.Join | landia/survival/survival_controllers.py:121-126 | after the first reset a player's object that is not yet an actor becomes one; otherwise nothing changes |
| SurvivalControllers.FoodCollectController.CollectedTrigger | landia/survival/survival_controllers.py:133-136 | grabbing food rewards the actor with 1 and the food is no longer tracked |
| SurvivalControllers.FoodCollectController.CollisionWithTrigger | landia/survival/survival_controllers.py:138-147 | the collision goes ahead; exactly when the other object is tracked food, it stops being tracked and is removed, the actor is rewarded with 1 and eats it through `consume_food`: if that is allowed, the food's energy is added capped at the maximum and an "eat" action is queued; otherwise, and for every other collision, energy and queue are unchanged |
| SurvivalControllers.FoodCollectController.DieTrigger | landia/survival/survival_controllers.py:149-151 | dying costs 20 and goes ahead |
| SurvivalControllers.FoodCollectController.SpawnFood | landia/survival/survival_controllers.py:153-159 | exactly when a free location is found, the new apple is tracked and its `receive_grab` trigger credits `collected_trigger`; otherwise its triggers are unchanged |
| SurvivalControllers.FoodCollectController.Update | landia/survival/survival_controllers.py:181-187 | food spawns exactly when the check interval has passed, fewer than four pieces are tracked and a location is free, and the spawned apple's grab is credited; the check time moves only when the interval has passed; the food count never rises above four |
| SurvivalControllers.FoodCollectController.Reset | landia/survival/survival_controllers.py:161-177 | after a reset the actor set is empty (it is cleared again after the actors are added), the tracked food is the apples plus the one spawned by the older version, and every apple and human carries its trigger |
| SurvivalControllers.FoodCollectController.TrackApples | landia/survival/survival_controllers.py:170-177 | the apples are added to the tracked food, each with its grab trigger, and the older version's spawned apple too; the humans stay watched |
| SurvivalControllers.FoodCollectController.SpawnKeeping | landia/survival/survival_controllers.py:153-159 | spawning after a reset keeps every human's collision and death triggers and every apple's grab trigger |
| SurvivalControllers.FoodCollectController.WatchAll | landia/survival/survival_controllers.py:167-168 | every human object gets the collision trigger |
| SurvivalControllers.FoodCollectController.TrackApple | landia/survival/survival_controllers.py:173-176 | the apple is tracked and has its grab trigger |
| SurvivalControllers.FoodCollectController.TrackAll | landia/survival/survival_controllers.py:173-176 | all the apples are tracked, each with its grab trigger |
| SurvivalControllers.TagController.constructor | landia/survival/survival_controllers.py:192-204 | no players, nobody is "it", and a round lasts a hundred steps |
| SurvivalControllers.TagController.AddPlayerObject | landia/survival/survival_controllers.py:222-230 | the object joins: its id is recorded, it is tagged `playingtag` and not "it" (its other tags kept), and the tag trigger is registered |
| SurvivalControllers.TagController.Join | landia/survival/survival_controllers.py:215-220 | after the first reset a player's object that does not play yet joins; otherwise the players stay the same |
| SurvivalControllers.TagController.AddAll | landia/survival/survival_controllers.py:244-245 | every object joins, and the players become the old ones plus their ids |
| SurvivalControllers.TagController.ChooseIt | landia/survival/survival_controllers.py:248-253 | exactly one of the objects becomes "it", and the round and game start now |
| SurvivalControllers.TagController.Reset | landia/survival/survival_controllers.py:232-253 | the players become exactly the given objects, all joined; with no objects the random choice raises, otherwise exactly one of them is "it" from now |
| SurvivalControllers.TagController.TagTrigger | landia/survival/survival_controllers.py:255-285 | the attack is vetoed exactly when the attacker is "it" and a playing candidate is found; then that candidate becomes "it", loses 10, the attacker is no longer "it", and no other object changes; otherwise nothing changes |
| SurvivalControllers.TagController.Update | landia/survival/survival_controllers.py:287-294 | when the round is over everybody but "it" earns 10 and every player is flagged for reset; before that nothing changes; with nobody "it" and objects present the comparison raises |
| SurvivalControllers.InfectionController.constructor | landia/survival/survival_controllers.py:299-312 | no players, nobody infected, the game is not over, and a round lasts a hundred steps |
| SurvivalControllers.InfectionController.AddPlayerObject | landia/survival/survival_controllers.py:330-340 | the object joins, healthy, marked `playinginfection`, with both hooks registered |
| SurvivalControllers.InfectionController.HookTwo | landia/survival/survival_controllers.py:335-336 | the unarmed-attack and receive-damage hooks are both registered |
| SurvivalControllers.InfectionController.Join | landia/survival/survival_controllers.py:322-328 | after the first reset a player's object that does not play yet joins; otherwise the players stay the same |
| SurvivalControllers.InfectionController.AddAll | landia/survival/survival_controllers.py:353-354 | every object joins, and the players become the old ones plus their ids |
| SurvivalControllers.InfectionController.ChooseFirst | landia/survival/survival_controllers.py:357-364 | exactly one of the objects is infected, the round starts now and the game is not over |
| SurvivalControllers.InfectionController.Reset | landia/survival/survival_controllers.py:342-365 | the players become exactly the given objects; with no objects the random choice raises and the infection record is left alone; otherwise exactly one of them is infected |
| SurvivalControllers.InfectionController.ReceiveDamageTrigger | landia/survival/survival_controllers.py:367-372 | damage goes ahead exactly when the attacker does not play |
| SurvivalControllers.InfectionController.InfectTrigger | landia/survival/survival_controllers.py:374-406 | the attack is vetoed exactly when the attacker is infected and a healthy participant is found; that one becomes infected and the rewards move (newer: -2 and +2; older: -10); in the newer version the game is over once everybody is infected; otherwise nothing changes |
| SurvivalControllers.InfectionController.Infect | landia/survival/survival_controllers.py:392-403 | the target is tagged and recorded as infected, the counter rises by one, the rewards move by the version's amounts, and the game is over when every player is infected (newer version only) |
| SurvivalControllers.InfectionController.Update | landia/survival/survival_controllers.py:408-418 | once the round is over (or, in the newer version, the game is over), the healthy earn 10, the infected lose 2, and the game restarts: the start tick is now, every participant joins (tagged as playing, hooked, its other tags kept) and exactly one of them, the one chosen, is infected; before that nothing changes |
| SurvivalControllers.SameOutside | landia/survival/survival_controllers.py:433-436 | two id sets that agree outside one id agree on every other id |
| SurvivalControllers.MovedOutside | landia/survival/survival_controllers.py:563-564 | two changes, each confined to one id or to a set of ids, together change nothing outside them |
| SurvivalControllers.CTFTeam.constructor | landia/survival/survival_controllers.py:423-428 | a team has its colour, no flag, no flag zone, no holder and no players |
| SurvivalControllers.CTFTeam.RemovePlayerObjId | landia/survival/survival_controllers.py:433-436 | the id leaves the team, and if it held the team's flag the flag has no holder |
| SurvivalControllers.CTFController.constructor | landia/survival/survival_controllers.py:441-473 | two empty teams, red and blue, the game not started and not over, and a round of a hundred steps |
| SurvivalControllers.CTFController.GetTeam | landia/survival/survival_controllers.py:480-484 | the object's team is the one whose players include it; none means it is on neither team |
| SurvivalControllers.CTFController.AssignToTeam | landia/survival/survival_controllers.py:475-478 | the object gets the team's tag and its id joins the team |
| SurvivalControllers.CTFController.RemoveFromGame | landia/survival/survival_controllers.py:507-510 | the object's id leaves both teams, any flag it held is released, and it loses both team tags |
| SurvivalControllers.CTFController.AssignTeam | landia/survival/survival_controllers.py:512-517 | the object ends on exactly one team, one that was smallest without it (a tie is chosen at random), the team sizes stay within one of each other, and no other player moves |
| SurvivalControllers.CTFController.HookThree | landia/survival/survival_controllers.py:541-543 | the attack, receive-damage and collision hooks are all registered |
| SurvivalControllers.CTFController.AddPlayerObject | landia/survival/survival_controllers.py:539-549 | the hooks are registered; unless told to skip, the object ends on exactly one team; no other player moves and the teams stay balanced |
| SurvivalControllers.CTFController.Reset | landia/survival/survival_controllers.py:551-567 | the game starts now and is not over; every object ends on exactly one team, balanced, and no other player moves |
| SurvivalControllers.CTFController.AddAll | landia/survival/survival_controllers.py:563-564 | every object, in order, ends on exactly one team with the teams kept balanced |
| SurvivalControllers.CTFController.AddNext | landia/survival/survival_controllers.py:563-564 | adding the next object keeps every earlier object on one team and leaves the later ones untouched |
| SurvivalControllers.CTFController.JoinAsWritten | landia/survival/survival_controllers.py:531-537 | as written, a join after the first reset always raises, because `obj_ids` does not exist |
| SurvivalControllers.CTFController.Join | landia/survival/survival_controllers.py:531-537 | corrected: a player's object on neither team joins one, keeping the teams balanced; otherwise the teams stay the same |
| SurvivalControllers.CTFController.CollisionWithTrigger | landia/survival/survival_controllers.py:616-630 | touching the other team's flag rewards 1, tags the object `hasflag` and makes it that flag's holder; touching anything else changes nothing; the collision always goes ahead |
| Game.CameraDistance | landia/survival/survival_content.py:342-362 | an admin's camera sees the whole map (the larger map side); anyone else gets the default distance |
| Game.GameContext.constructor | landia/game.py:52-73 | initialisation gives an empty event bus, object table, physics index and player table, no remote clients, and a step counter of 0 |
| Game.GameContext.GetRemoteClient | landia/game.py:84-90 | a known client id returns its registered client and registers nothing; an unknown one registers exactly one new client under that id, with an empty queue and no player |
| Game.GameContext.AddEvent | landia/game.py:184-188 | the event goes onto the bus, and onto every remote client's outgoing queue exactly when it is a client event |
| Game.GameContext.RemoveObjectById | landia/game.py:172-174 | removal only queues a `RemoveObjectEvent` with a fresh id (also onto every client queue); the object table is not touched |
| Game.GameContext.AddObject | landia/game.py:164-167 | the object is stamped with the current tick, filed under its id, indexed in the grid at its rounded position, and its position change is announced |
| Game.GameContext.GetSoundEvents | landia/game.py:193-204 | the returned sound ids are those of the sound events on the bus, each event once, and exactly those events leave the bus |
| Game.GameContext.RemoveEvents | landia/game.py:201-202 | removing each id in turn takes exactly those ids off the bus |
| Game.GameContext.ProcessRemoveObjectEvent | landia/game.py:211-223 | an object no longer in the table changes nothing; a present one is stamped and leaves both the object table and the grid index |
| Game.GameContext.ProcessViewEvent | landia/game.py:206-209 | the player's camera distance grows by the event's amount; a missing player or camera raises and changes no camera |
| Game.GameContext.Dispatch | landia/game.py:237-272 | one branch of the pass raises exactly in the cases `Fails` names; otherwise it returns the handler's follow-ups, marks the event as the branch says, and only a remove-object event changes the object table |
| Game.GameContext.DispatchView | landia/game.py:247-249 | a view event raises exactly when its viewer has no camera; otherwise it has no follow-ups and is removed |
| Game.GameContext.DispatchRemove | landia/game.py:250-252 | a remove-object event takes its object out of the object table, keeps the context consistent, has no follow-ups and is removed |
| Game.GameContext.DispatchObject | landia/game.py:266-272 | an object event raises exactly when its target is not in the object table; otherwise it returns the handler's follow-ups and is removed |
| Game.GameContext.RunPeriodic | landia/game.py:257-261 | a periodic event raises exactly when its run does; otherwise its new `last_run` is stored on the bus |
| Game.GameContext.RunEventProcessing | landia/game.py:230-281 | a pass that completes dispatches every event of the bus and every follow-up, and leaves the bus as `AfterPass` says: follow-ups added, marked events removed; the object table only loses entries |
| Game.GameContext.Drain | landia/game.py:235-276 | when no event raises (and the fuel lasts), the working set ends empty with every event of the bus and every follow-up dispatched, the follow-up and removal lists gathered from the dispatched events, and the object table only losing entries |
| Game.GameContext.FinishPass | landia/game.py:278-281 | adding all the follow-ups and then removing every marked event leaves the bus `AfterPass` says |
| Game.GameContext.PassStep | landia/game.py:236-276 | one popped event is dispatched; its follow-ups join the working set and the follow-up list; a marked event joins the removal list; the invariant holds again |
| Game.GameContext.CreateSnapshotForClient | landia/game.py:99-114 | the snapshot holds exactly the objects changed since the client's last snapshot, every player, and the client's queued events in order, which leave its queue; an object never stamped raises and leaves the queue alone |
| Game.GameContext.LoadObjectSnapshot | landia/game.py:129-137 | the table keeps every object it had and gains only the ids of the entries; every object it gains is new |
| Game.GameContext.LoadObject | landia/game.py:131-137 | a known id is loaded in place (its snapshot becomes the entry, shapes aside); an unknown id is built into a new object stamped with the current tick |
| Game.GameContext.LoadNewObject | landia/game.py:134-135 | an unknown id becomes a new object, filed under that id, whose snapshot is the entry stamped with the current tick |
| Game.GameContext.NewPlayer | landia/survival/survival_content.py:331-377 | without a given id a player of the client is reused, else a fresh id is drawn; a player already filed under the id is returned unchanged; otherwise exactly one new player of the client is filed, with the camera distance `CameraDistance` gives |
| Game.GameContext.FindClientPlayer | landia/survival/survival_content.py:332-335 | the key of a player that belongs to the client, or nothing exactly when no player does |
| Game.GameContext.GetPlayer | landia/game.py:148-158 | a client with a player id gets that player from the table, which is unchanged; a client without one gets a new player that is in the table, and remembers its id |
| Game.GameContext.RunPhysics | landia/game.py:334-335 | the engine update at the clock's tick: the index, the id counter, the bus and the confirmations follow `Pass` over the buffered moves, each request's object is placed as `Placed` says, and no move is left buffered |
| Game.GameContext.RunStep | landia/game.py:340-347 | a step that completes advances the clock and the step counter by one, and, unless the game runs in client only mode, leaves no move buffered and each buffered request's object either where it was or at its requested position stamped with the step's tick; in client only mode the moves stay buffered; an error leaves the clock and the counter as they were |
| Game.GameContext.FinishStep | landia/game.py:343-347 | the part of the step after the pass: the physics update unless in client only mode, then the clock and the counter advance by one |
| Game.GameContext.CountStep | landia/game.py:346-347 | the clock and the step counter advance by one |

## Left out

- Sockets, `struct` packing, lz4 compression and JSON text: framing and reassembly work on abstract byte sequences (`seq<bv8>`), and the transport's key stringification appears only as the string-keyed player table.
- Threads and cross-thread queues: the client connector thread and the threaded UDP server exist for concurrency, which this sequential model does not cover.
- pygame and rendering: the renderer, the input modules, `wait_for_input*`, `draw_hud`, `draw_console`, `post_process_frame`, `get_info_box` and the `get_*_renderables`/sprite lookups. These are display concerns.
- The fixed-rate branch of `StepClock.tick` and `get_game_time`: both read the wall clock. Only the uncapped mode is modelled.
- Floating point:
  - positions are integer vectors;
  - `_step_duration_factor` is held in hundredths;
  - stamina, health and energy are whole model units;
  - Vector2 geometry, view-position interpolation (`update_view_position`, `get_view_position`'s interpolation, the client's `load_snapshot`), latency averages and `TickPerSecCounter` are not modelled.
- Randomness: `random.choice`/`shuffle` in the controllers and the map's random coordinates become a choice among the candidates, or a parameter. The sha1-based `rand_int_from_coord` tile variation is not modelled.
- Reflection: the `getattr` call of an `ObjectEvent` is reduced to "raises when the object is missing". `build_event_from_dict` and `get_shape_from_dict` become closed datatypes. The admin `run` command (`exec`) is not modelled.
- File and config I/O: the config files, the map file reading (static layers are given as line sequences), the file the admin `save` command writes and the one `load` reads, and the script `run` executes.
- The gym/env wrappers, runners, asset bundles, `itemfactory.py`, `camera.py` and `config.py`: none of them is part of the engine core.
- The survival behaviour classes (`survival_behaviors.py`): their steering is floating-point geometry.
- Content handlers, collision callbacks and controller side effects are parameters (`Responder`, the `decide` oracle, the trigger verdicts). What they do beyond returning events or verdicts is not modelled.
- Game.GameContext.RunStep: `run_update` (the content's `update`, which drives the controllers) is not part of the step here. The controllers' `update` methods are modelled on their own.
- Game.GameContext.RunStep: which buffered moves commit is stated against the index and the bus the event pass leaves, on `RunPhysics`; the step's own contract states for each buffered request only that its object stayed put or now stands at its requested position stamped with the step's tick.
- Game.GameContext.NewPlayer: the admin camera's centre (the map centre) and the `join` calls to the active controllers are not modelled. When several players of the client exist, the model reuses one of them, where Python takes the last in iteration order.
- EventBus.BuildEvent: an object event keeps its recorded id, while the source draws a fresh `gen_id` value for it, since the recorded id lands in its `kwargs`. The recorded `Event` fields that land there are not added to its `kwargs` either. The bus still files the event under the recorded key, as `load_snapshot` does.
- GameObject.GObject.Snapshot: the display attributes `angle`, `sleeping`, `visheight`, the image size, offset and ids, `shape_color`, `rotate_sprites` and `child_object_ids` are not part of the model, so the snapshot and `LoadSnapshot` do not carry them.
- SnapshotCodec.Parse: a dict or a `Vector2` under a `tuple` or `set` tag raises `TypeError` in the model, where Python iterates the dict's keys or the vector's two components; a `set` of lists or dicts is built, where Python raises `TypeError` for the unhashable items.
- PlayerTable.PlayerManager.PullEvents: the table is a map, so the players' insertion order, which `players_map.values()` follows, is not modelled; the contract names some order of the players, each once.
- SurvivalObjects.PhysicalObject.constructor: the configuration keys `show_info_bar`, `remove_on_destroy`, `pushable`, `height`, `count_max`, `count` and `default_action_type`, the content's `tag_effect_map`, the closing `disable()` and the attached rectangle shape are not modelled; the object's enabled flag and shapes live on `GameObject.GObject`.
- SurvivalContent.Lower: only ASCII letters are mapped. Python's `str.lower` also maps every other cased Unicode letter.
- SurvivalContent.Upper: only ASCII letters are mapped. Python's `str.upper` also maps every other cased Unicode letter and can lengthen the string ('ß' becomes 'SS').
- SurvivalContent.GameContent.ProcessAdminCommand: the contract says nothing of the players' bags after a `spawn`, `controller` or `load` command, or after a `run` whose script succeeds. The model does not cover the location search (`get_near_location`), the object created from a config id, the save file `load` reads, or what a script does. The `IndexError` of a `spawn` without a config id happens only once a location is found, so the model does not raise it. The snapshot a `save` writes is not modelled either; only its console line is.
- SurvivalControllers.FoodCollectController.CollisionWithTrigger: the eaten food is not taken out of the object manager (`gamectx.remove_object`, called twice); `removed` says when that happens, because the controllers do not hold the game context.
- SurvivalControllers.FoodCollectController.SpawnFood: creating the apple from its configuration and placing it at the location are the content's work; the new apple arrives as the `food` parameter.
- SurvivalControllers.TagController.AddPlayerObject: a participant without a player gets `PlayingTag` as its default behaviour; behaviours are not part of this model.
- Game.GameContext.RunEventProcessing: the `fuel` bound and its `Timeout` error have no counterpart in `run_event_processing`, whose loop runs until the working set is empty; a handler that keeps producing follow-ups would loop forever there, and the model stops after `fuel` events instead, so its contract speaks only of passes that finish.
- SurvivalControllers.PlayerSpawnController.SpawnPlayer: the stored spawn point is a `Vector2` in the player's data, which the model's data values (booleans, integers, strings, lists) cannot hold; it enters as the `stored` parameter.
- SurvivalObjects.PhysicalObject.AddTrigger: the `getattr(self, fn_name)` check that the object has the action is not modelled; every action name is accepted.
- SurvivalCommon.Effect.constructor: the free-form `data` dictionary is not kept; nothing in the model reads it.
- SurvivalCommon.Action.constructor: `step_size` is not kept; it is mostly a float (the tile size divided by the ticks) that only drives the drawn animation.
- `create_full_snapshot`, `load_snapshot` of `GameContext` (the player and event parts are `PlayerTable.PlayerManager.LoadSnapshot` and `EventBus.EventManager.LoadSnapshot`), `remove_object`, `remove_all_objects`, `remove_all_events`, `run_pre_event_processing` and `change_game_state` are not modelled. They are one-line delegations to modelled members.
- TimeLoggingContainer `get_id`, `link_to_latest`, `get_prev_entry`, `get_next_entry`, `get_latest` and `get_snapshot` are not modelled. They are thin wrappers over the modelled lookups.
- ClientConnector:
  - not modelled: `add_network_info`, `get_avg_latency`, `get_success_rate`, `send_local_events`, `sync_with_remote_state` and `update_player_info`;
  - modelled: the request buffer drain and the response bookkeeping;
  - RemoteClient's `avg` is not modelled either.
- PlayerSpawnController `reset`, `update` and `spawn_players`: these loop `spawn_player` over the players and are not modelled. `spawn_player` itself is.
- Controller `log_console` and `message_player` calls, the behaviour objects attached to non-player participants, and `tag_effect_map` effects: messages and visuals only.
- CTFController:
  - not modelled: `reset_flags`/`reset_flag` (map and spawn I/O), `get_objects`, `get_other_teams` (inlined) and `attack_trigger`;
  - `receive_damage_trigger` and `update` read the undefined `obj_ids`/`infected_obj_ids`, and `game_over` is never set;
  - the inventory `add` inside `collision_with_trigger` is not modelled.
- Survival objects:
  - not modelled: `move`, `walk`, `jump`, `grab`, `drop`, `use`, `push`, `unarmed_attack`, `invoke_attacking_action`, `stunned`, `die`, `destroy`, the observation builders, and the subclasses' geometry (`Tree` parts, `Equipment`);
  - modelled: the trigger gate they run through (`PhysicalObject.Gate`), and the target search the controllers use (candidates are passed in).
- SurvivalObjects.Inventory.constructor: the `start_inventory` items are not added. The owner of a new inventory is set by `SetOwnerObjId`.
- The GameContent wiring: `load`, `reset`, `load_controllers`, `reset_controllers`, `update_controllers`, `create_object_from_config_id`, `get_available_location`, `get_near_location`, `get_observation*` and the sprite and sound lookups are not modelled. They create objects from configuration or query the map at random.
- SurvivalContent.CameraPan: the pan is returned as a value, not applied to the camera.
- Map index entries are assumed to carry the keys they are read with (`obj`, and `id` for spawn points). The `KeyError` path is not modelled.
- Physics.GridPhysicsEngine.Update: a request of an enabled object whose new position is `None` is excluded by a precondition (`Resolvable`); the source would raise on `new_pos.x` there. Requests of disabled objects may carry `None`, since the source skips them before reading the position.
- `Rectangle.__init__`, `ShapeGroup.load_snapshot` and `ViewEvent`'s undefined `Vector` are broken in the source and not modelled. Shapes are re-stamped by `GameObject.GObject.LoadSnapshot` instead.
- SurvivalObjects.AnimateObject.Update: on death the `drop_on_death` objects and `die()` are left to the caller, which gets `dies`; an object without a player runs its default behaviour, and behaviours are not part of this model.
- SurvivalObjects.AnimateObject.Update: the stamina regeneration gate compares against the config default `stamina_max` of 50, while the object's own field defaults to 100. This is modelled as written.

## Findings

| source | as written | input that shows it | evidently intended | confidence | as-written member | corrected member |
|---|---|---|---|---|---|---|
| simpleland/contentbundles/survival_grid.py:358-361 | the "Command failed" line is logged after every admin command, successful ones included | the command `reset` | log the failure line only when there is an error message | not executed | SurvivalContent.SuccessLoggedAsFailure | SurvivalContent.CommandLine |
| simpleland/contentbundles/survival_grid.py:324 | `set("play","console","admin")` raises `TypeError`, so every `input_mode` command with an argument fails | the command `input_mode admin` | accept the three mode names case-insensitively and store the upper-case mode | not executed | SurvivalContent.InputModeAlwaysRaises | SurvivalContent.KnownModeAccepted |
| landia/survival/survival_content.py:413 | the same `set(...)` call raises `TypeError` in the newer content too | the command `input_mode admin` | as above | not executed | SurvivalContent.InputModeAlwaysRaises | SurvivalContent.KnownModeAccepted |
| landia/survival/survival_content.py:497-522 | `new_angle` is bound only when a pan key is held, so `camera_update` raises `UnboundLocalError` (a `NameError`) for any other key set | an ADMIN-mode input with keydown `{32}` | leave the camera angle alone when no pan key is held | not executed | SurvivalContent.PanWithoutKeyRaises | SurvivalContent.PanAgrees |
| landia/survival/survival_map.py:216-220 | `load_obj_from_info` calls `add_spawn_point`, which the newer `GameMap` does not define, so a spawn-point entry raises `AttributeError` | a map index entry of type `spawn_point` | record the spawn point under the entry's id | not executed | SurvivalMap.NewerSpawnPointAsWritten | SurvivalMap.GameMap.LoadObjFromInfo |
| simpleland/contentbundles/survival_objects.py:614-625 | after a partial take from a stack, the outstanding `count` is not zeroed, so the next stack is charged again | stacks of 5 and 3 of the same item, requirement 2: 4 units are taken | stop once the requirement is met | not executed | SurvivalObjects.AsWrittenTakesTooMuch | SurvivalObjects.ConsumeFixedExact |
| simpleland/contentbundles/survival_objects.py:617-619 | a whole stack is consumed with `remove_by_slot(i)` without `remove_all`, which for a count above 1 only decrements it, so the slot keeps an object that has been removed from the world | one stack of 2, requirement 2 | clear the slot of a fully consumed stack | not executed | SurvivalObjects.AsWrittenLeavesStaleSlot | SurvivalObjects.FixedClearsSlot |
| landia/survival/survival_controllers.py:531-537 | `join` reads `self.obj_ids`, which `CTFController` never defines, so every join after the first reset raises `AttributeError` | a player joining a started CTF game | add a player's object that is on neither team | not executed | SurvivalControllers.CTFController.JoinAsWritten | SurvivalControllers.CTFController.Join |
