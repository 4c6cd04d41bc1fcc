/** `PlayerManager` of `simpleland/player_manager.py`: the player table,
  * keyed by the string form of each player's uid. */
module PlayerTable {
  import opened Base
  import opened Events
  import opened Players

  /** The queues of the players in `order`, one after another. */
  function Concat(order: seq<Player>, q: map<Player, seq<Event>>): seq<Event>
    requires forall p :: p in order ==> p in q
  {
    if order == [] then [] else Concat(order[..|order| - 1], q) + q[order[|order| - 1]]
  }

  /** Every queued event appears in the concatenation, and nothing else. */
  lemma {:induction false} ConcatContents(order: seq<Player>, q: map<Player, seq<Event>>, e: Event)
    requires forall p :: p in order ==> p in q
    ensures e in Concat(order, q) <==> exists p :: p in order && e in q[p]
  {
    if order != [] {
      var init, last := order[..|order| - 1], order[|order| - 1];
      ConcatContents(init, q, e);
      assert forall p :: p in order <==> p in init || p == last by {
        assert order == init + [last];
      }
    }
  }

  /** Appending a player not yet in a repetition-free order keeps it free
    * of repetitions. */
  lemma DistinctSnoc(order: seq<Player>, p: Player)
    requires forall i, j :: 0 <= i < j < |order| ==> order[i] != order[j]
    requires p !in order
    ensures forall i, j :: 0 <= i < j < |order + [p]| ==> (order + [p])[i] != (order + [p])[j]
  {
  }

  /** The `pull_events` loop with `todo` still to pull over the players
    * `ps` whose queues were `q`: the players pulled so far, in `order` and
    * each once, have empty queues and their queues, one after another, make
    * up `r`; the others keep their queues. */
  ghost predicate Pulled(ps: set<Player>, todo: set<Player>, order: seq<Player>, q: map<Player, seq<Event>>,
                         r: seq<Event>)
    reads ps
  {
    && todo <= ps && q.Keys == ps
    && (forall p :: p in order ==> p in ps && p !in todo)
    && (forall p :: p in ps && p !in todo ==> p in order)
    && (forall i, j :: 0 <= i < j < |order| ==> order[i] != order[j])
    && r == Concat(order, q)
    && (forall p :: p in ps && p !in todo ==> p.events == [])
    && (forall p :: p in todo ==> p.events == q[p])
  }

  /** Each player of `ps` has the snapshot `snaps` records for it. */
  ghost predicate SnapshotsAre(ps: set<Player>, snaps: map<Player, PlayerSnapshot>)
    reads ps
  {
    forall p :: p in ps ==> p in snaps && p.Snapshot() == snaps[p]
  }

  /** A player as the table's contents see it: its snapshot and queue. */
  datatype Entry = Entry(snap: PlayerSnapshot, events: seq<Event>)

  /** `data` restricted to the keys in `done`. */
  function Restrict(data: map<string, PlayerSnapshot>, done: set<string>): map<string, PlayerSnapshot>
  {
    map k | k in data && k in done :: data[k]
  }

  /** The table contents after loading `data` into `st`: every key of
    * `data` holds its entry, keeping the queue of a player already there
    * and starting an empty one for a new player; other keys are kept. */
  function Loaded(st: map<string, Entry>, data: map<string, PlayerSnapshot>): map<string, Entry>
  {
    map k | k in st.Keys + data.Keys :: if k in data then Entry(data[k], if k in st then st[k].events else []) else st[k]
  }

  /** Loading is the same whether the entries are taken all at once or one
    * key after another. */
  lemma LoadedStep(st: map<string, Entry>, data: map<string, PlayerSnapshot>, done: set<string>, k: string)
    requires k in data && k !in done
    ensures Loaded(st, Restrict(data, done + {k}))
            == Loaded(st, Restrict(data, done))[k := Entry(data[k], if k in st then st[k].events else [])]
  {
  }

  /** One more key loaded, as the table's contents see it. */
  lemma LoadedNext(st0: map<string, Entry>, data: map<string, PlayerSnapshot>, done: set<string>, k: string,
                   before: map<string, Entry>)
    requires k in data && k !in done && before == Loaded(st0, Restrict(data, done))
    ensures before[k := Entry(data[k], if k in before then before[k].events else [])]
            == Loaded(st0, Restrict(data, done + {k}))
  {
    LoadedStep(st0, data, done, k);
    assert k in before <==> k in st0;
    if k in st0 {
      assert before[k] == st0[k];
    }
  }

  /** A sequence without repetitions has as many elements as its set. */
  lemma {:induction false} DistinctCard(s: seq<string>)
    requires forall i, j :: 0 <= i < j < |s| ==> s[i] != s[j]
    ensures |set x | x in s| == |s|
  {
    if s != [] {
      var init := s[..|s| - 1];
      DistinctCard(init);
      assert (set x | x in s) == (set x | x in init) + {s[|s| - 1]};
      assert s[|s| - 1] !in init;
    }
  }

  /** After a load the table has the old keys and the loaded ones; a loaded
    * key holds exactly its entry and keeps the queue it had; every key not
    * loaded keeps its contents. */
  lemma LoadedSpec(st: map<string, Entry>, data: map<string, PlayerSnapshot>)
    ensures Loaded(st, data).Keys == st.Keys + data.Keys
    ensures forall k :: k in data ==> Loaded(st, data)[k].snap == data[k]
    ensures forall k :: k in data && k in st ==> Loaded(st, data)[k].events == st[k].events
    ensures forall k :: k in data && k !in st ==> Loaded(st, data)[k].events == []
    ensures forall k :: k in st && k !in data ==> Loaded(st, data)[k] == st[k]
  {
  }

  /** No player is filed under two keys. */
  ghost predicate Unaliased(pm: map<string, Player>)
  {
    forall k1, k2 :: k1 in pm && k2 in pm && k1 != k2 ==> pm[k1] != pm[k2]
  }

  /** The keys of `load_snapshot` once those in `done` are loaded into table
    * `m0`, giving table `pm`: the keys loaded so far are filed, the old
    * keys keep their players, and the players made so far (`newPlayers`,
    * none of them in the old table, no two alike) sit under the new keys
    * (`newKeys`), in order. */
  ghost predicate Tracked(done: set<string>, m0: map<string, Player>, newKeys: seq<string>,
                          newPlayers: seq<Player>, pm: map<string, Player>)
  {
    && pm.Keys == m0.Keys + done
    && (forall k :: k in m0 ==> pm[k] == m0[k])
    && |newKeys| == |newPlayers|
    && (forall i :: 0 <= i < |newKeys| ==>
          newKeys[i] in done && newKeys[i] !in m0 && pm[newKeys[i]] == newPlayers[i])
    && (forall k :: k in done && k !in m0 ==> k in newKeys)
    && (forall i, j :: 0 <= i < j < |newPlayers| ==> newPlayers[i] != newPlayers[j])
    && (forall p :: p in newPlayers ==> p !in m0.Values)
  }

  /** The contents of `load_snapshot` once the keys in `done` are loaded:
    * for a table that filed no player twice, still none is filed twice and
    * the contents are those keys `Loaded` into the old contents. */
  ghost predicate Contents(data: map<string, PlayerSnapshot>, done: set<string>, st0: map<string, Entry>,
                           distinct0: bool, pm: map<string, Player>, st: map<string, Entry>)
  {
    distinct0 ==> Unaliased(pm) && st == Loaded(st0, Restrict(data, done))
  }

  lemma TrackStart(m0: map<string, Player>)
    ensures Tracked({}, m0, [], [], m0)
  {
  }

  /** A key not loaded yet that is in the table was in the old table,
    * under the same player. */
  lemma KnownIsOld(done: set<string>, m0: map<string, Player>, newKeys: seq<string>, newPlayers: seq<Player>,
                   pm: map<string, Player>, k: string)
    requires Tracked(done, m0, newKeys, newPlayers, pm) && k !in done
    ensures k in pm ==> k in m0 && pm[k] in m0.Values
  {
  }

  /** Loading a key already in the table changes no key. */
  lemma TrackKnown(done: set<string>, m0: map<string, Player>, newKeys: seq<string>, newPlayers: seq<Player>,
                   pm: map<string, Player>, k: string)
    requires Tracked(done, m0, newKeys, newPlayers, pm) && k in pm && k !in done
    ensures Tracked(done + {k}, m0, newKeys, newPlayers, pm)
  {
  }

  /** Loading a key not in the table files a new player under it. */
  lemma TrackNew(done: set<string>, m0: map<string, Player>, newKeys: seq<string>, newPlayers: seq<Player>,
                 pm: map<string, Player>, k: string, p: Player)
    requires Tracked(done, m0, newKeys, newPlayers, pm) && k !in pm && p !in pm.Values
    ensures Tracked(done + {k}, m0, newKeys + [k], newPlayers + [p], pm[k := p])
  {
    forall i | 0 <= i < |newPlayers| ensures newPlayers[i] != p {
      assert pm[newKeys[i]] == newPlayers[i];
    }
    forall q | q in m0.Values ensures q != p {
      var k0 :| k0 in m0 && m0[k0] == q;
      assert pm[k0] == q;
    }
  }

  /** The table `pm` (contents `st`) and the new players after `data` is
    * loaded into table `m0` (contents `st0`): every key is filed, the old
    * keys keep their players, one player per new key that was not in the
    * old table, and, for an old table that filed no player twice, the
    * contents are `data` `Loaded` into the old ones. */
  ghost predicate LoadedTable(data: map<string, PlayerSnapshot>, m0: map<string, Player>, st0: map<string, Entry>,
                              distinct0: bool, newPlayers: seq<Player>, pm: map<string, Player>, st: map<string, Entry>)
  {
    && pm.Keys == m0.Keys + data.Keys
    && (forall k :: k in m0 ==> pm[k] == m0[k])
    && (forall p :: p in newPlayers ==> p !in m0.Values)
    && (forall i, j :: 0 <= i < j < |newPlayers| ==> newPlayers[i] != newPlayers[j])
    && |newPlayers| == |data.Keys - m0.Keys|
    && (forall k :: k in data && k !in m0 ==> pm[k] in newPlayers)
    && (distinct0 ==> Unaliased(pm) && st == Loaded(st0, data))
  }

  /** The end of the `load_snapshot` loop. */
  lemma LoadDone(data: map<string, PlayerSnapshot>, done: set<string>, m0: map<string, Player>,
                 st0: map<string, Entry>, distinct0: bool, newKeys: seq<string>, newPlayers: seq<Player>,
                 pm: map<string, Player>, st: map<string, Entry>)
    requires done == data.Keys - {}
    requires Tracked(done, m0, newKeys, newPlayers, pm) && Contents(data, done, st0, distinct0, pm, st)
    ensures LoadedTable(data, m0, st0, distinct0, newPlayers, pm, st)
  {
    assert done == data.Keys;
    assert Restrict(data, done) == data;
    NewCount(data, m0, newKeys, newPlayers, pm);
    forall k | k in data && k !in m0 ensures pm[k] in newPlayers {
      var i :| 0 <= i < |newKeys| && newKeys[i] == k;
    }
  }

  /** One new player per key of `data` not in the old table. */
  lemma NewCount(data: map<string, PlayerSnapshot>, m0: map<string, Player>, newKeys: seq<string>,
                 newPlayers: seq<Player>, pm: map<string, Player>)
    requires Tracked(data.Keys, m0, newKeys, newPlayers, pm)
    ensures |newPlayers| == |data.Keys - m0.Keys|
  {
    forall i, j | 0 <= i < j < |newKeys| ensures newKeys[i] != newKeys[j] {
      assert newPlayers[i] != newPlayers[j];
    }
    assert (set k | k in newKeys) == data.Keys - m0.Keys;
    DistinctCard(newKeys);
  }

  class PlayerManager {
    /** `str(uid)` -> player */
    var playersMap: map<string, Player>

    constructor ()
      ensures playersMap == map[]
    {
      playersMap := map[];
    }

    /** Every player is filed under the string form of its own uid. */
    ghost predicate Filed()
      reads this, playersMap.Values
    {
      forall k :: k in playersMap ==> Str(playersMap[k].uid) == k
    }

    /** No player is filed under two keys. */
    ghost predicate NoAlias()
      reads this
    {
      Unaliased(playersMap)
    }

    /** A table whose players sit under their own uids files no player
      * twice. */
    lemma FiledNoAlias()
      requires Filed()
      ensures NoAlias()
    {
      forall k1, k2 | k1 in playersMap && k2 in playersMap && playersMap[k1] == playersMap[k2]
        ensures k1 == k2
      {
        assert Str(playersMap[k1].uid) == k1 && Str(playersMap[k2].uid) == k2;
      }
    }

    /** `add_player`: filed under `str(uid)`, replacing a player there. */
    method AddPlayer(p: Player)
      modifies this
      ensures playersMap == old(playersMap)[Str(p.uid) := p]
      ensures GetPlayer(p.uid) == Some(p)
      ensures old(Filed()) ==> Filed()
    {
      playersMap := playersMap[Str(p.uid) := p];
    }

    /** `get_player`: the player filed under `str(uid)`, or `None`. */
    function GetPlayer(u: Uid): (r: Option<Player>)
      reads this
      ensures r.Some? <==> Str(u) in playersMap
      ensures r.Some? ==> r.value == playersMap[Str(u)]
    {
      if Str(u) in playersMap then Some(playersMap[Str(u)]) else None
    }

    /** The queue of every player in the table. */
    ghost function Queues(): (q: map<Player, seq<Event>>)
      reads this, playersMap.Values
      ensures q.Keys == playersMap.Values
    {
      map p | p in playersMap.Values :: p.events
    }

    /** `pull_events`: every player's queue is drained into the result, one
      * queue after another, each player once, in the order `order` lists
      * them (a player filed twice yields its queue once, the second pull
      * finding it empty), and every
      * queue is left empty; nothing else about a player changes. */
    method PullEvents() returns (r: seq<Event>, ghost order: seq<Player>)
      modifies playersMap.Values
      ensures forall p :: p in order <==> p in playersMap.Values
      ensures forall i, j :: 0 <= i < j < |order| ==> order[i] != order[j]
      ensures forall p :: p in order ==> p in old(Queues())
      ensures r == Concat(order, old(Queues()))
      ensures forall p :: p in playersMap.Values ==> p.events == [] && p.Snapshot() == old(p.Snapshot())
    {
      ghost var ps, q := playersMap.Values, Queues();
      ghost var snaps := map p | p in ps :: p.Snapshot();
      var todo := playersMap.Values;
      r := [];
      order := [];
      while todo != {}
        invariant Pulled(ps, todo, order, q, r) && SnapshotsAre(ps, snaps)
        decreases todo
      {
        var p := Pick(todo);
        r, order := PullStep(p, ps, todo, order, q, r, snaps);
        todo := todo - {p};
      }
    }

    /** A pass of the `pull_events` loop: player `p`'s queue is drained
      * onto the result. */
    method PullStep(p: Player, ghost ps: set<Player>, ghost todo: set<Player>, ghost order: seq<Player>,
                    ghost q: map<Player, seq<Event>>, r: seq<Event>, ghost snaps: map<Player, PlayerSnapshot>)
      returns (r': seq<Event>, ghost order': seq<Player>)
      requires p in todo && Pulled(ps, todo, order, q, r) && SnapshotsAre(ps, snaps)
      modifies p`events
      ensures Pulled(ps, todo - {p}, order', q, r') && SnapshotsAre(ps, snaps)
    {
      var es := p.PullInputEvents();
      DistinctSnoc(order, p);
      assert (order + [p])[..|order|] == order;
      r' := r + es;
      order' := order + [p];
    }

    /** `get_snapshot`: one entry per uid in the table, holding the snapshot
      * of a player with that uid; when every player sits under its own uid,
      * every player has its own entry. */
    method GetSnapshot() returns (r: map<Uid, PlayerSnapshot>)
      ensures r.Keys == set p | p in playersMap.Values :: p.uid
      ensures forall u :: u in r ==> exists p :: p in playersMap.Values && p.uid == u && r[u] == p.Snapshot()
      ensures Filed() ==> forall k :: k in playersMap ==> r[playersMap[k].uid] == playersMap[k].Snapshot()
    {
      r := map[];
      var todo := playersMap.Values;
      while todo != {}
        invariant todo <= playersMap.Values
        invariant r.Keys == set p | p in playersMap.Values && p !in todo :: p.uid
        invariant forall u :: u in r ==> exists p :: p in playersMap.Values && p.uid == u && r[u] == p.Snapshot()
        invariant Filed() ==> forall p :: p in playersMap.Values && p !in todo ==> r[p.uid] == p.Snapshot()
        decreases todo
      {
        var p := Pick(todo);
        r := r[p.uid := p.Snapshot()];
        todo := todo - {p};
      }
    }

    /** What the table holds, as values: each key's player snapshot and
      * event queue. */
    ghost function State(): map<string, Entry>
      reads this, playersMap.Values
    {
      map k | k in playersMap :: Entry(playersMap[k].Snapshot(), playersMap[k].events)
    }

    /** `load_snapshot` with the string keys the snapshot transport
      * produces: a key already in the table loads the entry into that
      * player (its event queue kept), any other key gets a new player built
      * from the entry; the new players are returned, one per new key, and
      * every other player is left as it was (stated for a table that files
      * no player twice, see `FiledNoAlias`). */
    method LoadSnapshot(data: map<string, PlayerSnapshot>) returns (newPlayers: seq<Player>)
      modifies this, playersMap.Values
      ensures LoadedTable(data, old(playersMap), old(State()), old(NoAlias()), newPlayers, playersMap, State())
    {
      ghost var m0, st0, distinct0 := playersMap, State(), NoAlias();
      ghost var done: set<string> := {};
      ghost var newKeys: seq<string> := [];
      var todo := data.Keys;
      newPlayers := [];
      TrackStart(m0);
      assert Loaded(st0, Restrict(data, {})) == st0;
      while todo != {}
        invariant todo <= data.Keys && done == data.Keys - todo
        invariant Tracked(done, m0, newKeys, newPlayers, playersMap)
        invariant Contents(data, done, st0, distinct0, playersMap, State())
        decreases todo
      {
        var k := Pick(todo);
        PickedStep(data.Keys, done, todo, k);
        KnownIsOld(done, m0, newKeys, newPlayers, playersMap, k);
        newPlayers, newKeys := LoadKey(data, done, k, m0, st0, distinct0, newKeys, newPlayers);
        done := done + {k};
        todo := todo - {k};
      }
      LoadDone(data, done, m0, st0, distinct0, newKeys, newPlayers, playersMap, State());
    }

    /** A pass of the `load_snapshot` loop: key `k` is loaded, and a new
      * player made for it is appended to the new players. */
    method LoadKey(data: map<string, PlayerSnapshot>, ghost done: set<string>, k: string,
                   ghost m0: map<string, Player>, ghost st0: map<string, Entry>, ghost distinct0: bool,
                   ghost newKeys: seq<string>, newPlayers: seq<Player>)
      returns (newPlayers': seq<Player>, ghost newKeys': seq<string>)
      requires Tracked(done, m0, newKeys, newPlayers, playersMap)
      requires Contents(data, done, st0, distinct0, playersMap, State())
      requires k in data && k !in done
      modifies this, if k in playersMap then {playersMap[k]} else {}
      ensures Tracked(done + {k}, m0, newKeys', newPlayers', playersMap)
      ensures Contents(data, done + {k}, st0, distinct0, playersMap, State())
    {
      if k in playersMap {
        LoadKnown(data, done, k, m0, st0, distinct0, newKeys, newPlayers);
        newPlayers', newKeys' := newPlayers, newKeys;
      } else {
        var p := LoadNew(data, done, k, m0, st0, distinct0, newKeys, newPlayers);
        newPlayers', newKeys' := newPlayers + [p], newKeys + [k];
      }
    }

    /** A pass of the `load_snapshot` loop on a key already in the table. */
    method LoadKnown(data: map<string, PlayerSnapshot>, ghost done: set<string>, k: string,
                     ghost m0: map<string, Player>, ghost st0: map<string, Entry>, ghost distinct0: bool,
                     ghost newKeys: seq<string>, ghost newPlayers: seq<Player>)
      requires Tracked(done, m0, newKeys, newPlayers, playersMap)
      requires Contents(data, done, st0, distinct0, playersMap, State())
      requires k in data && k !in done && k in playersMap
      modifies this, playersMap[k]
      ensures Tracked(done + {k}, m0, newKeys, newPlayers, playersMap)
      ensures Contents(data, done + {k}, st0, distinct0, playersMap, State())
    {
      ghost var before := State();
      var created := LoadEntry(k, data[k]);
      TrackKnown(done, m0, newKeys, newPlayers, playersMap, k);
      if distinct0 {
        LoadedNext(st0, data, done, k, before);
      }
    }

    /** A pass of the `load_snapshot` loop on a key not yet in the table: the
      * new player is returned. */
    method LoadNew(data: map<string, PlayerSnapshot>, ghost done: set<string>, k: string,
                   ghost m0: map<string, Player>, ghost st0: map<string, Entry>, ghost distinct0: bool,
                   ghost newKeys: seq<string>, ghost newPlayers: seq<Player>)
      returns (p: Player)
      requires Tracked(done, m0, newKeys, newPlayers, playersMap)
      requires Contents(data, done, st0, distinct0, playersMap, State())
      requires k in data && k !in done && k !in playersMap
      modifies this
      ensures Tracked(done + {k}, m0, newKeys + [k], newPlayers + [p], playersMap)
      ensures Contents(data, done + {k}, st0, distinct0, playersMap, State())
    {
      ghost var before, pm := State(), playersMap;
      var created := LoadEntry(k, data[k]);
      p := created.value;
      TrackNew(done, m0, newKeys, newPlayers, pm, k, p);
      if distinct0 {
        LoadedNext(st0, data, done, k, before);
      }
    }

    /** One entry of `load_snapshot`: loaded into the player filed under
      * `k`, or built into a new player filed there, which is returned. */
    method LoadEntry(k: string, s: PlayerSnapshot) returns (created: Option<Player>)
      modifies this, if k in playersMap then {playersMap[k]} else {}
      ensures created.Some? <==> k !in old(playersMap)
      ensures created.None? ==> playersMap == old(playersMap)
      ensures created.Some? ==> fresh(created.value) && playersMap == old(playersMap)[k := created.value]
      ensures old(NoAlias()) ==>
                NoAlias() && State() == old(State())[k := Entry(s, if k in old(State()) then old(State())[k].events else [])]
    {
      if k in playersMap {
        playersMap[k].LoadSnapshot(s);
        created := None;
      } else {
        var p := new Player.FromSnapshot(s);
        playersMap := playersMap[k := p];
        created := Some(p);
      }
    }
  }
}
