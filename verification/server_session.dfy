/** The server side of the snapshot session, `UDPHandler.handle` of
  * `simpleland/server.py`: acknowledgements, the client's event items,
  * the backpressure reset, and the framing of the response. */
module ServerSession {
  import opened Base
  import opened EventBus
  import opened Framing
  import opened RemoteClients
  import opened Events

  /** The request items, concatenated in order. */
  function Flattened(items: seq<seq<EventSnap>>): seq<EventSnap>
  {
    if items == [] then [] else Flattened(items[..|items| - 1]) + items[|items| - 1]
  }

  /** An entry is in the flattened list exactly when some item holds it. */
  lemma {:induction false} FlattenedContents(items: seq<seq<EventSnap>>, s: EventSnap)
    ensures s in Flattened(items) <==> exists i :: 0 <= i < |items| && s in items[i]
  {
    if items != [] {
      var init, last := items[..|items| - 1], items[|items| - 1];
      FlattenedContents(init, s);
      assert forall i :: 0 <= i < |init| ==> init[i] == items[i];
    }
  }

  /** The timestamps a request acknowledges. */
  function Listed(received: seq<int>): set<int>
  {
    set t | t in received
  }

  /** The unconfirmed snapshots after one request: the acknowledged ones
    * are dropped, the set is emptied when it still holds `limit` or more,
    * and the new snapshot's timestamp is added. */
  function NextUnconfirmed(u: set<int>, received: seq<int>, limit: int, ts: int): (r: set<int>)
    ensures ts in r
    ensures |r| <= if limit > 1 then limit else 1
    ensures forall t :: t in received && t != ts ==> t !in r
    ensures r <= u + {ts}
  {
    var acked := u - Listed(received);
    if |acked| >= limit then {ts} else acked + {ts}
  }

  /** A client that never acknowledges sees its unconfirmed set grow by one
    * per request until it reaches the limit, and then start again from the
    * new snapshot alone. */
  lemma OverloadResets(u: set<int>, limit: int, ts: int)
    requires |u| >= limit
    ensures NextUnconfirmed(u, [], limit, ts) == {ts}
  {
    var none: seq<int> := [];
    assert Listed(none) == {};
  }

  /** Below the limit nothing is forgotten. */
  lemma BelowLimitKeeps(u: set<int>, received: seq<int>, limit: int, ts: int)
    requires |u| < limit
    ensures NextUnconfirmed(u, received, limit, ts) == (u - Listed(received)) + {ts}
  {
    var acked := u - Listed(received);
    assert acked <= u;
    SubsetCard(acked, u);
  }

  lemma SubsetCard(a: set<int>, b: set<int>)
    requires a <= b
    ensures |a| <= |b|
  {
    assert b == a + (b - a);
  }

  /** The delta base the snapshot is built against: 0 (a full snapshot)
    * when the client acknowledged nothing or the server gave up on it,
    * otherwise the time of the last snapshot sent. */
  function Baseline(last: int, u: set<int>, received: seq<int>, limit: int): (b: int)
    ensures received == [] ==> b == 0
    ensures b != last ==> b == 0
  {
    if received == [] || |u - Listed(received)| >= limit then 0 else last
  }

  /** The acknowledgement step (lines 43-52): an empty list resets the
    * delta base; every listed timestamp leaves the unconfirmed set, and an
    * unknown one is ignored. */
  method Acknowledge(client: RemoteClient, received: seq<int>)
    modifies client`lastSnapshotTimeMs, client`unconfirmedMessages
    ensures client.unconfirmedMessages == old(client.unconfirmedMessages) - Listed(received)
    ensures client.lastSnapshotTimeMs == if received == [] then 0 else old(client.lastSnapshotTimeMs)
  {
    if |received| == 0 {
      client.lastSnapshotTimeMs := 0;
    }
    var i := 0;
    while i < |received|
      invariant 0 <= i <= |received|
      invariant client.unconfirmedMessages == old(client.unconfirmedMessages) - Listed(received[..i])
      invariant client.lastSnapshotTimeMs == if received == [] then 0 else old(client.lastSnapshotTimeMs)
    {
      var t := received[i];
      assert Listed(received[..i + 1]) == Listed(received[..i]) + {t} by {
        assert received[..i + 1] == received[..i] + [t];
      }
      if t in client.unconfirmedMessages {
        client.unconfirmedMessages := client.unconfirmedMessages - {t};
      }
      i := i + 1;
    }
    assert received[..|received|] == received;
  }

  /** Lines 55-57: the items' event entries, in order. */
  method FlattenItems(items: seq<seq<EventSnap>>) returns (all: seq<EventSnap>)
    ensures all == Flattened(items)
  {
    all := [];
    var i := 0;
    while i < |items|
      invariant 0 <= i <= |items|
      invariant all == Flattened(items[..i])
    {
      assert items[..i + 1][..i] == items[..i];
      all := all + items[i];
      i := i + 1;
    }
    assert items[..|items|] == items;
  }

  /** Lines 62-64: at `limit` or more unconfirmed snapshots the client
    * gets a full snapshot and the set is forgotten. */
  method Backpressure(client: RemoteClient, limit: int)
    modifies client`lastSnapshotTimeMs, client`unconfirmedMessages
    ensures old(|client.unconfirmedMessages|) >= limit ==> client.lastSnapshotTimeMs == 0 && client.unconfirmedMessages == {}
    ensures old(|client.unconfirmedMessages|) < limit ==>
              client.lastSnapshotTimeMs == old(client.lastSnapshotTimeMs) && client.unconfirmedMessages == old(client.unconfirmedMessages)
  {
    if |client.unconfirmedMessages| >= limit {
      client.lastSnapshotTimeMs := 0;
      client.unconfirmedMessages := {};
    }
  }

  /** Lines 87-98: the payload cut into `chunks + 1` datagrams. */
  method Frame(p: seq<Byte>, size: nat) returns (ds: seq<Datagram>)
    requires size > 0
    ensures FramedAs(ds, p, size)
  {
    var chunks := Chunks(|p|, size);
    ds := [];
    var i := 0;
    while i < chunks + 1
      invariant 0 <= i <= chunks + 1
      invariant |ds| == i
      invariant forall j :: 0 <= j < i ==> ds[j] == Datagram(j + 1, chunks, Slice(p, j * size, (j + 1) * size))
    {
      ds := ds + [Datagram(i + 1, chunks, Slice(p, i * size, (i + 1) * size))];
      i := i + 1;
    }
  }

  /** A request's `info` fields this model reads, and its event items. */
  datatype Request = Request(snapshotsReceived: seq<int>, items: seq<seq<EventSnap>>)

  /** The first half of `handle`, up to the snapshot: acknowledgements, the
    * client's events loaded into the bus (only when there are any), and
    * the backpressure reset. Returns the delta base the snapshot is then
    * built against. */
  method Receive(client: RemoteClient, bus: EventManager, req: Request, limit: int, now: int) returns (baseline: int)
    requires bus.Valid()
    modifies client`lastSnapshotTimeMs, client`unconfirmedMessages, bus
    ensures bus.Valid() && bus.events == LoadedAll(old(bus.events), Flattened(req.items), now)
    ensures baseline == client.lastSnapshotTimeMs
    ensures baseline == Baseline(old(client.lastSnapshotTimeMs), old(client.unconfirmedMessages), req.snapshotsReceived, limit)
    ensures client.unconfirmedMessages ==
              var acked := old(client.unconfirmedMessages) - Listed(req.snapshotsReceived);
              if |acked| >= limit then {} else acked
  {
    Acknowledge(client, req.snapshotsReceived);
    var all := FlattenItems(req.items);
    if |all| > 0 {
      bus.LoadSnapshot(all, now);
    }
    Backpressure(client, limit);
    baseline := client.lastSnapshotTimeMs;
  }

  /** The second half of `handle`, once the snapshot with timestamp `ts`
    * has been encoded as `payload`: the timestamp awaits acknowledgement,
    * the response is framed, and the client's delta base becomes `ts`. */
  method Send(client: RemoteClient, ts: int, payload: seq<Byte>, chunkSize: nat) returns (ds: seq<Datagram>)
    requires chunkSize > 0
    modifies client`lastSnapshotTimeMs, client`unconfirmedMessages
    ensures client.unconfirmedMessages == old(client.unconfirmedMessages) + {ts}
    ensures client.lastSnapshotTimeMs == ts
    ensures FramedAs(ds, payload, chunkSize)
  {
    client.unconfirmedMessages := client.unconfirmedMessages + {ts};
    ds := Frame(payload, chunkSize);
    client.lastSnapshotTimeMs := ts;
  }

  /** Both halves make one request's step of the unconfirmed set. */
  lemma HandleStep(u: set<int>, received: seq<int>, limit: int, ts: int)
    ensures (var acked := u - Listed(received);
             (if |acked| >= limit then {} else acked) + {ts}) == NextUnconfirmed(u, received, limit, ts)
  {
  }

  /** Empty items leave the bus as it was, so skipping the load for them
    * (line 59) changes nothing. */
  lemma EmptyItemsNoLoad(m: map<Id, Event>, items: seq<seq<EventSnap>>, now: int)
    requires forall i :: 0 <= i < |items| ==> items[i] == []
    ensures LoadedAll(m, Flattened(items), now) == m
  {
    FlattenedEmpty(items);
  }

  /** The flattened list is empty exactly when every item is. */
  lemma {:induction false} FlattenedEmpty(items: seq<seq<EventSnap>>)
    ensures Flattened(items) == [] <==> forall i :: 0 <= i < |items| ==> items[i] == []
  {
    if items != [] {
      var init := items[..|items| - 1];
      FlattenedEmpty(init);
      assert forall i :: 0 <= i < |init| ==> init[i] == items[i];
    }
  }
}
