/** The client side of the snapshot session, `landia/client.py`: the
  * server's per-client session record `RemoteClient`, the datagram
  * reassembly loop `receive_data`, and the request bookkeeping of
  * `ClientConnector`. */
module RemoteClients {
  import opened Base
  import opened Events
  import opened EventBus
  import opened Framing
  import Players

  /** `LATENCY_LOG_SIZE` of `landia/client.py`. */
  const LatencyLogSize: nat := 10000

  /** What a transfer yields: the concatenated bodies and the number of
    * datagrams read. */
  datatype Received = Received(data: seq<Byte>, consumed: nat)

  /** `receive_data`: datagrams are read from `incoming` (the socket) one at
    * a time, their bodies appended, until the first terminal one; running
    * out of datagrams is the socket's timeout. */
  method ReceiveData(incoming: seq<Datagram>) returns (r: Result<Received>)
    ensures r.Ok? <==> exists j :: 0 <= j < |incoming| && Terminal(incoming[j])
    ensures r.Ok? ==> EndsAt(incoming, r.value.consumed) && r.value.data == Bodies(incoming[..r.value.consumed])
    ensures r.Err? ==> r.error == Timeout
  {
    var done := false;
    var all: seq<Byte> := [];
    var i := 0;
    while !done
      invariant 0 <= i <= |incoming|
      invariant all == Bodies(incoming[..i])
      invariant done ==> EndsAt(incoming, i)
      invariant !done ==> forall j :: 0 <= j < i ==> !Terminal(incoming[j])
      decreases |incoming| - i
    {
      if i == |incoming| {
        return Err(Timeout);
      }
      var d := incoming[i];
      assert incoming[..i + 1] == incoming[..i] + [d];
      BodiesSnoc(incoming[..i], d);
      all := all + d.body;
      i := i + 1;
      if d.chunkNum == d.chunks {
        done := true;
      }
    }
    r := Ok(Received(all, i));
  }

  /** The server's datagrams for a non-empty payload, read in order, give
    * back exactly that payload after `chunks` datagrams. */
  lemma ReceiveFramed(ds: seq<Datagram>, p: seq<Byte>, size: nat, r: Received)
    requires size > 0 && FramedAs(ds, p, size) && |p| > 0
    requires EndsAt(ds, r.consumed) && r.data == Bodies(ds[..r.consumed])
    ensures r.data == p && r.consumed == Chunks(|p|, size)
  {
    FramedEnds(ds, p, size);
    EndsAtUnique(ds, r.consumed, Chunks(|p|, size));
  }

  /** `RemoteClient`: the server's record of one client session. */
  class RemoteClient {
    const id: string
    var lastSnapshotTimeMs: int
    /** The latency ring: `latency_history`, written at
      * `request_counter % LATENCY_LOG_SIZE`. */
    const latencyHistory: array<Option<real>>
    var playerId: Option<Players.Uid>
    var requestCounter: nat
    /** Timestamps of snapshots sent and not yet acknowledged. */
    var unconfirmedMessages: set<int>
    /** Client events waiting for the next snapshot, oldest first. */
    var outgoingEvents: seq<Event>
    /** Every latency added, oldest first. */
    ghost var latencies: seq<real>

    /** The ring holds, in each slot, the latest latency written there. */
    ghost predicate Valid()
      reads this, latencyHistory
    {
      && latencyHistory.Length == LatencyLogSize
      && requestCounter == |latencies|
      && forall s :: 0 <= s < LatencyLogSize ==> latencyHistory[s] == LatestAt(latencies, s, LatencyLogSize)
    }

    /** `RemoteClient(client_id)`: no snapshot sent yet, nothing
      * unconfirmed or queued, and a ring of `None`s. */
    constructor (clientId: string)
      ensures Valid() && fresh(latencyHistory)
      ensures id == clientId && lastSnapshotTimeMs == 0 && playerId.None? && requestCounter == 0
      ensures unconfirmedMessages == {} && outgoingEvents == [] && latencies == []
      ensures forall s :: 0 <= s < latencyHistory.Length ==> latencyHistory[s].None?
    {
      id := clientId;
      lastSnapshotTimeMs := 0;
      latencyHistory := new Option<real>[LatencyLogSize](_ => None);
      playerId := None;
      requestCounter := 0;
      unconfirmedMessages := {};
      outgoingEvents := [];
      latencies := [];
    }

    /** `add_event`: appended to the outgoing queue. */
    method AddEvent(e: Event)
      modifies this`outgoingEvents
      ensures outgoingEvents == old(outgoingEvents) + [e]
    {
      outgoingEvents := outgoingEvents + [e];
    }

    method ClearEvents()
      modifies this`outgoingEvents
      ensures outgoingEvents == []
    {
      outgoingEvents := [];
    }

    /** `pull_events_snapshot`: the snapshots of the queued events, in
      * queue order; the queue is left empty. */
    method PullEventsSnapshot() returns (results: seq<EventSnap>)
      modifies this`outgoingEvents
      ensures |results| == |old(outgoingEvents)|
      ensures forall i :: 0 <= i < |results| ==> results[i] == Snap(old(outgoingEvents)[i])
      ensures outgoingEvents == []
    {
      results := [];
      var i := 0;
      while i < |outgoingEvents|
        invariant 0 <= i <= |outgoingEvents|
        invariant |results| == i
        invariant forall j :: 0 <= j < i ==> results[j] == Snap(outgoingEvents[j])
      {
        results := results + [Snap(outgoingEvents[i])];
        i := i + 1;
      }
      ClearEvents();
    }

    /** `add_latency`: written at slot `request_counter % LATENCY_LOG_SIZE`,
      * then the counter moves on; the ring keeps, per slot, the latest
      * latency written there. */
    method AddLatency(latency: real)
      requires Valid()
      modifies this, latencyHistory
      ensures Valid()
      ensures latencies == old(latencies) + [latency]
      ensures requestCounter == old(requestCounter) + 1
      ensures latencyHistory[old(requestCounter) % LatencyLogSize] == Some(latency)
      ensures forall s :: 0 <= s < LatencyLogSize && s != old(requestCounter) % LatencyLogSize ==>
                latencyHistory[s] == old(latencyHistory[s])
    {
      latencyHistory[requestCounter % LatencyLogSize] := Some(latency);
      requestCounter := requestCounter + 1;
      latencies := latencies + [latency];
      assert latencies[..|latencies| - 1] == old(latencies);
    }

    function GetId(): string
    {
      id
    }
  }

  /** Snapshots pulled from a client's queue, rebuilt on the server at tick
    * `now`: a queued delayed or periodic event is lost, and every other
    * queued event other than an object event comes back as it was queued,
    * up to a zero creation tick, which becomes `now`. */
  lemma PulledRebuild(queued: seq<Event>, results: seq<EventSnap>, now: int)
    requires |results| == |queued|
    requires forall i :: 0 <= i < |results| ==> results[i] == Snap(queued[i])
    ensures forall i :: 0 <= i < |results| ==>
              (BuildEvent(results[i], now).Ok? <==> !queued[i].kind.DelayedEvent? && !queued[i].kind.PeriodicEvent?)
    ensures forall i :: 0 <= i < |results| && !queued[i].kind.ObjectEvent? && BuildEvent(results[i], now).Ok? ==>
              BuildEvent(results[i], now).value == queued[i].(creationTime := BuildEvent(results[i], now).value.creationTime)
    ensures forall i :: 0 <= i < |results| && queued[i].creationTime != 0 && queued[i].kind.InputEvent? ==>
              BuildEvent(results[i], now) == Ok(queued[i])
  {
    forall i | 0 <= i < |results|
      ensures BuildEvent(results[i], now).Ok? <==> !queued[i].kind.DelayedEvent? && !queued[i].kind.PeriodicEvent?
      ensures !queued[i].kind.ObjectEvent? && BuildEvent(results[i], now).Ok? ==>
                BuildEvent(results[i], now).value == queued[i].(creationTime := BuildEvent(results[i], now).value.creationTime)
      ensures queued[i].creationTime != 0 && queued[i].kind.InputEvent? ==> BuildEvent(results[i], now) == Ok(queued[i])
    {
      BuildSnapRoundTrip(queued[i], now);
    }
  }

  /** An outgoing item is usable when present and non-empty. */
  predicate Usable(item: Option<seq<EventSnap>>)
  {
    item.Some? && item.value != []
  }

  /** The request side of `ClientConnector`: the outgoing buffer drained
    * into each request and the snapshot acknowledgements it carries. */
  class ClientConnector {
    /** `outgoing_buffer`, front first; an entry is an item or `None`. */
    var outgoingBuffer: seq<Option<seq<EventSnap>>>
    /** Timestamps acknowledged in the next request. */
    var lastReceivedSnapshots: seq<int>
    var clientId: Option<string>
    var requestCounter: nat
    /** Responses handed to the game thread, oldest first. */
    var incomingBuffer: seq<int>

    constructor (clientId: Option<string>)
      ensures outgoingBuffer == [] && lastReceivedSnapshots == [] && this.clientId == clientId
      ensures requestCounter == 0 && incomingBuffer == []
    {
      outgoingBuffer := [];
      lastReceivedSnapshots := [];
      this.clientId := clientId;
      requestCounter := 0;
      incomingBuffer := [];
    }

    /** `client_id` as sent: the empty string while none is known. */
    function RequestClientId(): (s: string)
      reads this
      ensures clientId.None? ==> s == ""
      ensures clientId.Some? ==> s == clientId.value
    {
      if clientId.None? then "" else clientId.value
    }

    /** The item drain of `create_request`: items are taken from the front
      * of the buffer until it is empty or an absent or empty item is
      * taken, which is dropped and ends the drain. */
    method DrainOutgoing() returns (items: seq<seq<EventSnap>>)
      modifies this`outgoingBuffer
      ensures |items| <= |old(outgoingBuffer)|
      ensures forall i :: 0 <= i < |items| ==> old(outgoingBuffer)[i] == Some(items[i]) && items[i] != []
      ensures |items| == |old(outgoingBuffer)| ==> outgoingBuffer == []
      ensures |items| < |old(outgoingBuffer)| ==>
                !Usable(old(outgoingBuffer)[|items|]) && outgoingBuffer == old(outgoingBuffer)[|items| + 1..]
    {
      items := [];
      var done := false;
      while !done
        invariant |items| <= |old(outgoingBuffer)|
        invariant forall i :: 0 <= i < |items| ==> old(outgoingBuffer)[i] == Some(items[i]) && items[i] != []
        invariant !done ==> outgoingBuffer == old(outgoingBuffer)[|items|..]
        invariant done ==> (|items| == |old(outgoingBuffer)| && outgoingBuffer == []) ||
                           (|items| < |old(outgoingBuffer)| && !Usable(old(outgoingBuffer)[|items|]) &&
                            outgoingBuffer == old(outgoingBuffer)[|items| + 1..])
        decreases |outgoingBuffer|, !done
      {
        if |outgoingBuffer| == 0 {
          done := true;
          break;
        }
        var item := outgoingBuffer[0];
        outgoingBuffer := outgoingBuffer[1..];
        if item.None? || |item.value| == 0 {
          done := true;
        } else {
          items := items + [item.value];
        }
      }
    }

    /** The bookkeeping of `create_request` after a response: a response
      * makes its snapshot the one acknowledged next, adopts the client id
      * the server gave, passes an `UPDATE` on to the game and counts the
      * request; a lost response changes none of these. */
    method OnResponse(response: Option<(int, string, string)>)
      modifies this`lastReceivedSnapshots, this`clientId, this`incomingBuffer, this`requestCounter
      ensures response.None? ==> lastReceivedSnapshots == old(lastReceivedSnapshots) && clientId == old(clientId)
                                 && incomingBuffer == old(incomingBuffer) && requestCounter == old(requestCounter)
      ensures response.Some? ==> lastReceivedSnapshots == [response.value.0] && clientId == Some(response.value.1)
      ensures response.Some? ==> requestCounter == old(requestCounter) + 1
      ensures response.Some? ==> incomingBuffer == old(incomingBuffer) + if response.value.2 == "UPDATE" then [response.value.0] else []
    {
      if response.Some? {
        var (ts, cid, message) := response.value;
        lastReceivedSnapshots := [ts];
        clientId := Some(cid);
        if message == "UPDATE" {
          incomingBuffer := incomingBuffer + [ts];
        }
        requestCounter := requestCounter + 1;
      }
    }
  }
}
