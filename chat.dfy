/**
 * `ChatServer`: peers chat over bidirectional streams.  Each session
 * registers its stream under the sender name of the messages it receives
 * (first stream wins), relays every message to every other registered
 * client, skipping any client whose send fails, and removes the departing
 * client when its stream reaches end-of-file.
 *
 * A stream is an abstract `SinkId`; a send to it either succeeds, recorded
 * as a `Delivery`, or fails, which is decided by the set `failing` of broken
 * streams.  Each block the source runs under `s.mu` is one atomic step.
 */
module Chat {
  import opened Wrappers

  /** Identity of one client stream. */
  type SinkId = nat

  datatype ChatMessage = ChatMessage(sender: string, content: string, timestamp: int)

  /** One successful `Send` of `msg` to the stream registered under `client`. */
  datatype Delivery = Delivery(client: string, sink: SinkId, msg: ChatMessage)

  /** What one `Recv` on a session's stream yields. */
  datatype Recv = Message(msg: ChatMessage) | Eof | RecvError(err: string)

  /** How a session stands after the messages it has received so far. */
  datatype StreamResult =
    | Open                  // still blocked in `Recv`
    | Closed                // the client closed its side: `nil`
    | Failed(err: string)   // any other receive error, returned as is

  datatype Outcome = Outcome(clients: map<string, SinkId>, result: StreamResult)

  /** Registration on a received message: the sender's stream is stored only if the name is free. */
  function Joined(clients: map<string, SinkId>, sender: string, stream: SinkId): (r: map<string, SinkId>)
    ensures sender in r
    ensures sender in clients ==> r[sender] == clients[sender]
    ensures sender !in clients ==> r[sender] == stream
    ensures forall k :: k != sender ==> (k in r <==> k in clients)
    ensures forall k :: k != sender && k in clients ==> r[k] == clients[k]
  {
    if sender in clients then clients else clients[sender := stream]
  }

  /** Deleting one name, as `delete(s.clients, name)` does; an absent name is a no-op. */
  function Left(clients: map<string, SinkId>, sender: string): (r: map<string, SinkId>)
    ensures sender !in r
    ensures forall k :: k != sender ==> (k in r <==> k in clients)
    ensures forall k :: k in r ==> r[k] == clients[k]
    ensures sender !in clients ==> r == clients
  {
    clients - {sender}
  }

  /**
   * Removal on end-of-file: every name registered to the departing stream
   * goes; names held by other streams stay, with their streams.
   */
  function Departed(clients: map<string, SinkId>, stream: SinkId): (r: map<string, SinkId>)
    ensures forall k :: k in r <==> k in clients && clients[k] != stream
    ensures forall k :: k in r ==> r[k] == clients[k]
  {
    map k | k in clients && clients[k] != stream :: clients[k]
  }

  /** Registration is idempotent: a later stream under a taken name never replaces the first. */
  lemma FirstStreamWins(clients: map<string, SinkId>, sender: string, first: SinkId, later: SinkId)
    ensures Joined(Joined(clients, sender, first), sender, later) == Joined(clients, sender, first)
    ensures Joined(Joined(clients, sender, first), sender, later)[sender] ==
      if sender in clients then clients[sender] else first
  {
  }

  /**
   * Reference definition of one session (`ChatStream`) over the results of
   * its successive `Recv` calls on `stream`.
   */
  function ChatRun(clients: map<string, SinkId>, stream: SinkId, incoming: seq<Recv>): Outcome
    decreases |incoming|
  {
    if incoming == [] then Outcome(clients, Open)
    else match incoming[0]
      case Eof => Outcome(Departed(clients, stream), Closed)
      case RecvError(e) => Outcome(clients, Failed(e))
      case Message(m) => ChatRun(Joined(clients, m.sender, stream), stream, incoming[1..])
  }

  /** Every item is a message. */
  predicate AllMessages(ms: seq<Recv>)
  {
    forall i :: 0 <= i < |ms| ==> ms[i].Message?
  }

  /** The registry after the messages among `ms` have registered their senders, in order. */
  function JoinAll(clients: map<string, SinkId>, stream: SinkId, ms: seq<Recv>): map<string, SinkId>
    decreases |ms|
  {
    if ms == [] then clients
    else
      var before := JoinAll(clients, stream, ms[..|ms| - 1]);
      match ms[|ms| - 1]
      case Message(m) => Joined(before, m.sender, stream)
      case _ => before
  }

  /** A session that has received only messages so far has registered their senders and nothing else. */
  lemma {:induction false} RunAfterMessages(clients: map<string, SinkId>, stream: SinkId, ms: seq<Recv>, tail: seq<Recv>)
    requires AllMessages(ms)
    ensures ChatRun(clients, stream, ms + tail) == ChatRun(JoinAll(clients, stream, ms), stream, tail)
    decreases |ms|
  {
    if ms == [] {
      assert ms + tail == tail;
    } else {
      var p, x := ms[..|ms| - 1], ms[|ms| - 1];
      assert ms + tail == p + ([x] + tail);
      assert AllMessages(p) by {
        forall i | 0 <= i < |p| ensures p[i].Message? {
          assert p[i] == ms[i];
        }
      }
      RunAfterMessages(clients, stream, p, [x] + tail);
      assert ([x] + tail)[0] == x && ([x] + tail)[1..] == tail;
    }
  }

  /** `c` is `c0` plus names registered to `stream`. */
  predicate Extends(c0: map<string, SinkId>, c: map<string, SinkId>, stream: SinkId)
  {
    && (forall k :: k in c0 ==> k in c && c[k] == c0[k])
    && (forall k :: k in c && k !in c0 ==> c[k] == stream)
  }

  /**
   * Registration only adds names, each bound to the session's own stream, and
   * every name the session sent under is registered afterwards.
   */
  lemma {:induction false} JoinAllExtends(clients: map<string, SinkId>, stream: SinkId, ms: seq<Recv>)
    ensures Extends(clients, JoinAll(clients, stream, ms), stream)
    ensures forall i :: 0 <= i < |ms| && ms[i].Message? ==> ms[i].msg.sender in JoinAll(clients, stream, ms)
    decreases |ms|
  {
    if ms != [] {
      var p := ms[..|ms| - 1];
      JoinAllExtends(clients, stream, p);
      forall i | 0 <= i < |ms| && ms[i].Message? ensures ms[i].msg.sender in JoinAll(clients, stream, ms) {
        if i < |p| {
          assert p[i] == ms[i];
        }
      }
    }
  }

  /** Removing the stream's names undoes an extension by that stream, if it held no name before. */
  lemma DepartedUndoesJoins(c0: map<string, SinkId>, c: map<string, SinkId>, stream: SinkId)
    requires Extends(c0, c, stream)
    requires forall k :: k in c0 ==> c0[k] != stream
    ensures Departed(c, stream) == c0
  {
    assert Departed(c, stream).Keys == c0.Keys;
  }

  /**
   * A client whose stream held no name, sends any messages under any names
   * and then closes its stream leaves the registry exactly as it found it.
   */
  lemma {:induction false} SessionRestoresRegistry(clients: map<string, SinkId>, stream: SinkId, ms: seq<Recv>)
    requires AllMessages(ms)
    requires forall k :: k in clients ==> clients[k] != stream
    ensures ChatRun(clients, stream, ms + [Eof]) == Outcome(clients, Closed)
  {
    RunAfterMessages(clients, stream, ms, [Eof]);
    JoinAllExtends(clients, stream, ms);
    DepartedUndoesJoins(clients, JoinAll(clients, stream, ms), stream);
  }

  /**
   * A receive error other than end-of-file ends the session with that error
   * and removes nobody: every name the client sent under stays registered,
   * a stale entry.
   */
  lemma {:induction false} ErrorLeavesStaleEntries(
    clients: map<string, SinkId>, stream: SinkId, ms: seq<Recv>, err: string)
    requires AllMessages(ms)
    ensures ChatRun(clients, stream, ms + [RecvError(err)]) ==
      Outcome(JoinAll(clients, stream, ms), Failed(err))
    ensures forall i :: 0 <= i < |ms| ==> ms[i].msg.sender in ChatRun(clients, stream, ms + [RecvError(err)]).clients
  {
    RunAfterMessages(clients, stream, ms, [RecvError(err)]);
    JoinAllExtends(clients, stream, ms);
  }

  /** `ds` holds a delivery of `m` to every name of `c` other than the sender whose stream works. */
  predicate DeliveredTo(c: map<string, SinkId>, m: ChatMessage, failing: set<SinkId>, ds: seq<Delivery>)
  {
    forall k :: k in c && k != m.sender && c[k] !in failing ==> Delivery(k, c[k], m) in ds
  }

  /** `d` carries `m` to a name of `c` other than the sender, on the stream registered under it, which works. */
  predicate Eligible(c: map<string, SinkId>, m: ChatMessage, failing: set<SinkId>, d: Delivery)
  {
    d.msg == m && d.client in c && d.sink == c[d.client] && d.client != m.sender && d.sink !in failing
  }

  /**
   * `d` relays one of the first `n` items of a session on `stream` that began
   * with registry `c0`: a message, to a name registered once it was received.
   */
  predicate Relayed(c0: map<string, SinkId>, stream: SinkId, incoming: seq<Recv>, n: nat, failing: nat -> set<SinkId>, d: Delivery)
  {
    exists j :: 0 <= j < n && j < |incoming| && incoming[j].Message? &&
      Eligible(JoinAll(c0, stream, incoming[..j + 1]), incoming[j].msg, failing(j), d)
  }

  /**
   * `b` is one message's fan-out: each delivery is eligible, every eligible
   * name receives, and no name receives twice.
   */
  predicate FanOut(c: map<string, SinkId>, m: ChatMessage, failing: set<SinkId>, b: seq<Delivery>)
  {
    && (forall k :: 0 <= k < |b| ==> Eligible(c, m, failing, b[k]))
    && DeliveredTo(c, m, failing, b)
    && (forall a, k :: 0 <= a < k < |b| ==> b[a].client != b[k].client)
  }

  /** The batches one after the other. */
  function Concat(bs: seq<seq<Delivery>>): seq<Delivery>
    decreases |bs|
  {
    if bs == [] then [] else Concat(bs[..|bs| - 1]) + bs[|bs| - 1]
  }

  /** A delivery is in the concatenation exactly when it is in one of the batches. */
  lemma {:induction false} InConcat(bs: seq<seq<Delivery>>)
    ensures forall d :: d in Concat(bs) <==> exists j :: 0 <= j < |bs| && d in bs[j]
    decreases |bs|
  {
    if bs != [] {
      var p := bs[..|bs| - 1];
      InConcat(p);
      assert forall j :: 0 <= j < |p| ==> p[j] == bs[j];
    }
  }

  /**
   * A session's deliveries, one fan-out per handled message in turn, are
   * each tied to a handled message and the registry once it was received,
   * and reach every name eligible for that message.
   */
  lemma SessionDeliveries(c0: map<string, SinkId>, stream: SinkId, incoming: seq<Recv>, n: nat,
                          failing: nat -> set<SinkId>, bs: seq<seq<Delivery>>)
    requires n <= |incoming| && |bs| == n
    requires forall j :: 0 <= j < n ==>
      incoming[j].Message? &&
      FanOut(JoinAll(c0, stream, incoming[..j + 1]), incoming[j].msg, failing(j), bs[j])
    ensures forall d :: d in Concat(bs) ==> Relayed(c0, stream, incoming, n, failing, d)
    ensures forall j :: 0 <= j < n ==>
      incoming[j].Message? &&
      DeliveredTo(JoinAll(c0, stream, incoming[..j + 1]), incoming[j].msg, failing(j), Concat(bs))
  {
    InConcat(bs);
    forall d | d in Concat(bs) ensures Relayed(c0, stream, incoming, n, failing, d) {
      var j :| 0 <= j < |bs| && d in bs[j];
      var k :| 0 <= k < |bs[j]| && bs[j][k] == d;
    }
  }

  // ---------------------------------------------------------------------
  // The end-of-file branch as the source writes it.
  // ---------------------------------------------------------------------

  /** The message pointer `Recv` returns: a message, or nil (`None`) with every error, end-of-file included. */
  function Received(r: Recv): (m: Option<ChatMessage>)
    ensures m.Some? <==> r.Message?
  {
    if r.Message? then Some(r.msg) else None
  }

  /**
   * The end-of-file branch as written: it deletes `msg.Sender` from the map.
   * `None` stands for the nil-pointer dereference when `msg` is nil.
   */
  function EofCleanupAsWritten(clients: map<string, SinkId>, msg: Option<ChatMessage>): (r: Option<map<string, SinkId>>)
    ensures r.Some? <==> msg.Some?
    ensures r.Some? ==> r.value == Left(clients, msg.value.sender)
  {
    match msg
    case None => None
    case Some(m) => Some(clients - {m.sender})
  }

  /**
   * Every end-of-file reaches the as-written cleanup with a nil message, so
   * it never removes anyone: it dereferences nil instead.
   */
  lemma EofCleanupAsWrittenDereferencesNil(clients: map<string, SinkId>)
    ensures Received(Eof) == None
    ensures EofCleanupAsWritten(clients, Received(Eof)) == None
  {
  }

  // ---------------------------------------------------------------------
  // The server.
  // ---------------------------------------------------------------------

  class ChatServer {
    /** `clients`: sender name to the stream registered under it. */
    var clients: map<string, SinkId>

    /** `NewChatServer`: nobody is registered. */
    constructor ()
      ensures clients == map[]
    {
      clients := map[];
    }

    /** Register `stream` under `sender` unless the name is taken. */
    method Join(sender: string, stream: SinkId)
      modifies this
      ensures clients == Joined(old(clients), sender, stream)
    {
      if sender !in clients {
        clients := clients[sender := stream];
      }
    }

    /** The corrected end-of-file cleanup: delete every name registered to `stream`. */
    method Disconnect(stream: SinkId)
      modifies this
      ensures clients == Departed(old(clients), stream)
    {
      clients := Departed(clients, stream);
    }

    /**
     * Relay `msg` to every registered client except its sender, in the map's
     * (arbitrary) iteration order.  A failed send is logged and skipped, and
     * every other eligible client is still tried.  `clients` is only read.
     */
    method Broadcast(msg: ChatMessage, failing: set<SinkId>) returns (deliveries: seq<Delivery>, failed: set<string>)
      ensures forall i :: 0 <= i < |deliveries| ==>
        && deliveries[i].msg == msg
        && deliveries[i].client in clients
        && deliveries[i].sink == clients[deliveries[i].client]
        && deliveries[i].client != msg.sender
        && deliveries[i].sink !in failing
      ensures forall k :: k in clients && k != msg.sender && clients[k] !in failing ==>
        Delivery(k, clients[k], msg) in deliveries
      ensures forall i, j :: 0 <= i < j < |deliveries| ==> deliveries[i].client != deliveries[j].client
      ensures failed == set k | k in clients && k != msg.sender && clients[k] in failing
    {
      var pending := clients.Keys;
      deliveries, failed := [], {};
      while pending != {}
        invariant pending <= clients.Keys
        invariant forall i :: 0 <= i < |deliveries| ==>
          && deliveries[i].msg == msg
          && deliveries[i].client in clients
          && deliveries[i].client !in pending
          && deliveries[i].sink == clients[deliveries[i].client]
          && deliveries[i].client != msg.sender
          && deliveries[i].sink !in failing
        invariant forall k :: k in clients && k !in pending && k != msg.sender && clients[k] !in failing ==>
          Delivery(k, clients[k], msg) in deliveries
        invariant forall i, j :: 0 <= i < j < |deliveries| ==> deliveries[i].client != deliveries[j].client
        invariant failed == set k | k in clients && k !in pending && k != msg.sender && clients[k] in failing
        decreases pending
      {
        var k :| k in pending;
        if k != msg.sender {
          if clients[k] in failing {
            failed := failed + {k};
          } else {
            deliveries := deliveries + [Delivery(k, clients[k], msg)];
          }
        }
        pending := pending - {k};
      }
    }

    /**
     * One client session over the results of its successive `Recv` calls:
     * each message registers its sender (if the name is free) and is relayed
     * to the others; end-of-file removes the names registered to this stream
     * and ends the session cleanly; any other receive error ends it with that
     * error and removes nobody.  `received` counts the messages handled;
     * `failing(j)` is the set of streams whose `Send` fails while message `j`
     * is relayed.  Message `j`'s fan-out, `batches[j]`, is complete before
     * message `j + 1` is received.
     */
    method ChatStream(stream: SinkId, incoming: seq<Recv>, failing: nat -> set<SinkId>)
      returns (result: StreamResult, deliveries: seq<Delivery>, ghost received: nat, ghost batches: seq<seq<Delivery>>)
      modifies this
      ensures Outcome(clients, result) == ChatRun(old(clients), stream, incoming)
      ensures received <= |incoming| && AllMessages(incoming[..received])
      ensures received < |incoming| ==> !incoming[received].Message?
      ensures |batches| == received && deliveries == Concat(batches)
      ensures forall j :: 0 <= j < received ==>
        incoming[j].Message? &&
        FanOut(JoinAll(old(clients), stream, incoming[..j + 1]), incoming[j].msg, failing(j), batches[j])
      ensures forall d :: d in deliveries ==> Relayed(old(clients), stream, incoming, received, failing, d)
      ensures forall j :: 0 <= j < received ==>
        incoming[j].Message? &&
        DeliveredTo(JoinAll(old(clients), stream, incoming[..j + 1]), incoming[j].msg, failing(j), deliveries)
    {
      var i := 0;
      result, deliveries, batches := Open, [], [];
      while i < |incoming|
        invariant 0 <= i <= |incoming|
        invariant AllMessages(incoming[..i])
        invariant clients == JoinAll(old(clients), stream, incoming[..i])
        invariant ChatRun(old(clients), stream, incoming) == ChatRun(clients, stream, incoming[i..])
        invariant result == Open
        invariant |batches| == i && deliveries == Concat(batches)
        invariant forall j :: 0 <= j < i ==>
          incoming[j].Message? &&
          FanOut(JoinAll(old(clients), stream, incoming[..j + 1]), incoming[j].msg, failing(j), batches[j])
      {
        assert incoming[i..][1..] == incoming[i + 1..];
        if !incoming[i].Message? {
          if incoming[i].Eof? {
            Disconnect(stream);
            result := Closed;
          } else {
            result := Failed(incoming[i].err);
          }
          break;
        }
        var m := incoming[i].msg;
        assert incoming[..i + 1] == incoming[..i] + [Message(m)];
        assert incoming[..i + 1][..i] == incoming[..i];
        Join(m.sender, stream);
        var sent, _ := Broadcast(m, failing(i));
        assert FanOut(clients, m, failing(i), sent);
        assert (batches + [sent])[..i] == batches;
        deliveries, batches := deliveries + sent, batches + [sent];
        i := i + 1;
      }
      received := i;
      SessionDeliveries(old(clients), stream, incoming, received, failing, batches);
      if i == |incoming| {
        assert incoming[i..] == [];
      }
    }
  }
}
