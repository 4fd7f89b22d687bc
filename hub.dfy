/**
 * The change-event hub of `Server`: a registry of bounded per-session
 * channels, the drop-on-full fan-out of events coming from the relay, the
 * per-session delivery loop, and the replicator path that only publishes.
 *
 * Every block the source runs under `s.mu` is one atomic method of `Server`;
 * interleavings of goroutines are sequences of calls to these methods.
 */
module EventHub {
  import opened Wrappers
  import opened Events

  /** Capacity of every subscriber channel. */
  const Cap: nat := 100

  /** Identity of one channel value (Go compares channels by identity). */
  type ChanId = nat

  /**
   * What a channel carries: a pointer to an event, `None` for nil.  A receive
   * from a closed channel yields nil.
   */
  type Item = Option<ChangeEvent>

  type Queue = seq<Item>

  predicate NoDup(s: seq<ChanId>)
  {
    forall i, j :: 0 <= i < j < |s| ==> s[i] != s[j]
  }

  // ---------------------------------------------------------------------
  // Registry removal: the first entry equal to the session's channel goes.
  // ---------------------------------------------------------------------

  /** Reference definition: `s` without its first occurrence of `x`. */
  function RemoveFirst(s: seq<ChanId>, x: ChanId): seq<ChanId>
  {
    if s == [] then []
    else if s[0] == x then s[1..]
    else [s[0]] + RemoveFirst(s[1..], x)
  }

  /** Removing an absent channel leaves the registry as it was. */
  lemma {:induction false} RemoveFirstAbsent(s: seq<ChanId>, x: ChanId)
    requires x !in s
    ensures RemoveFirst(s, x) == s
  {
    if s != [] {
      RemoveFirstAbsent(s[1..], x);
    }
  }

  /**
   * When `x` first occurs at `i`, removal splices out exactly position `i`:
   * every other entry stays, in its relative order.
   */
  lemma {:induction false} RemoveFirstAt(s: seq<ChanId>, x: ChanId, i: nat)
    requires i < |s| && s[i] == x && x !in s[..i]
    ensures RemoveFirst(s, x) == s[..i] + s[i + 1..]
  {
    if i > 0 {
      assert s[0] in s[..i];
      assert s[1..][..i - 1] == s[..i][1..];
      RemoveFirstAt(s[1..], x, i - 1);
      assert s[1..][i..] == s[i + 1..];
      assert [s[0]] + s[1..][..i - 1] == s[..i];
    }
  }

  /** Removal from a duplicate-free registry drops `x` entirely and keeps it duplicate-free. */
  lemma {:induction false} RemoveFirstNoDup(s: seq<ChanId>, x: ChanId)
    requires NoDup(s)
    ensures NoDup(RemoveFirst(s, x))
    ensures x !in RemoveFirst(s, x)
    ensures forall y :: y in RemoveFirst(s, x) <==> y in s && y != x
  {
    if s != [] {
      assert NoDup(s[1..]) by {
        forall i, j | 0 <= i < j < |s[1..]| ensures s[1..][i] != s[1..][j] {
          assert s[1..][i] == s[i + 1] && s[1..][j] == s[j + 1];
        }
      }
      assert s[0] !in s[1..] by {
        forall k | 0 <= k < |s[1..]| ensures s[1..][k] != s[0] {
          assert s[1..][k] == s[k + 1];
        }
      }
      RemoveFirstNoDup(s[1..], x);
      if s[0] != x {
        var r := RemoveFirst(s, x);
        assert r == [s[0]] + RemoveFirst(s[1..], x);
        forall i, j | 0 <= i < j < |r| ensures r[i] != r[j] {
          if i == 0 {
            assert r[j] == RemoveFirst(s[1..], x)[j - 1];
          } else {
            assert r[i] == RemoveFirst(s[1..], x)[i - 1];
            assert r[j] == RemoveFirst(s[1..], x)[j - 1];
          }
        }
      }
    }
  }

  // ---------------------------------------------------------------------
  // Non-blocking send and the fan-out over the registry.
  // ---------------------------------------------------------------------

  /** One non-blocking send on a channel of capacity `Cap`: append, or drop when full. */
  function Offer(q: Queue, e: Item): Queue
  {
    if |q| < Cap then q + [e] else q
  }

  /** The queues after one event has been offered, in registry order, to each registered channel. */
  function Fanout(qs: map<ChanId, Queue>, reg: seq<ChanId>, e: Item): map<ChanId, Queue>
    decreases |reg|
  {
    if reg == [] then qs
    else
      var before := Fanout(qs, reg[..|reg| - 1], e);
      var id := reg[|reg| - 1];
      if id in before then before[id := Offer(before[id], e)] else before
  }

  /** How many registered channels are full, i.e. how many drops one fan-out logs. */
  function FullCount(qs: map<ChanId, Queue>, reg: seq<ChanId>): nat
    decreases |reg|
  {
    if reg == [] then 0
    else
      var id := reg[|reg| - 1];
      FullCount(qs, reg[..|reg| - 1]) + (if id in qs && |qs[id]| >= Cap then 1 else 0)
  }

  /**
   * Isolation of the fan-out: each registered channel receives exactly its own
   * `Offer`, decided by its own length only; every other channel is untouched.
   */
  lemma {:induction false} FanoutAt(qs: map<ChanId, Queue>, reg: seq<ChanId>, e: Item, id: ChanId)
    requires NoDup(reg)
    ensures id in Fanout(qs, reg, e) <==> id in qs
    ensures id in qs ==> Fanout(qs, reg, e)[id] == if id in reg then Offer(qs[id], e) else qs[id]
    decreases |reg|
  {
    if reg != [] {
      var p := reg[..|reg| - 1];
      var last := reg[|reg| - 1];
      assert NoDup(p);
      assert last !in p by {
        forall k | 0 <= k < |p| ensures p[k] != last {
          assert p[k] == reg[k];
        }
      }
      assert reg == p + [last];
      FanoutAt(qs, p, e, id);
    }
  }

  /** The number of free places a queue has, capped by the number of events offered. */
  function Room(q: Queue, es: seq<Item>): nat
    requires |q| <= Cap
  {
    if |es| < Cap - |q| then |es| else Cap - |q|
  }

  /** Offering a whole sequence of events, one after the other, to one channel nobody drains. */
  function OfferAll(q: Queue, es: seq<Item>): Queue
    decreases |es|
  {
    if es == [] then q else Offer(OfferAll(q, es[..|es| - 1]), es[|es| - 1])
  }

  /**
   * With no consumer, a channel keeps the earliest events that fit, in the
   * order they were offered, and drops all later ones: at most `Cap` are buffered.
   */
  lemma {:induction false} OfferAllKeepsPrefix(q: Queue, es: seq<Item>)
    requires |q| <= Cap
    ensures OfferAll(q, es) == q + es[..Room(q, es)]
    ensures |OfferAll(q, es)| <= Cap
    decreases |es|
  {
    if es != [] {
      var p := es[..|es| - 1];
      OfferAllKeepsPrefix(q, p);
      assert es == p + [es[|es| - 1]];
      if |p| < Cap - |q| {
        assert p[..Room(q, p)] == p;
        assert es[..Room(q, es)] == es;
      } else {
        assert p[..Room(q, p)] == es[..Room(q, es)];
      }
    }
  }

  /** Drops logged over the whole registry when `es` are offered and nobody drains. */
  function DropsAll(qs: map<ChanId, Queue>, reg: seq<ChanId>, es: seq<Item>): nat
    decreases |reg|
  {
    if reg == [] then 0
    else
      var id := reg[|reg| - 1];
      DropsAll(qs, reg[..|reg| - 1], es) + (if id in qs && |qs[id]| <= Cap then |es| - Room(qs[id], es) else 0)
  }

  /** Offering no event logs no drop. */
  lemma {:induction false} DropsAllNone(qs: map<ChanId, Queue>, reg: seq<ChanId>)
    ensures DropsAll(qs, reg, []) == 0
    decreases |reg|
  {
    if reg != [] {
      DropsAllNone(qs, reg[..|reg| - 1]);
    }
  }

  /**
   * One more event offered to undrained channels logs one drop for each
   * channel that the earlier events already filled.
   */
  lemma {:induction false} DropsAllStep(
    qs0: map<ChanId, Queue>, qs: map<ChanId, Queue>, reg: seq<ChanId>, es: seq<Item>, e: Item)
    requires forall id :: id in reg ==>
      id in qs0 && |qs0[id]| <= Cap && id in qs && qs[id] == OfferAll(qs0[id], es)
    ensures DropsAll(qs0, reg, es + [e]) == DropsAll(qs0, reg, es) + FullCount(qs, reg)
    decreases |reg|
  {
    if reg != [] {
      var p := reg[..|reg| - 1];
      var id := reg[|reg| - 1];
      assert forall x :: x in p ==> x in reg;
      DropsAllStep(qs0, qs, p, es, e);
      OfferAllKeepsPrefix(qs0[id], es);
    }
  }

  /**
   * What the relay subscriber's `select` receives: each event the relay
   * decoded, with its timestamp backfilled at its receipt time; then, once the
   * context is done and the relay has closed its channel, a nil each time
   * `select` takes the closed channel instead of the context.
   */
  function RelayFeed(decoded: seq<ChangeEvent>, receivedAt: seq<int>, nilsAfterCancel: nat): (r: seq<Item>)
    requires |receivedAt| == |decoded|
    ensures |r| == |decoded| + nilsAfterCancel
    ensures forall i :: 0 <= i < |decoded| ==> r[i] == Some(Backfill(decoded[i], receivedAt[i]))
    ensures forall i :: 0 <= i < |decoded| ==> r[i].Some? && r[i].value.timestamp.Some?
    ensures forall i :: |decoded| <= i < |r| ==> r[i] == None
  {
    if nilsAfterCancel > 0 then RelayFeed(decoded, receivedAt, nilsAfterCancel - 1) + [None]
    else if decoded == [] then []
    else
      var n := |decoded| - 1;
      RelayFeed(decoded[..n], receivedAt[..n], 0) + [Some(Backfill(decoded[n], receivedAt[n]))]
  }

  // ---------------------------------------------------------------------
  // The per-session delivery loop.
  // ---------------------------------------------------------------------

  /** How one run of a session loop stopped. */
  datatype Status =
    | Waiting     // its channel is empty and it is blocked in `select`
    | Paused      // descheduled between two iterations; it continues later
    | SendFailed  // the stream rejected a send: the session ends with an error
    | Cancelled   // the stream's context was done: the session ends
  {
    /** The session is over and its deferred cleanup runs. */
    predicate Ends()
    {
      this == SendFailed || this == Cancelled
    }
  }

  datatype Run = Run(sent: Queue, rest: Queue, status: Status)

  /**
   * Reference definition of the session loop from its `i`-th iteration on:
   * `pauseAt` is the iteration before which the goroutine is descheduled, so
   * that other goroutines (the relay's fan-out) run while events remain
   * queued; `cancelAt` is the iteration at which `select` takes the context case,
   * `failAt` the iteration whose send the stream rejects (the event taken off
   * the channel at that iteration is lost).  `sent` is what reaches the
   * stream, `rest` what is left in the channel.
   */
  function SessionRun(q: Queue, failAt: Option<nat>, cancelAt: Option<nat>, pauseAt: Option<nat>, i: nat): Run
    decreases |q|
  {
    if pauseAt == Some(i) then Run([], q, Paused)
    else if cancelAt == Some(i) then Run([], q, Cancelled)
    else if q == [] then Run([], [], Waiting)
    else if failAt == Some(i) then Run([], q[1..], SendFailed)
    else
      var r := SessionRun(q[1..], failAt, cancelAt, pauseAt, i + 1);
      Run([q[0]] + r.sent, r.rest, r.status)
  }

  /**
   * The session hands events to its stream front-first, in enqueue order: what
   * was queued is exactly what was sent, then the one event lost on a failed
   * send, then what is left; and each way of stopping happens only for its cause.
   */
  lemma {:induction false} SessionRunShape(q: Queue, failAt: Option<nat>, cancelAt: Option<nat>, pauseAt: Option<nat>, i: nat)
    ensures var r := SessionRun(q, failAt, cancelAt, pauseAt, i);
      && (r.status == SendFailed ==>
            |r.sent| < |q| && failAt == Some(i + |r.sent|) && q == r.sent + [q[|r.sent|]] + r.rest)
      && (r.status != SendFailed ==> q == r.sent + r.rest)
      && (r.status == Waiting ==> r.sent == q && r.rest == [])
      && (r.status == Cancelled ==> cancelAt == Some(i + |r.sent|))
      && (r.status == Paused ==> pauseAt == Some(i + |r.sent|))
      && (cancelAt.None? && failAt.None? && pauseAt.None? ==> r.status == Waiting)
    decreases |q|
  {
    var r := SessionRun(q, failAt, cancelAt, pauseAt, i);
    if pauseAt == Some(i) || cancelAt == Some(i) || q == [] {
    } else if failAt == Some(i) {
      assert q == [q[0]] + q[1..];
    } else {
      var r' := SessionRun(q[1..], failAt, cancelAt, pauseAt, i + 1);
      SessionRunShape(q[1..], failAt, cancelAt, pauseAt, i + 1);
      assert r.sent == [q[0]] + r'.sent;
      if r'.status == SendFailed {
        assert q[|r.sent|] == q[1..][|r'.sent|];
      }
      assert q == [q[0]] + q[1..];
    }
  }

  /** `r` with `sent` already handed to the stream before it. */
  function After(sent: Queue, r: Run): Run
  {
    Run(sent + r.sent, r.rest, r.status)
  }

  /** One iteration that takes an event off the channel and sends it. */
  lemma SessionRunStep(q: Queue, failAt: Option<nat>, cancelAt: Option<nat>, pauseAt: Option<nat>, i: nat, sent: Queue)
    requires q != [] && pauseAt != Some(i) && cancelAt != Some(i) && failAt != Some(i)
    ensures After(sent, SessionRun(q, failAt, cancelAt, pauseAt, i)) ==
      After(sent + [q[0]], SessionRun(q[1..], failAt, cancelAt, pauseAt, i + 1))
  {
    var r := SessionRun(q[1..], failAt, cancelAt, pauseAt, i + 1);
    assert sent + ([q[0]] + r.sent) == (sent + [q[0]]) + r.sent;
  }

  // ---------------------------------------------------------------------
  // The server.
  // ---------------------------------------------------------------------

  /**
   * The session goroutine's `for`/`select` loop over a snapshot of its
   * channel: before iteration `i` it is descheduled when `pauseAt` is
   * `Some(i)`; iteration `i` takes the context case when `cancelAt` is `Some(i)`,
   * otherwise takes the front event and sends it, failing when `failAt` is
   * `Some(i)`.  It blocks when the channel is empty.
   */
  method Drain(q0: Queue, failAt: Option<nat>, cancelAt: Option<nat>, pauseAt: Option<nat>)
    returns (sent: Queue, rest: Queue, status: Status)
    ensures Run(sent, rest, status) == SessionRun(q0, failAt, cancelAt, pauseAt, 0)
    ensures |rest| <= |q0|
  {
    var q := q0;
    sent := [];
    var i: nat := 0;
    while true
      invariant |q| <= |q0|
      invariant SessionRun(q0, failAt, cancelAt, pauseAt, 0) == After(sent, SessionRun(q, failAt, cancelAt, pauseAt, i))
      decreases |q|
    {
      if pauseAt == Some(i) {
        status := Paused;
        break;
      }
      if cancelAt == Some(i) {
        status := Cancelled;
        break;
      }
      if q == [] {
        status := Waiting;
        break;
      }
      var event := q[0];
      if failAt == Some(i) {
        q := q[1..];
        status := SendFailed;
        break;
      }
      SessionRunStep(q, failAt, cancelAt, pauseAt, i, sent);
      q := q[1..];
      sent := sent + [event];
      i := i + 1;
    }
    rest := q;
  }

  class Server {
    /** `eventChannels`: the registered channels, in registration order. */
    var registry: seq<ChanId>
    /** The buffered contents of every channel ever made (registered or not). */
    var queues: map<ChanId, Queue>
    /** Channels that have been closed. */
    var closed: set<ChanId>
    /** Identity the next `make(chan ...)` yields. */
    var nextId: ChanId
    /** Every event handed to the relay's `PublishEvent`, in order. */
    var published: seq<ChangeEvent>
    /** Number of "channel is full, dropping event" warnings logged. */
    var dropped: nat

    ghost predicate Valid()
      reads this
    {
      && NoDup(registry)
      && (forall id :: id in registry ==> id in queues && id !in closed)
      && (forall id :: id in closed ==> id in queues)
      && (forall id :: id in queues ==> id < nextId && |queues[id]| <= Cap)
    }

    /** `NewServer`: no channel is registered yet. */
    constructor ()
      ensures Valid()
      ensures registry == [] && queues == map[] && closed == {}
      ensures published == [] && dropped == 0
    {
      registry, queues, closed := [], map[], {};
      nextId, published, dropped := 0, [], 0;
    }

    /**
     * Session start: make a fresh empty channel and append it to the
     * registry.  Nothing else in the registry or in any channel changes.
     */
    method Register() returns (id: ChanId)
      requires Valid()
      modifies this
      ensures Valid()
      ensures id !in old(queues) && id !in old(registry)
      ensures registry == old(registry) + [id]
      ensures queues == old(queues)[id := []]
      ensures closed == old(closed) && published == old(published) && dropped == old(dropped)
    {
      id := nextId;
      assert id !in registry by {
        forall k | 0 <= k < |registry| ensures registry[k] != id {
          assert registry[k] in queues;
        }
      }
      nextId := nextId + 1;
      queues := queues[id := []];
      registry := registry + [id];
    }

    /**
     * The session's deferred cleanup: remove the first registry entry that is
     * this channel (if any), then close the channel.  The channel is closed
     * only once it is out of the registry.
     */
    method Deregister(id: ChanId)
      requires Valid()
      requires id in queues && id !in closed
      modifies this
      ensures Valid()
      ensures registry == RemoveFirst(old(registry), id)
      ensures id !in registry
      ensures forall other :: other in registry <==> other in old(registry) && other != id
      ensures closed == old(closed) + {id}
      ensures queues == old(queues) && published == old(published) && dropped == old(dropped)
    {
      var i := 0;
      while i < |registry|
        invariant 0 <= i <= |registry|
        invariant registry == old(registry) && closed == old(closed)
        invariant id !in registry[..i]
        invariant queues == old(queues) && published == old(published) && dropped == old(dropped)
        invariant nextId == old(nextId)
      {
        if registry[i] == id {
          RemoveFirstAt(registry, id, i);
          registry := registry[..i] + registry[i + 1..];
          break;
        }
        assert registry[..i + 1] == registry[..i] + [registry[i]];
        i := i + 1;
      }
      if i == |old(registry)| {
        assert registry[..i] == registry;
        RemoveFirstAbsent(registry, id);
      }
      RemoveFirstNoDup(old(registry), id);
      closed := closed + {id};
    }

    /**
     * One event from the relay, under the read lock: a non-blocking send to
     * every registered channel in registry order.  A full channel keeps its
     * contents and one drop is logged; no other channel is affected.  The
     * registry, the closed channels and the publish log do not change.
     */
    method Broadcast(e: Item)
      requires Valid()
      modifies this
      ensures Valid()
      ensures registry == old(registry) && closed == old(closed) && nextId == old(nextId)
      ensures published == old(published)
      ensures queues == Fanout(old(queues), registry, e)
      ensures queues.Keys == old(queues).Keys
      ensures forall id :: id in registry ==> queues[id] == Offer(old(queues)[id], e)
      ensures forall id :: id in queues && id !in registry ==> queues[id] == old(queues)[id]
      ensures dropped == old(dropped) + FullCount(old(queues), registry)
    {
      var i := 0;
      while i < |registry|
        invariant 0 <= i <= |registry|
        invariant registry == old(registry) && closed == old(closed) && nextId == old(nextId)
        invariant published == old(published)
        invariant queues == Fanout(old(queues), registry[..i], e)
        invariant dropped == old(dropped) + FullCount(old(queues), registry[..i])
      {
        var id := registry[i];
        assert registry[..i + 1][..i] == registry[..i];
        assert NoDup(registry[..i]) && id !in registry[..i] by {
          forall a, b | 0 <= a < b < i ensures registry[..i][a] != registry[..i][b] {
          }
          forall k | 0 <= k < i ensures registry[..i][k] != id {
          }
        }
        FanoutAt(old(queues), registry[..i], e, id);
        if |queues[id]| < Cap {
          queues := queues[id := queues[id] + [e]];
        } else {
          dropped := dropped + 1;
        }
        i := i + 1;
      }
      assert registry[..i] == registry;
      forall id | id in old(queues)
        ensures id in queues
        ensures queues[id] == if id in registry then Offer(old(queues)[id], e) else old(queues)[id]
      {
        FanoutAt(old(queues), registry, e, id);
      }
      forall id | id in queues ensures id in old(queues) {
        FanoutAt(old(queues), registry, e, id);
      }
    }

    /**
     * The session goroutine's `for`/`select` loop over its own channel, run
     * until it blocks, is descheduled or ends.  Events leave the channel
     * front-first and reach the stream in enqueue order; if the loop ends (send
     * error or cancellation) the deferred deregistration runs.  Calls on the
     * same channel, with `Broadcast` calls between them, continue one session.
     */
    method Serve(id: ChanId, failAt: Option<nat>, cancelAt: Option<nat>, pauseAt: Option<nat>)
      returns (sent: Queue, status: Status)
      requires Valid()
      requires id in registry
      modifies this
      ensures Valid()
      ensures var r := SessionRun(old(queues)[id], failAt, cancelAt, pauseAt, 0);
        sent == r.sent && status == r.status && queues == old(queues)[id := r.rest]
      ensures !status.Ends() ==> registry == old(registry) && closed == old(closed)
      ensures status.Ends() ==>
        registry == RemoveFirst(old(registry), id) && id !in registry && closed == old(closed) + {id}
      ensures published == old(published) && dropped == old(dropped)
    {
      var q;
      sent, q, status := Drain(queues[id], failAt, cancelAt, pauseAt);
      queues := queues[id := q];
      if status.Ends() {
        Deregister(id);
      }
    }

    /**
     * The relay subscriber goroutine: every event received from the relay
     * (until its context is cancelled) is fanned out to the local channels and
     * never handed back to `PublishEvent`.  With nobody draining meanwhile,
     * each registered channel gains the earliest events that fit.
     */
    method RelayLoop(incoming: seq<Item>)
      requires Valid()
      modifies this
      ensures Valid()
      ensures registry == old(registry) && closed == old(closed) && published == old(published)
      ensures queues.Keys == old(queues).Keys
      ensures forall id :: id in registry ==>
        queues[id] == old(queues)[id] + incoming[..Room(old(queues)[id], incoming)]
      ensures forall id :: id in queues && id !in registry ==> queues[id] == old(queues)[id]
      ensures dropped == old(dropped) + DropsAll(old(queues), registry, incoming)
    {
      DropsAllNone(queues, registry);
      var j := 0;
      while j < |incoming|
        invariant 0 <= j <= |incoming|
        invariant Valid()
        invariant registry == old(registry) && closed == old(closed) && published == old(published)
        invariant queues.Keys == old(queues).Keys
        invariant forall id :: id in registry ==> queues[id] == OfferAll(old(queues)[id], incoming[..j])
        invariant forall id :: id in queues && id !in registry ==> queues[id] == old(queues)[id]
        invariant dropped == old(dropped) + DropsAll(old(queues), registry, incoming[..j])
      {
        assert incoming[..j + 1] == incoming[..j] + [incoming[j]];
        DropsAllStep(old(queues), queues, registry, incoming[..j], incoming[j]);
        Broadcast(incoming[j]);
        j := j + 1;
      }
      assert incoming[..j] == incoming;
      forall id | id in registry
        ensures queues[id] == old(queues)[id] + incoming[..Room(old(queues)[id], incoming)]
      {
        OfferAllKeepsPrefix(old(queues)[id], incoming);
      }
    }

    /**
     * The replicator goroutine: every change captured locally (until its
     * context is cancelled) is handed to `PublishEvent`, whose failure is only
     * logged; it never touches the local channels.
     */
    method ReplicatorLoop(incoming: seq<ChangeEvent>)
      requires Valid()
      modifies this
      ensures Valid()
      ensures published == old(published) + incoming
      ensures registry == old(registry) && queues == old(queues) && closed == old(closed)
      ensures dropped == old(dropped)
    {
      var j := 0;
      while j < |incoming|
        invariant 0 <= j <= |incoming|
        invariant published == old(published) + incoming[..j]
        invariant registry == old(registry) && queues == old(queues) && closed == old(closed)
        invariant dropped == old(dropped) && nextId == old(nextId)
      {
        assert incoming[..j + 1] == incoming[..j] + [incoming[j]];
        published := published + [incoming[j]];
        j := j + 1;
      }
      assert incoming[..j] == incoming;
    }
  }
}
