/**
 * Whole-system behaviours of the hub, each one a fixed sequence of atomic
 * steps (session starts and ends, relay events, session loop runs) on a fresh
 * server, proved from the contracts of `EventHub.Server` alone.
 */
module HubScenarios {
  import opened Wrappers
  import opened Events
  import opened EventHub

  /**
   * A subscriber that leaves keeps only what it got while registered; one
   * that joins late sees only events published after it joined.
   */
  method LateJoiner(e1: Item, e2: Item, e3: Item) returns (first: Queue, second: Queue)
    ensures first == [e1]
    ensures second == [e3]
  {
    var s := new Server();
    var s1 := s.Register();
    s.Broadcast(e1);
    s.Deregister(s1);
    s.Broadcast(e2);
    var s2 := s.Register();
    s.Broadcast(e3);
    first, second := s.queues[s1], s.queues[s2];
  }

  /**
   * A full channel drops the event for its own subscriber only: the other
   * subscriber receives it, the full one keeps its backlog unchanged, and
   * exactly one drop is logged.
   */
  method SlowSubscriber(backlog: seq<Item>, e: Item) returns (fast: Queue, slow: Queue, drops: nat)
    requires |backlog| == Cap
    ensures fast == [e]
    ensures slow == backlog
    ensures drops == 1
  {
    var s := new Server();
    var slowId := s.Register();
    s.RelayLoop(backlog);
    assert backlog[..Room([], backlog)] == backlog;
    var fastId := s.Register();
    var before, qs := s.dropped, s.queues;
    assert s.registry == [slowId, fastId];
    assert [slowId, fastId][..1] == [slowId] && [slowId][..0] == [];
    assert FullCount(qs, [slowId]) == 1;
    assert FullCount(qs, [slowId, fastId]) == 1;
    s.Broadcast(e);
    fast, slow, drops := s.queues[fastId], s.queues[slowId], s.dropped - before;
  }

  /**
   * Events relayed to a subscriber that is not draining reach its stream in
   * the order they were published once it drains; beyond `Cap` of them, the
   * later ones are lost.
   */
  method InOrderDelivery(es: seq<Item>) returns (sent: Queue)
    ensures |es| <= Cap ==> sent == es
    ensures |es| > Cap ==> sent == es[..Cap]
  {
    var s := new Server();
    var id := s.Register();
    s.RelayLoop(es);
    var q := s.queues[id];
    var status;
    sent, status := s.Serve(id, None, None, None);
    SessionRunShape(q, None, None, None, 0);
  }

  /**
   * Cancelling the relay subscription closes the relay's channel; each time
   * the subscriber's `select` then takes that channel, a nil is fanned out
   * after the last real event. The real event arrives with its timestamp
   * backfilled.
   */
  method CancelledRelay(e: ChangeEvent, at: int) returns (q: Queue)
    ensures q == [Some(Backfill(e, at)), None, None]
  {
    var s := new Server();
    var id := s.Register();
    var feed := RelayFeed([e], [at], 2);
    s.RelayLoop(feed);
    assert feed[..Room([], feed)] == feed;
    q := s.queues[id];
  }

  /**
   * The session goroutine receives without holding the lock, so the relay's
   * fan-out can run between two of its receives: a session that has taken one
   * event off its full channel makes room for exactly one more, and the next
   * event after that is dropped.
   */
  method ReceiveBetweenBroadcasts(backlog: seq<Item>, e1: Item, e2: Item)
    returns (sent: Queue, q: Queue, drops: nat)
    requires |backlog| == Cap
    ensures sent == backlog[..1]
    ensures q == backlog[1..] + [e1]
    ensures drops == 1
  {
    var s := new Server();
    var id := s.Register();
    s.RelayLoop(backlog);
    assert backlog[..Room([], backlog)] == backlog;
    assert s.queues[id] == backlog && s.registry == [id];
    var status;
    sent, status := s.Serve(id, None, None, Some(1));
    ghost var paused := SessionRun(backlog[1..], None, None, Some(1), 1);
    assert paused == Run([], backlog[1..], Paused);
    assert SessionRun(backlog, None, None, Some(1), 0) == Run([backlog[0]] + paused.sent, paused.rest, paused.status);
    assert sent == backlog[..1] && status == Paused;
    var before, qs := s.dropped, s.queues;
    assert s.registry == [id] && [id][..0] == [];
    assert qs[id] == backlog[1..];
    assert FullCount(qs, [id]) == 0;
    s.Broadcast(e1);
    var qs' := s.queues;
    assert qs'[id] == backlog[1..] + [e1];
    assert FullCount(qs', [id]) == 1;
    s.Broadcast(e2);
    q, drops := s.queues[id], s.dropped - before;
  }
}
