/**
 * The unit of distribution: one captured data mutation (a `DataChangeEvent`).
 * The hub never inspects an event; it only copies it into queues.  The one
 * normalisation ever applied to an event is the timestamp backfill the relay
 * performs when an event arrives without one.
 */
module Events {
  import opened Wrappers

  datatype Operation = Insert | Update | Delete

  /** Column values are carried as strings; `timestamp` is seconds since the epoch, `None` when unset. */
  datatype ChangeEvent = ChangeEvent(
    operation: Operation,
    table: string,
    data: map<string, string>,
    oldData: map<string, string>,
    timestamp: Option<int>)

  /** Set the timestamp to the receipt time `now` if the event carries none. */
  function Backfill(e: ChangeEvent, now: int): (r: ChangeEvent)
    ensures r.timestamp.Some?
    ensures e.timestamp.Some? ==> r.timestamp == e.timestamp
    ensures e.timestamp.None? ==> r.timestamp == Some(now)
    ensures r.operation == e.operation && r.table == e.table
    ensures r.data == e.data && r.oldData == e.oldData
  {
    if e.timestamp.None? then e.(timestamp := Some(now)) else e
  }

  /** The backfill happens once: a second pass, at any later time, changes nothing. */
  lemma BackfillIdempotent(e: ChangeEvent, now: int, later: int)
    ensures Backfill(Backfill(e, now), later) == Backfill(e, now)
  {
  }
}
