/** The broker machine seen from its store: every step is at most one call on the status-table store,
    so what holds in every run of that store holds behind the broker. */
module DeliveryStore {
  import opened Messages
  import opened SqlMachine
  import opened Delivery
  import opened DurableDedupe

  /** The store call an event makes. */
  ghost function CallOf(s: Sys, e: Event): Option<Op>
    requires Enabled(s, e)
  {
    match e
    case Accept(q, msg, now) => Some(EnqueueOp(q, msg, now))
    case Fetch(q, id, _, now) => Some(DequeueOp(q, 1, {id}, now))
    case AckNow(w, up) => if up then Some(AckOp(s.workers[w].queue, s.workers[w].msg.id)) else None
    case FlushOk(i) => Some(AckBatchOp(s.acks.flushing[i].queue, s.acks.flushing[i].ids))
    case GiveUp(w, _, newId, now, up) =>
      if up then Some(DeadLetterOp(s.workers[w].queue, s.workers[w].msg, Some("failed"), newId, now)) else None
    case Resolve(w, n, due, newId, now, up) =>
      var msg := s.workers[w].msg.(attempts := s.workers[w].msg.attempts + 1);
      if !up then None
      else if msg.attempts > n then Some(DeadLetterOp(s.workers[w].queue, msg, Some("failed"), newId, now))
      else Some(RetryOp(s.workers[w].queue, msg.(scheduledAt := due), now))
    case ReplayDead(q, id, now) => Some(ReplayOp(q, id, now))
    case ReclaimQueue(q) => Some(ReclaimOp(q))
    case Crash => Some(ReclaimAllOp)
    case _ => None
  }

  lemma StepIsCall(indexed: bool, s: Sys, e: Event)
    requires Enabled(s, e)
    ensures match CallOf(s, e)
            case None => Step(indexed, s, e).db == s.db
            case Some(op) => Legal(s.db, op) && Step(indexed, s, e).db == Apply(indexed, s.db, op).db
  {
    hide Insert, KeyTaken, Ack, AckBatch, ReclaimAll, Reclaim, DeadLetterMessage, ReplayMessage;
  }

  /** The table behind a broker run is the table of a run of the store alone. */
  lemma {:induction false} RunsAreStoreRuns(indexed: bool, trace: seq<Sys>, events: seq<Event>, i: nat)
    returns (dbs: seq<Db>, ops: seq<Op>)
    requires Delivery.IsRun(indexed, trace, events) && i < |trace|
    ensures SqlMachine.IsRun(indexed, dbs, ops) && dbs[|ops|] == trace[i].db
  {
    if i == 0 {
      dbs, ops := [EMPTY_DB], [];
    } else {
      hide Step, Enabled, Apply, Legal;
      dbs, ops := RunsAreStoreRuns(indexed, trace, events, i - 1);
      StepIsCall(indexed, trace[i - 1], events[i - 1]);
      match CallOf(trace[i - 1], events[i - 1])
      case None =>
      case Some(op) => dbs, ops := dbs + [trace[i].db], ops + [op];
    }
  }

  /** Behind the broker too, a store with the index never holds two live rows for one key. */
  lemma KeysStayUnique(trace: seq<Sys>, events: seq<Event>, i: nat)
    requires Delivery.IsRun(true, trace, events) && i < |trace|
    ensures UniqueKeys(trace[i].db.rows)
  {
    var dbs, ops := RunsAreStoreRuns(true, trace, events, i);
    OneLiveRowPerKey(dbs, ops, |ops|);
  }
}
