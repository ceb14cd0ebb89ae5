/** What the counters of the status-table store count. */
module Counters {
  import opened Naming
  import opened Messages
  import opened SqlMachine
  import A = AckBuffer

  /** What one call adds to the counters of queue `q`: rows removed by acknowledgements and dead
      letters replayed out of it, successful retries, successful dead-letterings. */
  function Counted(s: Stats, db: Db, op: Op, tx: Tx, q: string): Stats {
    match op
    case AckOp(p, _) => if p == q then s.(processed := s.processed + RowsGone(db, tx.db)) else s
    case AckBatchOp(p, _) => if p == q then s.(processed := s.processed + RowsGone(db, tx.db)) else s
    case RetryOp(p, _, _) =>
      if p == q && tx.outcome == Done then s.(errors := s.errors + 1, retries := s.retries + 1) else s
    case DeadLetterOp(p, _, _, _, _) => if p == q && tx.outcome == Done then s.(dead := s.dead + 1) else s
    case ReplayOp(p, _, _) => if Dlq(p) == q && tx.outcome == Done then s.(processed := s.processed + 1) else s
    case _ => s
  }

  function History(indexed: bool, trace: seq<Db>, ops: seq<Op>, n: nat, q: string): Stats
    requires n <= |ops| < |trace|
  {
    if n == 0 then Stats(0, 0, 0, 0)
    else Counted(History(indexed, trace, ops, n - 1, q), trace[n - 1], ops[n - 1], Apply(indexed, trace[n - 1], ops[n - 1]), q)
  }

  function RowsGone(before: Db, after: Db): nat {
    if |after.rows| <= |before.rows| then |before.rows| - |after.rows| else 0
  }

  lemma AckIsBatch(db: Db, q: string, id: Id)
    ensures Ack(db, q, id) == AckBatch(db, q, [id])
  {
    assert Ackable(db, q, [id]) == if Is(db.rows, id, q, Processing) then {id} else {};
  }

  lemma AckCounts(db: Db, q: string, ids: seq<Id>, p: string)
    ensures var db' := AckBatch(db, q, ids);
            StatsOf(db', p)
            == if p == q then StatsOf(db, p).(processed := StatsOf(db, p).processed + RowsGone(db, db')) else StatsOf(db, p)
  {
    A.BatchCountsRemovedRows(db, q, ids);
    hide Ackable;
  }

  lemma StepCounts(indexed: bool, db: Db, op: Op, q: string)
    ensures StatsOf(Apply(indexed, db, op).db, q) == Counted(StatsOf(db, q), db, op, Apply(indexed, db, op), q)
  {
    if op.AckOp? {
      AckIsBatch(db, op.q, op.id);
      AckCounts(db, op.q, [op.id], q);
      hide Ack, AckBatch;
    } else if op.AckBatchOp? {
      AckCounts(db, op.q, op.ids, q);
      hide AckBatch;
    } else {
      hide IsDlq, Dlq, Insert, InsertFirst;
    }
  }

  /** The counters are exactly the history: each counts its own kind of event, in its own queue. */
  lemma {:induction false} CountersCount(indexed: bool, trace: seq<Db>, ops: seq<Op>, i: nat, q: string)
    requires IsRun(indexed, trace, ops) && i < |trace|
    ensures StatsOf(trace[i], q) == History(indexed, trace, ops, i, q)
  {
    hide Apply, Legal, Counted;
    if i > 0 {
      CountersCount(indexed, trace, ops, i - 1, q);
      StepCounts(indexed, trace[i - 1], ops[i - 1], q);
    }
  }
}
