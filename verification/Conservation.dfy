/** Conservation on the status table: over every run of arbitrary, stale or repeated store calls,
    with a reclaim at any time, every inserted message is accounted for in every queue. */
module Conservation {
  import opened Naming
  import opened Messages
  import opened SqlMachine

  function WithStatus(rows: Table, p: string, st: Status): set<Id> {
    set id | id in rows && Is(rows, id, p, st)
  }

  /** How many rows of queue `p` have status `st`. */
  function Tally(rows: Table, p: string, st: Status): nat {
    |WithStatus(rows, p, st)|
  }

  /** The store together with how many rows each queue has received from outside, that is by
      Enqueue or EnqueueBatch. */
  datatype Ledger = Ledger(db: Db, inserted: map<string, int>)

  function InsertedInto(l: Ledger, q: string): int {
    if q in l.inserted then l.inserted[q] else 0
  }

  ghost predicate Next(indexed: bool, l: Ledger, op: Op, l': Ledger) {
    && Legal(l.db, op)
    && l'.db == Apply(indexed, l.db, op).db
    && l'.inserted ==
       if op.EnqueueOp? || op.EnqueueBatchOp?
       then l.inserted[op.q := InsertedInto(l, op.q) + |l'.db.rows| - |l.db.rows|]
       else l.inserted
  }

  ghost predicate IsRun(indexed: bool, trace: seq<Ledger>, ops: seq<Op>) {
    && |trace| == |ops| + 1
    && trace[0] == Ledger(EMPTY_DB, map[])
    && forall i :: 0 <= i < |ops| ==> Next(indexed, trace[i], ops[i], trace[i + 1])
  }

  /** Dead letters written into the shadow queue `p` by DeadLetter. */
  function DeadInto(db: Db, p: string): nat {
    if IsDlq(p) then StatsOf(db, Source(p)).dead else 0
  }

  /** Everything that ever entered `p` (inserted, replayed, dead-lettered) is a row of `p` or was
      processed out of it; a shadow queue holds only dead rows; elsewhere the dead rows are
      exactly the dead-lettered ones. */
  ghost predicate BalancedAt(l: Ledger, p: string) {
    var rows := l.db.rows;
    && Tally(rows, p, Pending) + Tally(rows, p, Processing) + Tally(rows, p, Dead) + StatsOf(l.db, p).processed
       == InsertedInto(l, p) + StatsOf(l.db, Dlq(p)).processed + DeadInto(l.db, p)
    && (IsDlq(p) ==> Tally(rows, p, Pending) == 0 == Tally(rows, p, Processing) && StatsOf(l.db, p).dead == 0)
    && (!IsDlq(p) ==> Tally(rows, p, Dead) == StatsOf(l.db, p).dead)
  }

  ghost predicate Balanced(l: Ledger) {
    && WellKeyed(l.db.rows)
    && forall p :: BalancedAt(l, p)
  }

  // ----- one row at a time -----

  function One(row: Row, p: string, st: Status): nat {
    if row.msg.queue == p && row.status == st then 1 else 0
  }

  lemma Adding(rows: Table, id: Id, row: Row, p: string, st: Status)
    requires id !in rows
    ensures Tally(rows[id := row], p, st) == Tally(rows, p, st) + One(row, p, st)
  {
    var rows' := rows[id := row];
    var before, after := WithStatus(rows, p, st), WithStatus(rows', p, st);
    var mine := if One(row, p, st) == 1 then {id} else {};
    forall x ensures x in after <==> x in before + mine {
      if x != id {
        assert x in rows' <==> x in rows;
      }
    }
    assert after == before + mine && before !! mine;
  }

  lemma AddingAll(rows: Table, id: Id, row: Row, p: string)
    requires id !in rows
    ensures forall st :: Tally(rows[id := row], p, st) == Tally(rows, p, st) + One(row, p, st)
  {
    hide *;
    forall st ensures Tally(rows[id := row], p, st) == Tally(rows, p, st) + One(row, p, st) {
      Adding(rows, id, row, p, st);
    }
  }

  lemma Removing(rows: Table, id: Id, p: string)
    requires id in rows
    ensures forall st :: Tally(rows, p, st) == Tally(rows - {id}, p, st) + One(rows[id], p, st)
  {
    hide *;
    AddingAll(rows - {id}, id, rows[id], p);
    assert (rows - {id})[id := rows[id]] == rows;
  }

  lemma Changing(rows: Table, id: Id, row: Row, p: string)
    requires id in rows
    ensures forall st :: Tally(rows[id := row], p, st) + One(rows[id], p, st) == Tally(rows, p, st) + One(row, p, st)
  {
    hide *;
    Removing(rows, id, p);
    AddingAll(rows - {id}, id, row, p);
    assert (rows - {id})[id := row] == rows[id := row];
  }

  lemma Present(rows: Table, id: Id)
    requires id in rows
    ensures Tally(rows, rows[id].msg.queue, rows[id].status) > 0
  {
    Removing(rows, id, rows[id].msg.queue);
  }

  // ----- each kind of call keeps the balance -----

  lemma InsertFirstTally(indexed: bool, rows: Table, q: string, msgs: seq<Message>, n: nat, now: Time, p: string)
    requires n <= |msgs|
    requires InsertFirst(indexed, rows, q, msgs, n, now).Inserted?
    ensures var rows' := InsertFirst(indexed, rows, q, msgs, n, now).rows;
            forall st :: Tally(rows', p, st) == Tally(rows, p, st)
              + if p == q && st == InsertStatus(q) then |rows'| - |rows| else 0
  {
    hide Tally, WithStatus, IsDlq, InsertStatus, BatchStamp, KeyTaken;
    if n > 0 {
      InsertFirstTally(indexed, rows, q, msgs, n - 1, now, p);
      var before := InsertFirst(indexed, rows, q, msgs, n - 1, now).rows;
      var msg := BatchStamp(msgs[n - 1], n - 1, now);
      if Insert(indexed, before, q, msg, now).Inserted? {
        AddingAll(before, msg.id, Row(Stored(q, msg, now), InsertStatus(q)), p);
      }
    }
  }

  /** `k` new rows in one queue, all with the status an insert gives them there. */
  lemma ArrivalKeeps(l: Ledger, l': Ledger, q: string, k: int, p: string)
    requires BalancedAt(l, p)
    requires l'.db.stats == l.db.stats && l'.inserted == l.inserted[q := InsertedInto(l, q) + k]
    requires forall st :: Tally(l'.db.rows, p, st) == Tally(l.db.rows, p, st)
                          + if p == q && st == InsertStatus(q) then k else 0
    ensures BalancedAt(l', p)
  {
    hide Tally, IsDlq, Source, Dlq;
  }

  lemma EnqueueKeeps(indexed: bool, l: Ledger, op: Op, l': Ledger, p: string)
    requires op.EnqueueOp?
    requires BalancedAt(l, p) && Next(indexed, l, op, l')
    ensures BalancedAt(l', p)
  {
    hide Tally, BalancedAt, IsDlq;
    var rows := l.db.rows;
    if Insert(indexed, rows, op.q, op.msg, op.now).Inserted? {
      AddingAll(rows, op.msg.id, Row(Stored(op.q, op.msg, op.now), InsertStatus(op.q)), p);
    }
    ArrivalKeeps(l, l', op.q, |l'.db.rows| - |rows|, p);
  }

  lemma EnqueueBatchKeeps(indexed: bool, l: Ledger, op: Op, l': Ledger, p: string)
    requires op.EnqueueBatchOp?
    requires BalancedAt(l, p) && Next(indexed, l, op, l')
    ensures BalancedAt(l', p)
  {
    hide Tally, BalancedAt, InsertFirst;
    var rows := l.db.rows;
    if Apply(indexed, l.db, op).outcome.Done? {
      InsertFirstTally(indexed, rows, op.q, op.msgs, |op.msgs|, op.now, p);
    }
    ArrivalKeeps(l, l', op.q, |l'.db.rows| - |rows|, p);
  }

  /** Rows move between pending and claimed and change in no other way. */
  ghost predicate Reclaimed(rows: Table, rows': Table) {
    && rows'.Keys == rows.Keys
    && forall id :: id in rows ==> rows'[id].msg == rows[id].msg && (rows'[id].status == Dead <==> rows[id].status == Dead)
  }

  lemma ReclaimedTally(rows: Table, rows': Table, p: string)
    requires Reclaimed(rows, rows')
    ensures Tally(rows, p, Pending) + Tally(rows, p, Processing) == Tally(rows', p, Pending) + Tally(rows', p, Processing)
    ensures Tally(rows, p, Dead) == Tally(rows', p, Dead)
    decreases |rows|
  {
    hide Tally;
    if rows == map[] {
      assert rows' == map[];
    } else {
      var id :| id in rows;
      ReclaimedTally(rows - {id}, rows' - {id}, p);
      Removing(rows, id, p);
      Removing(rows', id, p);
    }
  }

  lemma ClaimKeeps(indexed: bool, l: Ledger, op: Op, l': Ledger, p: string)
    requires op.DequeueOp? || op.ReclaimOp? || op.ReclaimAllOp?
    requires BalancedAt(l, p) && Next(indexed, l, op, l')
    ensures BalancedAt(l', p)
  {
    hide Tally, WithStatus, IsDlq, Source, Dlq;
    assert Reclaimed(l.db.rows, l'.db.rows);
    ReclaimedTally(l.db.rows, l'.db.rows, p);
  }

  lemma Acking(rows: Table, gone: set<Id>, q: string, p: string)
    requires forall id :: id in gone ==> Is(rows, id, q, Processing)
    ensures forall st :: Tally(rows, p, st)
                         == Tally(rows - gone, p, st) + if p == q && st == Processing then |gone| else 0
    decreases |gone|
  {
    if gone == {} {
      assert rows - gone == rows;
    } else {
      hide Tally, WithStatus;
      var id :| id in gone;
      Removing(rows, id, p);
      Acking(rows - {id}, gone - {id}, q, p);
      assert rows - {id} - (gone - {id}) == rows - gone;
    }
  }

  lemma AckKeeps(indexed: bool, l: Ledger, op: Op, l': Ledger, p: string)
    requires op.AckOp? || op.AckBatchOp?
    requires BalancedAt(l, p) && BalancedAt(l, op.q) && Next(indexed, l, op, l')
    ensures BalancedAt(l', p)
  {
    hide Tally, WithStatus, IsDlq, Source, Dlq;
    var ids := if op.AckOp? then [op.id] else op.ids;
    var gone := Ackable(l.db, op.q, ids);
    if op.AckOp? {
      assert gone == if Is(l.db.rows, op.id, op.q, Processing) then {op.id} else {};
    }
    assert l'.db == AckBatch(l.db, op.q, ids);
    if gone != {} {
      Acking(l.db.rows, gone, op.q, p);
      AckedIsNoShadow(l, op.q, gone, p);
    }
  }

  /** Only claimed rows are acknowledged, so the queue is not a shadow queue. */
  lemma AckedIsNoShadow(l: Ledger, q: string, gone: set<Id>, p: string)
    requires BalancedAt(l, q) && gone != {}
    requires forall id :: id in gone ==> Is(l.db.rows, id, q, Processing)
    ensures !IsDlq(q) && Dlq(p) != q && p != Dlq(p)
  {
    hide Tally, WithStatus, IsDlq, Source, Dlq;
    var id :| id in gone;
    Present(l.db.rows, id);
    ShadowNames(p);
  }

  lemma RetryKeeps(indexed: bool, l: Ledger, op: Op, l': Ledger, p: string)
    requires op.RetryOp?
    requires BalancedAt(l, p) && BalancedAt(l, op.q) && Next(indexed, l, op, l')
    ensures BalancedAt(l', p)
  {
    hide Tally, WithStatus, IsDlq, Source, Dlq;
    if Apply(indexed, l.db, op).outcome.Done? {
      var rows, id := l.db.rows, op.msg.id;
      AckedIsNoShadow(l, op.q, {id}, p);
      var row := Row(Stored(op.q, op.msg, op.now), InsertStatus(op.q));
      assert rows[id := row] == (rows - {id})[id := row];
      Changing(rows, id, row, p);
    }
  }

  lemma DeadLetterKeeps(indexed: bool, l: Ledger, op: Op, l': Ledger, p: string)
    requires op.DeadLetterOp?
    requires BalancedAt(l, p) && BalancedAt(l, op.q) && Next(indexed, l, op, l')
    ensures BalancedAt(l', p)
  {
    hide Tally, WithStatus, IsDlq, Source, Dlq;
    if Apply(indexed, l.db, op).outcome.Done? {
      ShadowNames(op.q);
      var rows, id := l.db.rows, op.msg.id;
      var dead := DeadLetterMessage(op.q, op.msg, op.err, op.newId, op.now);
      var letter := Row(Stored(Dlq(op.q), dead, op.now), Dead);
      assert Is(rows[op.newId := letter], id, op.q, Processing) && id != op.newId;
      AckedIsNoShadow(l, op.q, {id}, p);
      AddingAll(rows, op.newId, letter, p);
      Changing(rows[op.newId := letter], id, l'.db.rows[id], p);
      ShadowNames(p);
    }
  }

  lemma ReplayKeeps(indexed: bool, l: Ledger, op: Op, l': Ledger, p: string)
    requires op.ReplayOp? && WellKeyed(l.db.rows)
    requires BalancedAt(l, p) && BalancedAt(l, Dlq(op.q)) && Next(indexed, l, op, l')
    ensures BalancedAt(l', p)
  {
    hide Tally, WithStatus, IsDlq, Source, Dlq;
    if Apply(indexed, l.db, op).outcome.Done? {
      var rows, id := l.db.rows, op.id;
      var row := Row(Stored(op.q, ReplayMessage(op.q, rows[id].msg, op.now), op.now), InsertStatus(op.q));
      assert rows[id := row] == (rows - {id})[id := row];
      Changing(rows, id, row, p);
      ShadowNames(op.q);
      ShadowNames(p);
    }
  }

  lemma StepKeeps(indexed: bool, l: Ledger, op: Op, l': Ledger)
    requires Balanced(l) && Next(indexed, l, op, l')
    ensures Balanced(l')
  {
    hide BalancedAt, Next, Apply;
    assert WellKeyed(l'.db.rows) by {
      StepKeepsKeys(indexed, l, op, l');
    }
    forall p ensures BalancedAt(l', p) {
      StepKeepsAt(indexed, l, op, l', p);
    }
  }

  lemma StepKeepsKeys(indexed: bool, l: Ledger, op: Op, l': Ledger)
    requires WellKeyed(l.db.rows) && Next(indexed, l, op, l')
    ensures WellKeyed(l'.db.rows)
  {
    hide Apply, Legal;
    ApplyKeyed(indexed, l.db, op);
  }

  lemma StepKeepsAt(indexed: bool, l: Ledger, op: Op, l': Ledger, p: string)
    requires Balanced(l) && Next(indexed, l, op, l')
    ensures BalancedAt(l', p)
  {
    hide BalancedAt, Next, Dlq;
    assert BalancedAt(l, p);
    match op
    case EnqueueOp(_, _, _) => EnqueueKeeps(indexed, l, op, l', p);
    case EnqueueBatchOp(_, _, _) => EnqueueBatchKeeps(indexed, l, op, l', p);
    case DequeueOp(_, _, _, _) => ClaimKeeps(indexed, l, op, l', p);
    case AckOp(_, _) => AckKeeps(indexed, l, op, l', p);
    case AckBatchOp(_, _) => AckKeeps(indexed, l, op, l', p);
    case RetryOp(_, _, _) => RetryKeeps(indexed, l, op, l', p);
    case DeadLetterOp(_, _, _, _, _) => DeadLetterKeeps(indexed, l, op, l', p);
    case ReplayOp(_, _, _) => ReplayKeeps(indexed, l, op, l', p);
    case ReclaimOp(_) => ClaimKeeps(indexed, l, op, l', p);
    case ReclaimAllOp => ClaimKeeps(indexed, l, op, l', p);
  }

  /** Conservation over whole runs, for every queue name whatsoever. */
  lemma {:induction false} RunsBalance(indexed: bool, trace: seq<Ledger>, ops: seq<Op>, i: nat)
    requires IsRun(indexed, trace, ops) && i < |trace|
    ensures Balanced(trace[i])
  {
    if i == 0 {
      assert forall p, st :: WithStatus(EMPTY_DB.rows, p, st) == {};
    } else {
      hide BalancedAt, Next;
      RunsBalance(indexed, trace, ops, i - 1);
      StepKeeps(indexed, trace[i - 1], ops[i - 1], trace[i]);
    }
  }

  /** The balance sheet of a user-visible queue: what was inserted or replayed is pending, claimed,
      processed or dead; each dead-lettered message left one dead row behind and is itself still
      in the shadow queue or was replayed; no shadow row is ever pending or claimed. */
  lemma QueueConservation(indexed: bool, trace: seq<Ledger>, ops: seq<Op>, i: nat, q: string)
    requires IsRun(indexed, trace, ops) && i < |trace| && ValidQueueName(q)
    ensures
      var l := trace[i];
      var rows, mine, shadow := l.db.rows, StatsOf(l.db, q), StatsOf(l.db, Dlq(q));
      && InsertedInto(l, q) + shadow.processed
         == Tally(rows, q, Pending) + Tally(rows, q, Processing) + mine.processed + mine.dead
      && Tally(rows, q, Dead) == mine.dead
      && mine.dead + InsertedInto(l, Dlq(q)) + StatsOf(l.db, Dlq(Dlq(q))).processed
         == Tally(rows, Dlq(q), Dead) + shadow.processed
      && Tally(rows, Dlq(q), Pending) == 0 == Tally(rows, Dlq(q), Processing)
  {
    hide Tally, IsRun, Next, IsDlq, Source, Dlq;
    RunsBalance(indexed, trace, ops, i);
    assert BalancedAt(trace[i], q) && BalancedAt(trace[i], Dlq(q));
    ShadowNames(q);
  }

  predicate UserVisible(op: Op) {
    op.ReclaimAllOp? || ValidQueueName(op.q)
  }

  /** A call changes the counters of its own queue and of that queue's shadow only. */
  lemma OtherStats(indexed: bool, db: Db, op: Op, p: string)
    requires !op.ReclaimAllOp? ==> op.q != p && Dlq(op.q) != p
    ensures StatsOf(Apply(indexed, db, op).db, p) == StatsOf(db, p)
  {
    hide IsDlq, Dlq, Insert, InsertFirst, Ackable, InsertStatus;
  }

  lemma UserStep(indexed: bool, l: Ledger, op: Op, l': Ledger, q: string)
    requires Next(indexed, l, op, l') && UserVisible(op)
    ensures InsertedInto(l', Dlq(q)) == InsertedInto(l, Dlq(q))
    ensures StatsOf(l'.db, Dlq(Dlq(q))) == StatsOf(l.db, Dlq(Dlq(q)))
  {
    ShadowNames(q);
    ShadowNames(Dlq(q));
    if !op.ReclaimAllOp? {
      DlqDiffers(op.q, Dlq(q));
    }
    hide IsDlq, ValidQueueName, Dlq, Apply, Legal;
    OtherStats(indexed, l.db, op, Dlq(Dlq(q)));
  }

  lemma {:induction false} NoShadowInserts(indexed: bool, trace: seq<Ledger>, ops: seq<Op>, i: nat, q: string)
    requires IsRun(indexed, trace, ops) && i < |trace|
    requires forall k :: 0 <= k < i ==> UserVisible(ops[k])
    ensures InsertedInto(trace[i], Dlq(q)) == 0 && StatsOf(trace[i].db, Dlq(Dlq(q))).processed == 0
  {
    hide Next, UserVisible, Dlq;
    if i > 0 {
      NoShadowInserts(indexed, trace, ops, i - 1, q);
      UserStep(indexed, trace[i - 1], ops[i - 1], trace[i], q);
    }
  }

  /** The balance sheet of a queue whose callers use valid names only: what was inserted, or replayed,
      is pending, claimed, processed or dead; and the dead rows of the queue, its dead counter, and the
      dead letters still in the shadow queue together with those replayed are one number. */
  lemma UserConservation(indexed: bool, trace: seq<Ledger>, ops: seq<Op>, i: nat, q: string)
    requires IsRun(indexed, trace, ops) && i < |trace| && ValidQueueName(q)
    requires forall k :: 0 <= k < i ==> UserVisible(ops[k])
    ensures
      var l := trace[i];
      var rows, mine, replayed := l.db.rows, StatsOf(l.db, q), StatsOf(l.db, Dlq(q)).processed;
      && InsertedInto(l, q) + replayed
         == Tally(rows, q, Pending) + Tally(rows, q, Processing) + mine.processed + mine.dead
      && Tally(rows, q, Dead) == mine.dead == Tally(rows, Dlq(q), Dead) + replayed
      && Tally(rows, Dlq(q), Pending) == 0 == Tally(rows, Dlq(q), Processing)
  {
    hide Tally, IsRun, UserVisible, ValidQueueName, Dlq;
    QueueConservation(indexed, trace, ops, i, q);
    NoShadowInserts(indexed, trace, ops, i, q);
  }
}
