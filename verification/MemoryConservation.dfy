/** Whole runs of the in-process store: each is matched call by call by a run of the status table,
    and the table's balance becomes a balance of slices, in-flight sets and counters. */
module MemoryConservation {
  import opened Naming
  import opened Messages
  import opened SqlMachine
  import opened MemoryRefinement
  import Mem = MemoryStore
  import Conservation

  /** A run of the in-process store on calls it and the table agree on, and the table's run. */
  ghost predicate IsMemRun(mems: seq<Mem.Mem>, dbs: seq<Db>, ops: seq<Op>) {
    && |mems| == |dbs| == |ops| + 1
    && mems[0] == Mem.EMPTY_MEM && dbs[0] == EMPTY_DB
    && forall i :: 0 <= i < |ops| ==> MemStep(mems[i], dbs[i], ops[i], mems[i + 1], dbs[i + 1])
  }

  ghost predicate MemStep(m: Mem.Mem, db: Db, op: Op, m': Mem.Mem, db': Db) {
    Proper(m, db.rows, op) && m' == MemApply(m, op) && db' == Apply(false, db, op).db
  }

  /** Refinement over runs: the stores agree at every moment, and call by call they report the
      same; the table's side is a legal run, so a dequeue claims only due rows. */
  lemma {:induction false} RunsRelated(mems: seq<Mem.Mem>, dbs: seq<Db>, ops: seq<Op>, i: nat)
    requires IsMemRun(mems, dbs, ops) && i < |mems|
    ensures Related(mems[i], dbs[i])
    ensures i < |ops| ==> Legal(dbs[i], ops[i]) && Apply(false, dbs[i], ops[i]).outcome == MemOutcome(mems[i], ops[i])
  {
    hide Apply, MemApply, Proper, Agree, MemOutcome, Legal, ShadowsIdle;
    if i == 0 {
      EmptyRelated();
    } else {
      RunsRelated(mems, dbs, ops, i - 1);
      assert MemStep(mems[i - 1], dbs[i - 1], ops[i - 1], mems[i], dbs[i]);
      StepRelated(mems[i - 1], dbs[i - 1], ops[i - 1]);
    }
    if i < |ops| {
      assert MemStep(mems[i], dbs[i], ops[i], mems[i + 1], dbs[i + 1]);
      StepRelated(mems[i], dbs[i], ops[i]);
    }
  }

  lemma EmptyRelated()
    ensures Related(Mem.EMPTY_MEM, EMPTY_DB)
  {
    hide IsDlq;
  }

  // ----- counting -----

  /** How many messages the first `n` calls accepted into `q`. */
  function Accepted(ops: seq<Op>, n: nat, q: string): nat
    requires n <= |ops|
  {
    if n == 0 then 0
    else Accepted(ops, n - 1, q) + match ops[n - 1]
      case EnqueueOp(p, _, _) => if p == q then 1 else 0
      case EnqueueBatchOp(p, msgs, _) => if p == q then |msgs| else 0
      case _ => 0
  }

  /** The table's run with the insertions counted. */
  ghost function Ledgers(dbs: seq<Db>, ops: seq<Op>, n: nat): (r: seq<Conservation.Ledger>)
    requires n <= |ops| && |dbs| == |ops| + 1
    ensures |r| == n + 1
  {
    if n == 0 then [Conservation.Ledger(dbs[0], map[])]
    else
      var before := Ledgers(dbs, ops, n - 1);
      var l := before[n - 1];
      before + [Conservation.Ledger(dbs[n],
        if ops[n - 1].EnqueueOp? || ops[n - 1].EnqueueBatchOp?
        then l.inserted[ops[n - 1].q := Conservation.InsertedInto(l, ops[n - 1].q) + |dbs[n].rows| - |dbs[n - 1].rows|]
        else l.inserted)]
  }

  lemma {:induction false} BatchGrows(rows: Table, q: string, msgs: seq<Message>, n: nat, now: Time)
    requires n <= |msgs| && InsertFirst(false, rows, q, msgs, n, now).Inserted?
    ensures |InsertFirst(false, rows, q, msgs, n, now).rows| == |rows| + n
  {
    if n > 0 {
      BatchGrows(rows, q, msgs, n - 1, now);
      var before := InsertFirst(false, rows, q, msgs, n - 1, now).rows;
      var x := BatchStamp(msgs[n - 1], n - 1, now);
      assert before[x.id := Row(Stored(q, x, now), InsertStatus(q))] - {x.id} == before;
    }
  }

  lemma ArrivalsGrow(m: Mem.Mem, db: Db, op: Op)
    requires Related(m, db) && Proper(m, db.rows, op) && (op.EnqueueOp? || op.EnqueueBatchOp?)
    ensures |Apply(false, db, op).db.rows| == |db.rows| + if op.EnqueueOp? then 1 else |op.msgs|
  {
    StepRelated(m, db, op);
    hide Agree, IsDlq, Related;
    if op.EnqueueBatchOp? {
      BatchGrows(db.rows, op.q, op.msgs, |op.msgs|, op.now);
    }
  }

  lemma {:induction false} LedgersRun(mems: seq<Mem.Mem>, dbs: seq<Db>, ops: seq<Op>, n: nat, q: string)
    requires IsMemRun(mems, dbs, ops) && n <= |ops|
    ensures var ls := Ledgers(dbs, ops, n);
            && Conservation.IsRun(false, ls, ops[..n])
            && ls[n].db == dbs[n] && Conservation.InsertedInto(ls[n], q) == Accepted(ops, n, q)
  {
    hide Apply, MemApply, Proper, Related, Legal;
    if n > 0 {
      LedgersRun(mems, dbs, ops, n - 1, q);
      RunsRelated(mems, dbs, ops, n - 1);
      assert MemStep(mems[n - 1], dbs[n - 1], ops[n - 1], mems[n], dbs[n]);
      var ls, before := Ledgers(dbs, ops, n), Ledgers(dbs, ops, n - 1);
      if ops[n - 1].EnqueueOp? || ops[n - 1].EnqueueBatchOp? {
        ArrivalsGrow(mems[n - 1], dbs[n - 1], ops[n - 1]);
      }
      forall i | 0 <= i < n ensures Conservation.Next(false, ls[i], ops[i], ls[i + 1]) {
        if i < n - 1 {
          assert ops[..n - 1][i] == ops[i];
          assert Conservation.Next(false, before[i], ops[..n - 1][i], before[i + 1]);
        }
      }
      assert forall i :: 0 <= i < n ==> ops[..n][i] == ops[i];
    }
  }

  /** Distinct ids: as many ids as messages. */
  lemma {:induction false} IdsCount(s: seq<Message>)
    requires Distinct(s)
    ensures |Mem.IdsOf(s)| == |s|
  {
    if s != [] {
      var init, last := s[..|s| - 1], s[|s| - 1];
      assert s == init + [last];
      IdsCount(init);
      assert Mem.IdsOf(s) == Mem.IdsOf(init) + {last.id};
      forall x | x in init ensures x.id != last.id {
        var i :| 0 <= i < |init| && init[i] == x;
      }
    }
  }

  /** The slices and in-flight sets are as long as the table says. */
  lemma SameCounts(m: Mem.Mem, db: Db, p: string)
    requires Agree(m, db, p) && WellKeyed(db.rows)
    ensures |Mem.ListOf(m, p)| == Conservation.Tally(db.rows, p, InsertStatus(p))
    ensures |Mem.InflightOf(m, p)| == Conservation.Tally(db.rows, p, Processing)
    ensures Mem.IdsOf(Mem.ListOf(m, p)) !! Mem.InflightOf(m, p)
  {
    hide IsDlq;
    var waiting := Mem.ListOf(m, p);
    IdsCount(waiting);
    var rows := Conservation.WithStatus(db.rows, p, InsertStatus(p));
    forall id | id in Mem.IdsOf(waiting) ensures id in rows {
      var x :| x in waiting && x.id == id;
      assert Stands(db.rows, p, x);
    }
    assert Mem.IdsOf(waiting) == rows;
    assert Mem.InflightOf(m, p) == Conservation.WithStatus(db.rows, p, Processing);
  }

  /** With user-visible names only, nothing is ever replayed out of a shadow's shadow. */
  lemma {:induction false} NoSecondShadow(mems: seq<Mem.Mem>, dbs: seq<Db>, ops: seq<Op>, i: nat, q: string)
    requires IsMemRun(mems, dbs, ops) && i < |mems|
    requires forall k :: 0 <= k < i ==> !ops[k].ReclaimAllOp? && ValidQueueName(ops[k].q)
    ensures Mem.CountsOf(mems[i], Dlq(Dlq(q))).processed == 0 && Accepted(ops, i, Dlq(q)) == 0
  {
    if i > 0 {
      NoSecondShadow(mems, dbs, ops, i - 1, q);
      var op := ops[i - 1];
      assert MemStep(mems[i - 1], dbs[i - 1], op, mems[i], dbs[i]);
      ShadowNames(q);
      ShadowNames(Dlq(q));
      ShadowNames(op.q);
      DlqDiffers(op.q, Dlq(q));
      hide IsDlq, ValidQueueName, Dlq, Proper, IsMemRun, Find, Mem.NextOut, Apply;
    }
  }

  /** Conservation in the in-process store: over every run on user-visible queues, each message
      accepted into `q` is waiting, in flight, processed, or one dead letter in the shadow queue;
      no id is waiting twice, or both waiting and in flight. */
  lemma MemoryConserves(mems: seq<Mem.Mem>, dbs: seq<Db>, ops: seq<Op>, i: nat, q: string)
    requires IsMemRun(mems, dbs, ops) && i < |mems| && ValidQueueName(q)
    requires forall k :: 0 <= k < i ==> !ops[k].ReclaimAllOp? && ValidQueueName(ops[k].q)
    ensures
      var m := mems[i];
      && Accepted(ops, i, q) == |Mem.ListOf(m, q)| + |Mem.InflightOf(m, q)| + Mem.CountsOf(m, q).processed
                                + |Mem.ListOf(m, Dlq(q))|
      && Distinct(Mem.ListOf(m, q)) && Mem.IdsOf(Mem.ListOf(m, q)) !! Mem.InflightOf(m, q)
  {
    var m, db, dlq := mems[i], dbs[i], Dlq(q);
    ShadowNames(q);
    assert InsertStatus(q) == Pending && InsertStatus(dlq) == Dead;
    RunsRelated(mems, dbs, ops, i);
    NoSecondShadow(mems, dbs, ops, i, q);
    LedgersRun(mems, dbs, ops, i, q);
    LedgersRun(mems, dbs, ops, i, dlq);
    Conservation.QueueConservation(false, Ledgers(dbs, ops, i), ops[..i], i, q);
    hide IsMemRun, ValidQueueName, IsDlq, Dlq, Conservation.IsRun, Conservation.Tally, Accepted, Ledgers, InsertStatus;
    assert Agree(m, db, q) && Agree(m, db, dlq) && Agree(m, db, Dlq(dlq));
    SameCounts(m, db, q);
    SameCounts(m, db, dlq);
    assert Mem.CountsOf(m, Dlq(dlq)) == StatsOf(db, Dlq(dlq));
  }

  /** The class's lookup, which stops at the first match in the slice's own order, finds what
      `MemApply` looks up in arrival order. */
  lemma ReplayIsFind(s: seq<Message>, id: Id, dead: Message)
    requires Distinct(s) && dead in s && dead.id == id
    ensures Find(s, id) == Some(dead)
  {
    FindIs(s, id);
    var x := Find(s, id).value;
    var i :| 0 <= i < |s| && s[i] == x;
    var j :| 0 <= j < |s| && s[j] == dead;
  }

  /** The in-process Retry and DeadLetter do not look at the in-flight set, the table's do: on
      otherwise proper arguments the stores stay in step exactly when the message is in flight. */
  lemma InStepIffInFlight(m: Mem.Mem, db: Db, op: Op)
    requires Related(m, db)
    requires op.RetryOp? || op.DeadLetterOp?
    requires op.msg.createdAt != ZERO_TIME && op.now > 0
    requires op.RetryOp? ==> op.msg.scheduledAt != ZERO_TIME
    requires op.DeadLetterOp? ==> op.newId !in db.rows
    ensures Related(MemApply(m, op), Apply(false, db, op).db) <==> op.msg.id in Mem.InflightOf(m, op.q)
  {
    if op.msg.id in Mem.InflightOf(m, op.q) {
      StepRelated(m, db, op);
    } else {
      assert Agree(m, db, op.q);
      hide IsDlq;
      assert !Is(db.rows, op.msg.id, op.q, Processing);
      assert Apply(false, db, op).db == db;
      assert Mem.CountsOf(MemApply(m, op), op.q) != StatsOf(db, op.q);
      assert !Agree(MemApply(m, op), db, op.q);
    }
  }
}
