/** Durable deduplication: what the partial unique index of the Postgres store guarantees over
    every run, and what its absence costs in the SQLite store. */
module DurableDedupe {
  import opened Naming
  import opened Messages
  import opened SqlMachine

  /** Two live rows that carry the same non-empty key in the same queue. */
  predicate SameKey(x: Row, y: Row) {
    x.status != Dead && HoldsKey(y, x.msg.queue, x.msg.dedupeKey)
  }

  ghost predicate UniqueKeys(rows: Table) {
    forall a, b :: a in rows && b in rows && SameKey(rows[a], rows[b]) ==> a == b
  }

  lemma InsertUnique(rows: Table, q: string, msg: Message, now: Time)
    requires UniqueKeys(rows)
    ensures var r := Insert(true, rows, q, msg, now); r.Inserted? ==> UniqueKeys(r.rows)
  {
    hide IsDlq;
    var r := Insert(true, rows, q, msg, now);
    if r.Inserted? {
      assert InsertStatus(q) != Dead ==> forall b :: b in rows ==> !HoldsKey(rows[b], q, msg.dedupeKey);
    }
  }

  lemma InsertFirstUnique(rows: Table, q: string, msgs: seq<Message>, n: nat, now: Time)
    requires n <= |msgs| && UniqueKeys(rows)
    ensures var r := InsertFirst(true, rows, q, msgs, n, now); r.Inserted? ==> UniqueKeys(r.rows)
  {
    hide UniqueKeys, Insert, BatchStamp;
    if n > 0 {
      InsertFirstUnique(rows, q, msgs, n - 1, now);
      var before := InsertFirst(true, rows, q, msgs, n - 1, now);
      if before.Inserted? {
        InsertUnique(before.rows, q, BatchStamp(msgs[n - 1], n - 1, now), now);
      }
    }
  }

  /** Removing rows, and changing rows without making a dead one live, keeps keys unique. */
  lemma ShrinkUnique(rows: Table, rows': Table)
    requires UniqueKeys(rows)
    requires forall id :: id in rows' && rows'[id].status != Dead ==>
               id in rows && rows[id].status != Dead && rows'[id].msg == rows[id].msg
    ensures UniqueKeys(rows')
  {
    forall a, b | a in rows' && b in rows' && SameKey(rows'[a], rows'[b]) ensures a == b {
      assert SameKey(rows[a], rows[b]);
    }
  }

  lemma StepUnique(db: Db, op: Op)
    requires UniqueKeys(db.rows) && Legal(db, op)
    ensures UniqueKeys(Apply(true, db, op).db.rows)
  {
    hide UniqueKeys, IsDlq, Stored;
    var rows, rows' := db.rows, Apply(true, db, op).db.rows;
    match op
    case EnqueueOp(q, msg, now) => InsertUnique(rows, q, msg, now);
    case EnqueueBatchOp(q, msgs, now) => InsertFirstUnique(rows, q, msgs, |msgs|, now);
    case RetryOp(q, msg, now) =>
      ShrinkUnique(rows, rows - {msg.id});
      InsertUnique(rows - {msg.id}, q, msg, now);
    case DeadLetterOp(q, msg, err, newId, now) =>
      var dead := DeadLetterMessage(q, msg, err, newId, now);
      InsertUnique(rows, Dlq(q), dead, now);
      var r := Insert(true, rows, Dlq(q), dead, now);
      if r.Inserted? && Is(r.rows, msg.id, q, Processing) {
        ShrinkUnique(r.rows, rows');
      }
    case ReplayOp(q, id, now) =>
      if Is(rows, id, Dlq(q), Dead) {
        ShrinkUnique(rows, rows - {id});
        InsertUnique(rows - {id}, q, ReplayMessage(q, rows[id].msg, now), now);
      }
    case _ => ShrinkUnique(rows, rows');
  }

  /** In every reachable Postgres state at most one pending or processing row carries a given
      non-empty key in a given queue. */
  lemma {:induction false} OneLiveRowPerKey(trace: seq<Db>, ops: seq<Op>, i: nat)
    requires IsRun(true, trace, ops) && i < |trace|
    ensures UniqueKeys(trace[i].rows)
  {
    if i > 0 {
      hide Apply, Legal, UniqueKeys;
      OneLiveRowPerKey(trace, ops, i - 1);
      StepUnique(trace[i - 1], ops[i - 1]);
    }
  }

  /** An accepted or skipped keyed enqueue leaves exactly one live row with that key. */
  lemma EnqueueLeavesOneHolder(db: Db, q: string, msg: Message, now: Time)
    requires UniqueKeys(db.rows) && !IsDlq(q) && msg.dedupeKey != ""
    requires Enqueue(true, db, q, msg, now).outcome != Conflict
    ensures var rows := Enqueue(true, db, q, msg, now).db.rows;
            exists id :: id in rows && HoldsKey(rows[id], q, msg.dedupeKey)
              && forall other :: other in rows && HoldsKey(rows[other], q, msg.dedupeKey) ==> other == id
  {
    hide IsDlq;
    InsertUnique(db.rows, q, msg, now);
    var rows := Enqueue(true, db, q, msg, now).db.rows;
    assert Enqueue(true, db, q, msg, now).outcome == Done ==> HoldsKey(rows[msg.id], q, msg.dedupeKey);
    var id :| id in rows && HoldsKey(rows[id], q, msg.dedupeKey);
    hide Insert, Enqueue, KeyTaken;
    assert forall other :: other in rows && HoldsKey(rows[other], q, msg.dedupeKey) ==> SameKey(rows[other], rows[id]);
  }

  /** Retry succeeds exactly when the row is claimed and no *other* live row holds the message's
      key; a message retried under the key it was claimed with is therefore never skipped. */
  lemma RetryIsNeverSkipped(db: Db, q: string, msg: Message, now: Time)
    requires UniqueKeys(db.rows) && !IsDlq(q)
    ensures Retry(true, db, q, msg, now).outcome == Done
            <==> Is(db.rows, msg.id, q, Processing) && !KeyTaken(db.rows - {msg.id}, q, msg.dedupeKey)
    ensures Is(db.rows, msg.id, q, Processing) && db.rows[msg.id].msg.dedupeKey == msg.dedupeKey
            ==> Retry(true, db, q, msg, now).outcome == Done
  {
    hide IsDlq, UniqueKeys;
    if Is(db.rows, msg.id, q, Processing) && db.rows[msg.id].msg.dedupeKey == msg.dedupeKey
       && KeyTaken(db.rows - {msg.id}, q, msg.dedupeKey) {
      var other :| other in db.rows - {msg.id} && HoldsKey(db.rows[other], q, msg.dedupeKey);
      assert SameKey(db.rows[msg.id], db.rows[other]);
      NoTwoHolders(db.rows, msg.id, other);
    }
  }

  lemma NoTwoHolders(rows: Table, a: Id, b: Id)
    requires UniqueKeys(rows) && a in rows && b in rows && SameKey(rows[a], rows[b])
    ensures a == b
  {
  }

  /** Replay moves exactly the one dead letter, under its own id and with its content and attempt
      count, or on a key conflict or a missing row changes nothing at all. */
  lemma ReplayMovesOrDoesNothing(db: Db, q: string, id: Id, now: Time)
    requires WellKeyed(db.rows) && !IsDlq(q)
    ensures
      var tx := Replay(true, db, q, id, now);
      && (tx.outcome == Done
          <==> Is(db.rows, id, Dlq(q), Dead) && !KeyTaken(db.rows, q, db.rows[id].msg.dedupeKey))
      && (tx.outcome == Done ==>
            && Is(tx.db.rows, id, q, Pending)
            && tx.db.rows - {id} == db.rows - {id}
            && SameContent(tx.db.rows[id].msg, Stored(q, db.rows[id].msg, now))
            && tx.db.rows[id].msg.attempts == db.rows[id].msg.attempts
            && tx.db.rows[id].msg.error == "" && tx.db.rows[id].msg.deadAt == ZERO_TIME)
      && (tx.outcome != Done ==> tx.db == db)
  {
    hide IsDlq;
    if Is(db.rows, id, Dlq(q), Dead) {
      var key := db.rows[id].msg.dedupeKey;
      assert KeyTaken(db.rows - {id}, q, key) <==> KeyTaken(db.rows, q, key) by {
        if KeyTaken(db.rows, q, key) {
          var other :| other in db.rows && HoldsKey(db.rows[other], q, key);
          assert other in db.rows - {id};
        }
      }
      var tx := Replay(true, db, q, id, now);
      if tx.outcome == Done {
        assert tx.db.rows - {id} == db.rows - {id};
      }
    }
  }

  // ----- without the index -----

  /** No live row of the queue has the key, or the row is stored dead. */
  predicate KeyFree(rows: Table, q: string, key: string) {
    InsertStatus(q) == Dead || !KeyTaken(rows, q, key)
  }

  /** A store without the index inserts a row whose key is taken like any other: keys stay unique exactly
      if it was free. */
  lemma InsertUniqueIff(rows: Table, q: string, msg: Message, now: Time)
    requires UniqueKeys(rows) && msg.id !in rows
    ensures UniqueKeys(Insert(false, rows, q, msg, now).rows) <==> KeyFree(rows, q, msg.dedupeKey)
  {
    hide IsDlq;
    var rows' := Insert(false, rows, q, msg, now).rows;
    if KeyFree(rows, q, msg.dedupeKey) {
      assert InsertStatus(q) != Dead ==> forall b :: b in rows ==> !HoldsKey(rows[b], q, msg.dedupeKey);
    } else {
      var b :| b in rows && HoldsKey(rows[b], q, msg.dedupeKey);
      assert SameKey(rows'[msg.id], rows'[b]);
    }
  }

  /** Two rows under one key stay that if no row goes or changes. */
  lemma StillTwice(rows: Table, rows': Table)
    requires !UniqueKeys(rows) && forall id :: id in rows ==> id in rows' && rows'[id] == rows[id]
    ensures !UniqueKeys(rows')
  {
    var a, b :| a in rows && b in rows && SameKey(rows[a], rows[b]) && a != b;
    assert SameKey(rows'[a], rows'[b]);
  }

  /** Every message of the first `n` of a batch finds its key free, those before it included. */
  predicate BatchFree(rows: Table, q: string, msgs: seq<Message>, n: nat, now: Time)
    requires n <= |msgs|
  {
    if n == 0 then true
    else
      var before := InsertFirst(false, rows, q, msgs, n - 1, now);
      BatchFree(rows, q, msgs, n - 1, now) && before.Inserted? && KeyFree(before.rows, q, msgs[n - 1].dedupeKey)
  }

  lemma {:induction false} BatchUniqueIff(rows: Table, q: string, msgs: seq<Message>, n: nat, now: Time)
    requires n <= |msgs| && UniqueKeys(rows) && InsertFirst(false, rows, q, msgs, n, now).Inserted?
    ensures UniqueKeys(InsertFirst(false, rows, q, msgs, n, now).rows) <==> BatchFree(rows, q, msgs, n, now)
  {
    hide UniqueKeys, KeyFree, Stored, InsertStatus;
    if n > 0 {
      BatchUniqueIff(rows, q, msgs, n - 1, now);
      var before := InsertFirst(false, rows, q, msgs, n - 1, now).rows;
      if UniqueKeys(before) {
        InsertUniqueIff(before, q, BatchStamp(msgs[n - 1], n - 1, now), now);
      } else {
        StillTwice(before, InsertFirst(false, rows, q, msgs, n, now).rows);
      }
    }
  }

  /** Every row the call inserts, if it goes through, finds its key free. */
  predicate FindsKeysFree(db: Db, op: Op) {
    Apply(false, db, op).outcome == Done ==>
      match op
      case EnqueueOp(q, msg, _) => KeyFree(db.rows, q, msg.dedupeKey)
      case EnqueueBatchOp(q, msgs, now) => BatchFree(db.rows, q, msgs, |msgs|, now)
      case RetryOp(q, msg, _) => KeyFree(db.rows - {msg.id}, q, msg.dedupeKey)
      case ReplayOp(q, id, _) => id in db.rows && KeyFree(db.rows - {id}, q, db.rows[id].msg.dedupeKey)
      case _ => true
  }

  lemma StepUniqueIff(db: Db, op: Op)
    requires UniqueKeys(db.rows) && WellKeyed(db.rows) && Legal(db, op)
    ensures UniqueKeys(Apply(false, db, op).db.rows) <==> FindsKeysFree(db, op)
  {
    hide UniqueKeys, WellKeyed, IsDlq, Stored, KeyFree, BatchFree, InsertStatus;
    var rows, rows' := db.rows, Apply(false, db, op).db.rows;
    match op
    case EnqueueOp(q, msg, now) =>
      if msg.id !in rows {
        InsertUniqueIff(rows, q, msg, now);
      }
    case EnqueueBatchOp(q, msgs, now) =>
      if InsertFirst(false, rows, q, msgs, |msgs|, now).Inserted? {
        BatchUniqueIff(rows, q, msgs, |msgs|, now);
      }
    case RetryOp(q, msg, now) =>
      ShrinkUnique(rows, rows - {msg.id});
      InsertUniqueIff(rows - {msg.id}, q, msg, now);
    case DeadLetterOp(q, msg, err, newId, now) => BuryUnique(db, q, msg, err, newId, now);
    case ReplayOp(q, id, now) =>
      if Is(rows, id, Dlq(q), Dead) {
        KeyedAt(rows, id);
        ShrinkUnique(rows, rows - {id});
        InsertUniqueIff(rows - {id}, q, ReplayMessage(q, rows[id].msg, now), now);
      }
    case _ => ShrinkUnique(rows, rows');
  }

  lemma KeyedAt(rows: Table, id: Id)
    requires WellKeyed(rows) && id in rows
    ensures rows[id].msg.id == id
  {
  }

  /** A dead letter and its tombstone hold no key. */
  lemma BuryUnique(db: Db, q: string, msg: Message, err: Option<string>, newId: Id, now: Time)
    requires UniqueKeys(db.rows)
    ensures UniqueKeys(DeadLetter(false, db, q, msg, err, newId, now).db.rows)
  {
    ShadowNames(q);
    hide UniqueKeys, IsDlq, Dlq, Stored;
    ShrinkUnique(db.rows, DeadLetter(false, db, q, msg, err, newId, now).db.rows);
  }

  /** The exact condition, over every run of a store without the index: keys are unique at every moment
      up to i if and only if every insert by then found its key free. */
  lemma {:induction false} UniqueWithoutIndexIff(trace: seq<Db>, ops: seq<Op>, i: nat)
    requires IsRun(false, trace, ops) && i < |trace|
    ensures (forall k :: 0 <= k <= i ==> UniqueKeys(trace[k].rows)) <==> (forall k :: 0 <= k < i ==> FindsKeysFree(trace[k], ops[k]))
  {
    if i > 0 {
      hide Apply, Legal, UniqueKeys, FindsKeysFree, WellKeyed;
      UniqueWithoutIndexIff(trace, ops, i - 1);
      assert trace[i] == Apply(false, trace[i - 1], ops[i - 1]).db && Legal(trace[i - 1], ops[i - 1]);
      if UniqueKeys(trace[i - 1].rows) {
        RunsKeyed(false, trace, ops, i - 1);
        StepUniqueIff(trace[i - 1], ops[i - 1]);
      }
      assert (forall k :: 0 <= k <= i ==> UniqueKeys(trace[k].rows))
             <==> (forall k :: 0 <= k <= i - 1 ==> UniqueKeys(trace[k].rows)) && UniqueKeys(trace[i].rows);
    }
  }

  /** Without the index the guarantee fails on the second enqueue of a key. */
  lemma SQLiteAdmitsTwoHolders() returns (trace: seq<Db>, ops: seq<Op>)
    ensures IsRun(false, trace, ops) && !UniqueKeys(trace[|trace| - 1].rows)
  {
    var m := Message(Id(1), "q", [], 0, 0, 1, 1, "key", 0, "", ZERO_TIME);
    ops := [EnqueueOp("q", m, 1), EnqueueOp("q", m.(id := Id(2)), 1)];
    var d1 := Apply(false, EMPTY_DB, ops[0]).db;
    var d2 := Apply(false, d1, ops[1]).db;
    trace := [EMPTY_DB, d1, d2];
    assert Id(1) in d2.rows && Id(2) in d2.rows;
    assert SameKey(d2.rows[Id(1)], d2.rows[Id(2)]);
  }
}
