/** What each transaction writes, column by column: the row a call inserts or changes, the rows it
    leaves alone, and when it writes nothing. */
module SqlEffects {
  import opened Naming
  import opened Messages
  import opened SqlMachine

  ghost predicate IsShadow(q: string) {
    exists p :: q == p + ".dlq"
  }

  lemma ShadowIsDlq(q: string)
    ensures IsDlq(q) <==> IsShadow(q)
  {
    if IsDlq(q) {
      assert q == q[..|q| - 4] + ".dlq";
    }
    if p :| q == p + ".dlq" {
      assert q[|q| - 4..] == ".dlq";
    }
  }

  lemma ShadowName(q: string)
    ensures Dlq(q) == q + ".dlq" && IsShadow(Dlq(q))
  {
  }

  /** The columns that no insert fills in by itself. */
  ghost predicate SameColumns(x: Message, msg: Message) {
    && x.id == msg.id && x.payload == msg.payload && x.attempts == msg.attempts && x.maxRetries == msg.maxRetries
    && x.dedupeKey == msg.dedupeKey && x.priority == msg.priority && x.error == msg.error && x.deadAt == msg.deadAt
  }

  /** `msg` as a row of `q`: a shadow queue holds dead rows, any other new ones pending, and timestamps
      that were not set are the store's. */
  ghost predicate Filed(row: Row, q: string, msg: Message, now: Time) {
    && row.msg.queue == q && SameColumns(row.msg, msg)
    && row.msg.createdAt == (if msg.createdAt == ZERO_TIME then now else msg.createdAt)
    && row.msg.scheduledAt == (if msg.scheduledAt == ZERO_TIME then now else msg.scheduledAt)
    && (IsShadow(q) ==> row.status == Dead) && (!IsShadow(q) ==> row.status == Pending)
  }

  /** A live row of the queue has the same key. */
  ghost predicate KeyLives(rows: Table, q: string, key: string) {
    key != "" && exists id :: id in rows && rows[id].msg.queue == q && rows[id].msg.dedupeKey == key && rows[id].status != Dead
  }

  lemma KeyLivesIsTaken(rows: Table, q: string, key: string)
    ensures KeyTaken(rows, q, key) <==> KeyLives(rows, q, key)
  {
  }

  ghost predicate OneRow(rows: Table, rows': Table, id: Id) {
    id in rows' && rows'.Keys == rows.Keys + {id} && forall x :: x in rows && x != id ==> rows'[x] == rows[x]
  }

  lemma InsertWrites(indexed: bool, rows: Table, q: string, msg: Message, now: Time)
    ensures
      match Insert(indexed, rows, q, msg, now)
      case KeySkipped => indexed && !IsShadow(q) && KeyLives(rows, q, msg.dedupeKey)
      case IdViolation => msg.id in rows && !(indexed && !IsShadow(q) && KeyLives(rows, q, msg.dedupeKey))
      case Inserted(rows') =>
        && msg.id !in rows && !(indexed && !IsShadow(q) && KeyLives(rows, q, msg.dedupeKey))
        && OneRow(rows, rows', msg.id) && Filed(rows'[msg.id], q, msg, now)
  {
    ShadowIsDlq(q);
    KeyLivesIsTaken(rows, q, msg.dedupeKey);
    hide IsDlq, IsShadow, KeyTaken, KeyLives;
  }

  /** An enqueue inserts its one row, or reports a key or an id that is taken and writes nothing. */
  lemma EnqueueWrites(indexed: bool, db: Db, q: string, msg: Message, now: Time)
    ensures var tx := Enqueue(indexed, db, q, msg, now);
            var skips := indexed && !IsShadow(q) && KeyLives(db.rows, q, msg.dedupeKey);
            && (tx.outcome == Skipped <==> skips) && (tx.outcome == Conflict <==> !skips && msg.id in db.rows)
            && tx.db.stats == db.stats
            && (tx.outcome == Done ==> OneRow(db.rows, tx.db.rows, msg.id) && Filed(tx.db.rows[msg.id], q, msg, now))
            && (tx.outcome != Done ==> tx.db.rows == db.rows)
  {
    InsertWrites(indexed, db.rows, q, msg, now);
    hide Insert, IsShadow, KeyLives;
  }

  /** The i-th message of a batch as a row: unset creation times are spread over microseconds, and what
      has its own creation time is due then. */
  ghost predicate FiledInBatch(row: Row, q: string, msg: Message, i: nat, now: Time) {
    && row.msg.queue == q && SameColumns(row.msg, msg)
    && row.msg.createdAt == (if msg.createdAt == ZERO_TIME then now + i * 1000 else msg.createdAt)
    && row.msg.scheduledAt == (if msg.scheduledAt != ZERO_TIME then msg.scheduledAt
                               else if msg.createdAt == ZERO_TIME then now else msg.createdAt)
    && (IsShadow(q) ==> row.status == Dead) && (!IsShadow(q) ==> row.status == Pending)
  }

  ghost predicate HasId(msgs: seq<Message>, n: nat, id: Id)
    requires n <= |msgs|
  {
    exists k :: 0 <= k < n && msgs[k].id == id
  }

  /** The first `n` messages are rows now, each that was not skipped for its key, and nothing else
      changed. */
  ghost predicate BatchFiled(indexed: bool, rows: Table, rows': Table, q: string, msgs: seq<Message>, n: nat, now: Time)
    requires n <= |msgs|
  {
    && (forall id :: id in rows ==> id in rows' && rows'[id] == rows[id])
    && (forall id :: id in rows' && id !in rows ==> HasId(msgs, n, id))
    && (forall k :: 0 <= k < n && msgs[k].id !in rows' ==> indexed && !IsShadow(q) && KeyLives(rows', q, msgs[k].dedupeKey))
    && (forall id :: id in rows' && id !in rows ==>
          exists k :: 0 <= k < n && msgs[k].id == id && FiledInBatch(rows'[id], q, msgs[k], k, now))
  }

  lemma {:induction false} BatchWrites(indexed: bool, rows: Table, q: string, msgs: seq<Message>, n: nat, now: Time)
    requires n <= |msgs| && now > 0
    ensures var r := InsertFirst(indexed, rows, q, msgs, n, now);
            r.Inserted? ==> BatchFiled(indexed, rows, r.rows, q, msgs, n, now)
  {
    if n > 0 && InsertFirst(indexed, rows, q, msgs, n, now).Inserted? {
      BatchWrites(indexed, rows, q, msgs, n - 1, now);
      var before := InsertFirst(indexed, rows, q, msgs, n - 1, now).rows;
      var x := BatchStamp(msgs[n - 1], n - 1, now);
      InsertWrites(indexed, before, q, x, now);
      BatchGrows(indexed, rows, before, InsertFirst(indexed, rows, q, msgs, n, now).rows, q, msgs, n, now);
    }
  }

  lemma BatchGrows(indexed: bool, rows: Table, before: Table, after: Table, q: string, msgs: seq<Message>, n: nat, now: Time)
    requires 0 < n <= |msgs| && now > 0 && BatchFiled(indexed, rows, before, q, msgs, n - 1, now)
    requires var m := msgs[n - 1];
             || (after == before && indexed && !IsShadow(q) && KeyLives(before, q, m.dedupeKey))
             || (m.id !in before && OneRow(before, after, m.id) && Filed(after[m.id], q, BatchStamp(m, n - 1, now), now))
    ensures BatchFiled(indexed, rows, after, q, msgs, n, now)
  {
    hide IsShadow;
    forall id | id in after && id !in rows
      ensures HasId(msgs, n, id)
      ensures exists k :: 0 <= k < n && msgs[k].id == id && FiledInBatch(after[id], q, msgs[k], k, now)
    {
      if id in before {
        assert HasId(msgs, n - 1, id);
        var k :| 0 <= k < n - 1 && msgs[k].id == id && FiledInBatch(before[id], q, msgs[k], k, now);
        assert FiledInBatch(after[id], q, msgs[k], k, now);
      } else {
        assert FiledInBatch(after[id], q, msgs[n - 1], n - 1, now);
      }
    }
    forall k | 0 <= k < n && msgs[k].id !in after
      ensures indexed && !IsShadow(q) && KeyLives(after, q, msgs[k].dedupeKey)
    {
      var id :| id in before && before[id].msg.queue == q && before[id].msg.dedupeKey == msgs[k].dedupeKey && before[id].status != Dead;
      assert after[id] == before[id];
    }
  }

  /** A retry rewrites its claimed row in place. */
  lemma RetryWrites(indexed: bool, db: Db, q: string, msg: Message, now: Time)
    requires Retry(indexed, db, q, msg, now).outcome == Done
    ensures var db' := Retry(indexed, db, q, msg, now).db;
            && msg.id in db.rows && db.rows[msg.id].msg.queue == q && db.rows[msg.id].status == Processing
            && OneRow(db.rows, db'.rows, msg.id) && Filed(db'.rows[msg.id], q, msg, now)
  {
    InsertWrites(indexed, db.rows - {msg.id}, q, msg, now);
    hide Insert, IsShadow, KeyLives;
  }

  function TextOf(err: Option<string>): string {
    match err
    case None => ""
    case Some(text) => text
  }

  /** A dead-lettering writes two rows: the letter, a copy of the message handed in, due and dead now with
      the text of the error, in the shadow queue; and the claimed row itself, dead with that error. */
  lemma DeadLetterWrites(indexed: bool, db: Db, q: string, msg: Message, err: Option<string>, newId: Id, now: Time)
    requires DeadLetter(indexed, db, q, msg, err, newId, now).outcome == Done
    ensures var rows, rows' := db.rows, DeadLetter(indexed, db, q, msg, err, newId, now).db.rows;
            && newId !in rows && msg.id in rows && rows[msg.id].msg.queue == q && rows[msg.id].status == Processing
            && rows'.Keys == rows.Keys + {newId}
            && (forall id :: id in rows && id != msg.id ==> rows'[id] == rows[id])
            && var letter, tomb := rows'[newId], rows'[msg.id];
               && letter.status == Dead && letter.msg.id == newId && letter.msg.queue == q + ".dlq"
               && letter.msg.error == TextOf(err) && letter.msg.deadAt == now && letter.msg.scheduledAt == now
               && letter.msg.attempts == msg.attempts && letter.msg.maxRetries == msg.maxRetries
               && letter.msg.payload == msg.payload && letter.msg.priority == msg.priority && letter.msg.dedupeKey == msg.dedupeKey
               && letter.msg.createdAt == (if msg.createdAt == ZERO_TIME then now else msg.createdAt)
               && tomb.status == Dead && tomb.msg.error == TextOf(err) && tomb.msg.deadAt == now
               && tomb.msg.(error := rows[msg.id].msg.error, deadAt := rows[msg.id].msg.deadAt) == rows[msg.id].msg
  {
    ShadowNames(q);
    hide IsDlq, KeyTaken;
  }

  /** A replay rewrites the dead letter in place: back in its queue, due now, with its error gone. */
  lemma ReplayWrites(indexed: bool, db: Db, q: string, id: Id, now: Time)
    requires Replay(indexed, db, q, id, now).outcome == Done && db.rows[id].msg.id == id
    ensures var rows, rows' := db.rows, Replay(indexed, db, q, id, now).db.rows;
            && id in rows && rows[id].msg.queue == q + ".dlq" && rows[id].status == Dead && OneRow(rows, rows', id)
            && var x, y := rows[id].msg, rows'[id].msg;
               && y.queue == q && y.scheduledAt == now && y.error == "" && y.deadAt == ZERO_TIME
               && y.id == x.id && y.payload == x.payload && y.attempts == x.attempts && y.maxRetries == x.maxRetries
               && y.dedupeKey == x.dedupeKey && y.priority == x.priority
               && y.createdAt == (if x.createdAt == ZERO_TIME then now else x.createdAt)
               && (!IsShadow(q) ==> rows'[id].status == Pending)
  {
    ShadowIsDlq(q);
    hide IsDlq, KeyTaken, IsShadow;
  }

  /** A claim takes only rows of its queue that are pending and whose time has come, at most `limit` of
      them, and changes nothing of them but their status; every other row stays as it is. */
  lemma ClaimsOnlyDue(indexed: bool, db: Db, op: Op)
    requires op.DequeueOp? && Legal(db, op)
    ensures var rows, rows' := db.rows, Apply(indexed, db, op).db.rows;
            && |op.pick| <= op.limit && rows'.Keys == rows.Keys && Apply(indexed, db, op).db.stats == db.stats
            && (forall id :: id in op.pick ==>
                  && id in rows && rows[id].msg.queue == op.q && rows[id].status == Pending && rows[id].msg.scheduledAt <= op.now
                  && rows'[id].status == Processing && rows'[id].msg == rows[id].msg)
            && (forall id :: id in rows && id !in op.pick ==> rows'[id] == rows[id])
  {
  }

  /** So a row that is not yet due, of another queue, or not pending is as it was. */
  lemma NotDueStays(indexed: bool, db: Db, op: Op, id: Id)
    requires op.DequeueOp? && Legal(db, op) && id in db.rows
    requires db.rows[id].msg.scheduledAt > op.now || db.rows[id].msg.queue != op.q || db.rows[id].status != Pending
    ensures id in Apply(indexed, db, op).db.rows && Apply(indexed, db, op).db.rows[id] == db.rows[id]
  {
    ClaimsOnlyDue(indexed, db, op);
    hide Apply, Legal;
  }

  /** A row that is pending in the queue and due can be claimed. */
  lemma DueCanBeClaimed(db: Db, q: string, id: Id, now: Time)
    requires id in db.rows && db.rows[id].msg.queue == q && db.rows[id].status == Pending && db.rows[id].msg.scheduledAt <= now
    ensures Legal(db, DequeueOp(q, 1, {id}, now))
  {
  }

  ghost predicate ClaimedIn(rows: Table, q: string, id: Id) {
    id in rows && rows[id].msg.queue == q && rows[id].status == Processing
  }

  /** An acknowledgement removes the claimed rows of its queue that it names, and only those. */
  lemma AckRemoves(db: Db, q: string, ids: seq<Id>)
    ensures var rows' := AckBatch(db, q, ids).rows;
            && (forall id :: id in rows' <==> id in db.rows && !(id in ids && ClaimedIn(db.rows, q, id)))
            && (forall id :: id in rows' ==> rows'[id] == db.rows[id])
    ensures forall id :: Ack(db, q, id).rows == if ClaimedIn(db.rows, q, id) then db.rows - {id} else db.rows
  {
    assert forall id :: id in Ackable(db, q, ids) <==> id in ids && ClaimedIn(db.rows, q, id);
  }

  /** A reclaim makes the claimed rows of its queue pending; opening the store does so for every queue. */
  lemma ReclaimUnclaims(db: Db, q: string)
    ensures var one, all := Reclaim(db, q), ReclaimAll(db);
            && one.stats == db.stats && all.stats == db.stats
            && one.rows.Keys == db.rows.Keys && all.rows.Keys == db.rows.Keys
            && forall id :: id in db.rows ==>
                 && one.rows[id].msg == db.rows[id].msg && all.rows[id].msg == db.rows[id].msg
                 && one.rows[id].status == (if ClaimedIn(db.rows, q, id) then Pending else db.rows[id].status)
                 && all.rows[id].status == (if db.rows[id].status == Processing then Pending else db.rows[id].status)
  {
  }
}
