/** The status-table store behind SQLite and Postgres. Every transaction is one atomic step on a
    table of rows keyed by message id plus one counter record per queue. `indexed` says whether
    the partial unique index on (queue, dedupe_key) exists: it does in Postgres, not in SQLite. */
module SqlMachine {
  import opened Naming
  import opened Messages

  datatype Status = Pending | Processing | Dead

  /** One table row; the queue column is `msg.queue`. */
  datatype Row = Row(msg: Message, status: Status)

  type Table = map<Id, Row>

  datatype Stats = Stats(processed: nat, errors: nat, retries: nat, dead: nat)

  datatype Db = Db(rows: Table, stats: map<string, Stats>)

  const EMPTY_DB := Db(map[], map[])

  function StatsOf(db: Db, q: string): Stats {
    if q in db.stats then db.stats[q] else Stats(0, 0, 0, 0)
  }

  /** What the caller learns: success, an insert skipped by the dedupe index, ErrEmpty, or an
      error that rolled the transaction back. */
  datatype Outcome = Done | Skipped | Empty | Conflict

  datatype Tx = Tx(db: Db, outcome: Outcome)

  predicate Is(rows: Table, id: Id, q: string, st: Status) {
    id in rows && rows[id].msg.queue == q && rows[id].status == st
  }

  // ----- inserting -----

  /** The column values of a row inserted into `q`. */
  function Stored(q: string, msg: Message, now: Time): Message {
    msg.(queue := q,
         createdAt := if msg.createdAt == ZERO_TIME then now else msg.createdAt,
         scheduledAt := if msg.scheduledAt == ZERO_TIME then now else msg.scheduledAt)
  }

  function InsertStatus(q: string): Status {
    if IsDlq(q) then Dead else Pending
  }

  predicate HoldsKey(row: Row, q: string, key: string) {
    key != "" && row.msg.queue == q && row.msg.dedupeKey == key && row.status != Dead
  }

  predicate KeyTaken(rows: Table, q: string, key: string) {
    exists id | id in rows :: HoldsKey(rows[id], q, key)
  }

  datatype Insertion = Inserted(rows: Table) | KeySkipped | IdViolation

  /** INSERT ... ON CONFLICT (queue, dedupe_key) DO NOTHING. The index covers only live rows, so
      an insert into a shadow queue (stored dead) is never skipped; a repeated primary key is an
      error. */
  function Insert(indexed: bool, rows: Table, q: string, msg: Message, now: Time): Insertion {
    if indexed && InsertStatus(q) != Dead && KeyTaken(rows, q, msg.dedupeKey) then KeySkipped
    else if msg.id in rows then IdViolation
    else Inserted(rows[msg.id := Row(Stored(q, msg, now), InsertStatus(q))])
  }

  function Enqueue(indexed: bool, db: Db, q: string, msg: Message, now: Time): Tx {
    match Insert(indexed, db.rows, q, msg, now)
    case Inserted(rows) => Tx(db.(rows := rows), Done)
    case KeySkipped => Tx(db, Skipped)
    case IdViolation => Tx(db, Conflict)
  }

  /** Fills in the timestamps of the i-th message of a batch. */
  function BatchStamp(msg: Message, i: nat, now: Time): Message {
    if msg.createdAt == ZERO_TIME
    then msg.(createdAt := now + i * MICROSECOND,
              scheduledAt := if msg.scheduledAt == ZERO_TIME then now else msg.scheduledAt)
    else msg.(scheduledAt := if msg.scheduledAt == ZERO_TIME then msg.createdAt else msg.scheduledAt)
  }

  /** Inserts the first `n` messages in order; skipped ones are passed over, a repeated id fails
      the whole batch. */
  function InsertFirst(indexed: bool, rows: Table, q: string, msgs: seq<Message>, n: nat, now: Time): Insertion
    requires n <= |msgs|
  {
    if n == 0 then Inserted(rows)
    else
      var before := InsertFirst(indexed, rows, q, msgs, n - 1, now);
      if !before.Inserted? then IdViolation
      else
        var next := Insert(indexed, before.rows, q, BatchStamp(msgs[n - 1], n - 1, now), now);
        if next.KeySkipped? then before else next
  }

  function EnqueueBatch(indexed: bool, db: Db, q: string, msgs: seq<Message>, now: Time): Tx {
    var r := InsertFirst(indexed, db.rows, q, msgs, |msgs|, now);
    if r.Inserted? then Tx(db.(rows := r.rows), Done) else Tx(db, Conflict)
  }

  // ----- delivering and resolving -----

  function Due(rows: Table, q: string, now: Time): set<Id> {
    set id | id in rows && Is(rows, id, q, Pending) && rows[id].msg.scheduledAt <= now
  }

  /** Claims the picked rows. Which due rows a claim picks is left open: with SKIP LOCKED a
      consumer sees any subset of the unclaimed ones. */
  function Dequeue(db: Db, pick: set<Id>): Db {
    db.(rows := map id | id in db.rows :: if id in pick then db.rows[id].(status := Processing) else db.rows[id])
  }

  function Bump(db: Db, q: string, processed: nat, errors: nat, retries: nat, dead: nat): map<string, Stats> {
    var s := StatsOf(db, q);
    db.stats[q := Stats(s.processed + processed, s.errors + errors, s.retries + retries, s.dead + dead)]
  }

  function Ack(db: Db, q: string, id: Id): Db {
    if Is(db.rows, id, q, Processing) then Db(db.rows - {id}, Bump(db, q, 1, 0, 0, 0)) else db
  }

  /** The rows a batch acknowledgement removes: DELETE ... WHERE id = ANY(ids). */
  function Ackable(db: Db, q: string, ids: seq<Id>): set<Id> {
    set id | id in ids && Is(db.rows, id, q, Processing)
  }

  function AckBatch(db: Db, q: string, ids: seq<Id>): Db {
    var gone := Ackable(db, q, ids);
    if gone == {} then db else Db(db.rows - gone, Bump(db, q, |gone|, 0, 0, 0))
  }

  /** Delete the claimed row, insert the updated message; anything else rolls back. */
  function Retry(indexed: bool, db: Db, q: string, msg: Message, now: Time): Tx {
    if !Is(db.rows, msg.id, q, Processing) then Tx(db, Empty)
    else
      var r := Insert(indexed, db.rows - {msg.id}, q, msg, now);
      if r.Inserted? then Tx(Db(r.rows, Bump(db, q, 0, 1, 1, 0)), Done) else Tx(db, Conflict)
  }

  /** Insert the dead letter, then turn the claimed row into a dead tombstone. */
  function DeadLetter(indexed: bool, db: Db, q: string, msg: Message, err: Option<string>, newId: Id, now: Time): Tx {
    var dead := DeadLetterMessage(q, msg, err, newId, now);
    var r := Insert(indexed, db.rows, Dlq(q), dead, now);
    if !r.Inserted? then Tx(db, Conflict)
    else if !Is(r.rows, msg.id, q, Processing) then Tx(db, Empty)
    else
      var tomb := Row(r.rows[msg.id].msg.(error := dead.error, deadAt := dead.deadAt), Dead);
      Tx(Db(r.rows[msg.id := tomb], Bump(db, q, 0, 0, 0, 1)), Done)
  }

  /** Delete the dead letter, insert it into the source queue; a conflict rolls back. */
  function Replay(indexed: bool, db: Db, q: string, id: Id, now: Time): Tx {
    if !Is(db.rows, id, Dlq(q), Dead) then Tx(db, Empty)
    else
      var msg := ReplayMessage(q, db.rows[id].msg, now);
      var r := Insert(indexed, db.rows - {id}, q, msg, now);
      if r.Inserted? then Tx(Db(r.rows, Bump(db, Dlq(q), 1, 0, 0, 0)), Done) else Tx(db, Conflict)
  }

  function Unclaim(row: Row): Row {
    if row.status == Processing then row.(status := Pending) else row
  }

  function Reclaim(db: Db, q: string): Db {
    db.(rows := map id | id in db.rows :: if db.rows[id].msg.queue == q then Unclaim(db.rows[id]) else db.rows[id])
  }

  /** What opening the store does: every claimed row of every queue goes back to pending. */
  function ReclaimAll(db: Db): Db {
    db.(rows := map id | id in db.rows :: Unclaim(db.rows[id]))
  }

  // ----- the machine -----

  /** One call on the store, with everything the environment supplies: the clock, fresh ids, and
      the rows a claim picks. */
  datatype Op =
    | EnqueueOp(q: string, msg: Message, now: Time)
    | EnqueueBatchOp(q: string, msgs: seq<Message>, now: Time)
    | DequeueOp(q: string, limit: nat, pick: set<Id>, now: Time)
    | AckOp(q: string, id: Id)
    | AckBatchOp(q: string, ids: seq<Id>)
    | RetryOp(q: string, msg: Message, now: Time)
    | DeadLetterOp(q: string, msg: Message, err: Option<string>, newId: Id, now: Time)
    | ReplayOp(q: string, id: Id, now: Time)
    | ReclaimOp(q: string)
    | ReclaimAllOp

  /** The only thing a call cannot do is claim a row that is not due: all other arguments are
      arbitrary, stale or repeated. */
  predicate Legal(db: Db, op: Op) {
    op.DequeueOp? ==> op.pick <= Due(db.rows, op.q, op.now) && |op.pick| <= op.limit
  }

  function Apply(indexed: bool, db: Db, op: Op): Tx {
    match op
    case EnqueueOp(q, msg, now) => Enqueue(indexed, db, q, msg, now)
    case EnqueueBatchOp(q, msgs, now) => EnqueueBatch(indexed, db, q, msgs, now)
    case DequeueOp(q, limit, pick, now) => Tx(Dequeue(db, pick), if pick == {} then Empty else Done)
    case AckOp(q, id) => Tx(Ack(db, q, id), Done)
    case AckBatchOp(q, ids) => Tx(AckBatch(db, q, ids), Done)
    case RetryOp(q, msg, now) => Retry(indexed, db, q, msg, now)
    case DeadLetterOp(q, msg, err, newId, now) => DeadLetter(indexed, db, q, msg, err, newId, now)
    case ReplayOp(q, id, now) => Replay(indexed, db, q, id, now)
    case ReclaimOp(q) => Tx(Reclaim(db, q), Done)
    case ReclaimAllOp => Tx(ReclaimAll(db), Done)
  }

  /** Ids are primary keys: a row is stored under its own message id. */
  ghost predicate WellKeyed(rows: Table) {
    forall id :: id in rows ==> rows[id].msg.id == id
  }

  lemma InsertFirstKeyed(indexed: bool, rows: Table, q: string, msgs: seq<Message>, n: nat, now: Time)
    requires n <= |msgs| && WellKeyed(rows)
    ensures var r := InsertFirst(indexed, rows, q, msgs, n, now);
            r.Inserted? ==> WellKeyed(r.rows) && rows.Keys <= r.rows.Keys
  {
    if n > 0 {
      InsertFirstKeyed(indexed, rows, q, msgs, n - 1, now);
    }
  }

  lemma ApplyKeyed(indexed: bool, db: Db, op: Op)
    requires WellKeyed(db.rows)
    ensures WellKeyed(Apply(indexed, db, op).db.rows)
  {
    if op.EnqueueBatchOp? {
      InsertFirstKeyed(indexed, db.rows, op.q, op.msgs, |op.msgs|, op.now);
    }
  }

  /** A run of the store from the empty table. */
  ghost predicate IsRun(indexed: bool, trace: seq<Db>, ops: seq<Op>) {
    && |trace| == |ops| + 1
    && trace[0] == EMPTY_DB
    && forall i :: 0 <= i < |ops| ==> Legal(trace[i], ops[i]) && trace[i + 1] == Apply(indexed, trace[i], ops[i]).db
  }

  lemma {:induction false} RunsKeyed(indexed: bool, trace: seq<Db>, ops: seq<Op>, i: nat)
    requires IsRun(indexed, trace, ops) && i < |trace|
    ensures WellKeyed(trace[i].rows)
  {
    if i > 0 {
      hide Apply, Legal;
      RunsKeyed(indexed, trace, ops, i - 1);
      ApplyKeyed(indexed, trace[i - 1], ops[i - 1]);
    }
  }

  /** A transaction that did not succeed changed nothing. */
  lemma RollbackIsTotal(indexed: bool, db: Db, op: Op)
    ensures !Apply(indexed, db, op).outcome.Done? ==> Apply(indexed, db, op).db == db
  {
    if op.DequeueOp? && op.pick == {} {
      assert Dequeue(db, {}).rows == db.rows;
    }
  }
}
