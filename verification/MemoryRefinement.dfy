/** The in-process store against the status-table machine: call by call they stay in step, so the
    balance of the table carries over to the slices, the in-flight sets and the counters. */
module MemoryRefinement {
  import opened Naming
  import opened Messages
  import opened DeliveryOrder
  import opened SqlMachine
  import Mem = MemoryStore

  /** The first message with the id, as Replay looks it up. */
  function Find(s: seq<Message>, id: Id): Option<Message> {
    if s == [] then None
    else if Find(s[..|s| - 1], id).Some? then Find(s[..|s| - 1], id)
    else if s[|s| - 1].id == id then Some(s[|s| - 1])
    else None
  }

  /** The same calls, on the in-process store. A dequeue delivers what the store's own order picks. */
  function MemApply(m: Mem.Mem, op: Op): Mem.Mem {
    match op
    case EnqueueOp(q, msg, now) => Mem.Append(m, q, [Mem.Stamp(msg, now)])
    case EnqueueBatchOp(q, msgs, now) => if msgs == [] then m else Mem.Append(m, q, Mem.StampAll(msgs, |msgs|, now))
    case DequeueOp(q, limit, _, now) => Mem.Dequeued(m, q, limit, now)
    case AckOp(q, id) => Mem.Acked(m, q, [id])
    case AckBatchOp(q, ids) => Mem.Acked(m, q, ids)
    case RetryOp(q, msg, _) => Mem.Retried(m, q, msg)
    case DeadLetterOp(q, msg, err, newId, now) => Mem.DeadLettered(m, q, msg, err, newId, now)
    case ReplayOp(q, id, now) =>
      var dead := Find(Mem.ListOf(m, Dlq(q)), id);
      if dead.Some? then Mem.Replayed(m, q, dead.value, now) else m
    case ReclaimOp(_) => m
    case ReclaimAllOp => m
  }

  /** What the broker passes: messages of the queue with both timestamps or neither, under ids that
      are not in the table. */
  ghost predicate Arriving(rows: Table, q: string, msg: Message) {
    msg.id !in rows && msg.queue == q && (msg.scheduledAt == ZERO_TIME ==> msg.createdAt == ZERO_TIME)
  }

  /** The calls on which the two stores agree: fresh ids come in, only messages in flight are
      retried or dead-lettered, no shadow queue is dequeued, nothing is reclaimed, and the clock
      is set. Acknowledgements and replays are arbitrary. */
  ghost predicate Proper(m: Mem.Mem, rows: Table, op: Op) {
    match op
    case EnqueueOp(q, msg, now) => now > 0 && Arriving(rows, q, msg)
    case EnqueueBatchOp(q, msgs, now) =>
      && now > 0
      && (forall i :: 0 <= i < |msgs| ==> Arriving(rows, q, msgs[i]))
      && (forall i, j :: 0 <= i < j < |msgs| ==> msgs[i].id != msgs[j].id)
    case DequeueOp(q, limit, pick, now) => !IsDlq(q) && pick == Mem.IdsOf(Mem.NextOut(m, q, limit, now))
    case AckOp(_, _) => true
    case AckBatchOp(_, _) => true
    case RetryOp(q, msg, _) =>
      msg.id in Mem.InflightOf(m, q) && msg.createdAt != ZERO_TIME && msg.scheduledAt != ZERO_TIME
    case DeadLetterOp(q, msg, _, newId, now) =>
      msg.id in Mem.InflightOf(m, q) && msg.createdAt != ZERO_TIME && newId !in rows && now > 0
    case ReplayOp(_, _, now) => now > 0
    case ReclaimOp(_) => false
    case ReclaimAllOp => false
  }

  ghost predicate Distinct(s: seq<Message>) {
    forall i, j :: 0 <= i < j < |s| ==> s[i].id != s[j].id
  }

  /** A waiting message of `p` and the row that stands for it. */
  ghost predicate Stands(rows: Table, p: string, x: Message) {
    x.id in rows && rows[x.id] == Row(x, InsertStatus(p)) && x.queue == p && x.createdAt != ZERO_TIME
  }

  /** Queue `p` in both stores: the slice holds exactly the pending rows (of a shadow queue: the
      dead ones), once each; in flight are exactly the claimed rows; the counters are equal. */
  ghost predicate Agree(m: Mem.Mem, db: Db, p: string) {
    var waiting := Mem.ListOf(m, p);
    && Distinct(waiting)
    && (forall x :: x in waiting ==> Stands(db.rows, p, x))
    && (forall id :: Is(db.rows, id, p, InsertStatus(p)) ==> db.rows[id].msg in waiting)
    && (forall id :: id in Mem.InflightOf(m, p) <==> Is(db.rows, id, p, Processing))
    && Mem.CountsOf(m, p) == StatsOf(db, p)
  }

  /** Nothing is ever in flight in a shadow queue. */
  ghost predicate ShadowsIdle(m: Mem.Mem) {
    forall p :: IsDlq(p) ==> Mem.InflightOf(m, p) == {}
  }

  ghost predicate Related(m: Mem.Mem, db: Db) {
    WellKeyed(db.rows) && ShadowsIdle(m) && forall p :: Agree(m, db, p)
  }

  // ----- frames -----

  /** The rows of queue `p` are the same in both tables. */
  ghost predicate SameAt(rows: Table, rows': Table, p: string) {
    && (forall id :: id in rows && rows[id].msg.queue == p ==> id in rows' && rows'[id] == rows[id])
    && (forall id :: id in rows' && rows'[id].msg.queue == p ==> id in rows && rows[id] == rows'[id])
  }

  lemma Untouched(m: Mem.Mem, db: Db, m': Mem.Mem, db': Db, p: string)
    requires Agree(m, db, p) && SameAt(db.rows, db'.rows, p)
    requires Mem.ListOf(m', p) == Mem.ListOf(m, p) && Mem.InflightOf(m', p) == Mem.InflightOf(m, p)
    requires Mem.CountsOf(m', p) == Mem.CountsOf(m, p) && StatsOf(db', p) == StatsOf(db, p)
    ensures Agree(m', db', p)
  {
    hide IsDlq, InsertStatus;
  }

  /** A fresh message joins the end of a slice and its row the table. */
  lemma Joins(m: Mem.Mem, db: Db, m': Mem.Mem, db': Db, p: string, x: Message)
    requires Agree(m, db, p) && x.id !in db.rows && x.queue == p && x.createdAt != ZERO_TIME
    requires SameAt(db.rows, db'.rows - {x.id}, p) && Stands(db'.rows, p, x)
    requires Mem.ListOf(m', p) == Mem.ListOf(m, p) + [x] && Mem.InflightOf(m', p) == Mem.InflightOf(m, p)
    requires Mem.CountsOf(m', p) == StatsOf(db', p)
    ensures Agree(m', db', p)
  {
    hide IsDlq;
    var waiting := Mem.ListOf(m, p);
    assert forall y :: y in waiting ==> y.id in db.rows;
    assert forall i :: 0 <= i < |waiting| ==> waiting[i] in waiting;
    assert forall y :: y in waiting + [x] <==> y in waiting || y == x;
    forall id ensures Is(db'.rows, id, p, Processing) <==> Is(db.rows, id, p, Processing) {
      assert id != x.id && id in db'.rows ==> id in db'.rows - {x.id};
    }
    forall id | Is(db'.rows, id, p, InsertStatus(p)) ensures db'.rows[id].msg in waiting + [x] {
      if id != x.id {
        assert id in db'.rows - {x.id};
        assert Is(db.rows, id, p, InsertStatus(p));
      }
    }
    forall y | y in waiting ensures Stands(db'.rows, p, y) {
      assert Stands(db.rows, p, y);
      assert y.id in db'.rows - {x.id};
    }
  }

  lemma FindIs(s: seq<Message>, id: Id)
    requires Distinct(s)
    ensures Find(s, id).Some? <==> exists x :: x in s && x.id == id
    ensures Find(s, id).Some? ==> Find(s, id).value in s && Find(s, id).value.id == id
  {
    if s != [] {
      FindIs(s[..|s| - 1], id);
      assert s == s[..|s| - 1] + [s[|s| - 1]];
    }
  }

  /** A claimed row is resolved: gone, or a row that counts neither as waiting nor as claimed. */
  lemma Lands(m: Mem.Mem, db: Db, m': Mem.Mem, db': Db, p: string, ids: set<Id>)
    requires Agree(m, db, p) && SameAt(db.rows - ids, db'.rows - ids, p)
    requires forall id :: id in ids ==> !Is(db'.rows, id, p, Processing) && !Is(db'.rows, id, p, InsertStatus(p))
    requires forall id :: id in ids ==> !Is(db.rows, id, p, InsertStatus(p))
    requires Mem.ListOf(m', p) == Mem.ListOf(m, p) && Mem.InflightOf(m', p) == Mem.InflightOf(m, p) - ids
    requires Mem.CountsOf(m', p) == StatsOf(db', p)
    ensures Agree(m', db', p)
  {
    hide IsDlq, InsertStatus;
    forall id ensures Is(db'.rows, id, p, Processing) <==> Is(db.rows, id, p, Processing) && id !in ids {
      assert id !in ids ==> (id in db'.rows <==> id in db'.rows - ids) && (id in db.rows <==> id in db.rows - ids);
    }
    forall id | Is(db'.rows, id, p, InsertStatus(p)) ensures db'.rows[id].msg in Mem.ListOf(m', p) {
      assert id in db'.rows - ids && id in db.rows - ids;
    }
    forall y | y in Mem.ListOf(m', p) ensures Stands(db'.rows, p, y) {
      assert Stands(db.rows, p, y);
      assert y.id in db.rows - ids && y.id in db'.rows - ids;
    }
  }

  /** Waiting messages leave a slice; their rows are claimed or gone. */
  lemma Leaves(m: Mem.Mem, db: Db, m': Mem.Mem, db': Db, p: string, out: seq<Message>)
    requires Agree(m, db, p) && WellKeyed(db.rows) && SameAt(db.rows - Mem.IdsOf(out), db'.rows - Mem.IdsOf(out), p)
    requires forall x :: x in out ==> x in Mem.ListOf(m, p)
    requires forall id :: id in Mem.IdsOf(out) ==> !Is(db'.rows, id, p, InsertStatus(p))
    requires Mem.ListOf(m', p) == RemoveAll(Mem.ListOf(m, p), out)
    requires forall id :: id in Mem.InflightOf(m', p) <==>
               id in Mem.InflightOf(m, p) || (id in Mem.IdsOf(out) && Is(db'.rows, id, p, Processing))
    requires Mem.CountsOf(m', p) == StatsOf(db', p)
    ensures Agree(m', db', p)
  {
    hide IsDlq, RemoveAll;
    var waiting, ids := Mem.ListOf(m, p), Mem.IdsOf(out);
    RemoveAllMembers(waiting, out);
    assert forall x :: x in out ==> x.id in ids;
    forall id | id in ids ensures !Is(db.rows, id, p, Processing) {
      var x :| x in out && x.id == id;
      assert Stands(db.rows, p, x);
    }
    forall id ensures id in Mem.InflightOf(m', p) <==> Is(db'.rows, id, p, Processing) {
      assert id !in ids ==> (id in db'.rows <==> id in db'.rows - ids) && (id in db.rows <==> id in db.rows - ids);
    }
    forall id | Is(db'.rows, id, p, InsertStatus(p)) ensures db'.rows[id].msg in Mem.ListOf(m', p) {
      assert id in db'.rows - ids && id in db.rows - ids;
      assert db.rows[id].msg in waiting;
    }
    forall y | y in Mem.ListOf(m', p) ensures Stands(db'.rows, p, y) {
      assert Stands(db.rows, p, y);
      forall x | x in out ensures x.id != y.id {
        assert Stands(db.rows, p, x);
      }
      assert y.id in db.rows - ids && y.id in db'.rows - ids;
    }
  }

  lemma {:induction false} RemoveMembers(s: seq<Message>, m: Message)
    requires Distinct(s)
    ensures Distinct(Remove(s, m)) && forall x :: x in Remove(s, m) <==> x in s && x != m
  {
    if s != [] {
      var init, last := s[..|s| - 1], s[|s| - 1];
      assert s == init + [last];
      assert forall x :: x in init ==> x.id != last.id;
      RemoveMembers(init, m);
    }
  }

  lemma {:induction false} RemoveAllMembers(s: seq<Message>, ms: seq<Message>)
    requires Distinct(s)
    ensures Distinct(RemoveAll(s, ms)) && forall x :: x in RemoveAll(s, ms) <==> x in s && x !in ms
  {
    if ms != [] {
      var init, last := ms[..|ms| - 1], ms[|ms| - 1];
      assert ms == init + [last];
      RemoveAllMembers(s, init);
      hide Distinct;
      RemoveMembers(RemoveAll(s, init), last);
    }
  }

  // ----- the calls -----

  lemma EnqueueAgrees(m: Mem.Mem, db: Db, op: Op, p: string)
    requires op.EnqueueOp? && Agree(m, db, p) && Proper(m, db.rows, op)
    ensures Agree(MemApply(m, op), Apply(false, db, op).db, p) && Apply(false, db, op).outcome == Done
  {
    hide IsDlq, InsertStatus, Agree;
    var x := Mem.Stamp(op.msg, op.now);
    assert x == Stored(op.q, op.msg, op.now);
    var m', db' := MemApply(m, op), Apply(false, db, op).db;
    assert db'.rows == db.rows[x.id := Row(x, InsertStatus(op.q))];
    if p == op.q {
      assert db'.rows - {x.id} == db.rows;
      CountsAgree(m, db, p);
      Joins(m, db, m', db', p, x);
    } else {
      Untouched(m, db, m', db', p);
    }
  }

  lemma CountsAgree(m: Mem.Mem, db: Db, p: string)
    requires Agree(m, db, p)
    ensures Mem.CountsOf(m, p) == StatsOf(db, p)
  {
  }

  /** The first `n` messages of a batch. */
  lemma {:induction false} BatchAgrees(m: Mem.Mem, db: Db, op: Op, n: nat, p: string)
    requires op.EnqueueBatchOp? && n <= |op.msgs| && Agree(m, db, p) && Proper(m, db.rows, op)
    ensures var r := InsertFirst(false, db.rows, op.q, op.msgs, n, op.now);
            && r.Inserted?
            && (forall i :: n <= i < |op.msgs| ==> op.msgs[i].id !in r.rows)
            && Agree(Mem.Append(m, op.q, Mem.StampAll(op.msgs, n, op.now)), db.(rows := r.rows), p)
  {
    hide IsDlq, InsertStatus, Agree, KeyTaken;
    var m' := Mem.Append(m, op.q, Mem.StampAll(op.msgs, n, op.now));
    if n == 0 {
      CountsAgree(m, db, p);
      Untouched(m, db, m', db, p);
    } else {
      BatchAgrees(m, db, op, n - 1, p);
      var rows := InsertFirst(false, db.rows, op.q, op.msgs, n - 1, op.now).rows;
      BatchRow(m, db, op, n);
      OneMoreAgrees(m, db, op, n, rows, p);
    }
  }

  /** The next message of a batch, appended here and inserted there. */
  lemma OneMoreAgrees(m: Mem.Mem, db: Db, op: Op, n: nat, rows: Table, p: string)
    requires op.EnqueueBatchOp? && 0 < n <= |op.msgs| && op.msgs[n - 1].id !in rows
    requires Agree(Mem.Append(m, op.q, Mem.StampAll(op.msgs, n - 1, op.now)), db.(rows := rows), p)
    requires Proper(m, db.rows, op)
    ensures var x := BatchStamp(op.msgs[n - 1], n - 1, op.now);
            Agree(Mem.Append(m, op.q, Mem.StampAll(op.msgs, n, op.now)), db.(rows := rows[x.id := Row(x, InsertStatus(op.q))]), p)
  {
    hide IsDlq, InsertStatus, Agree, InsertFirst, Insert;
    var m', m0 := Mem.Append(m, op.q, Mem.StampAll(op.msgs, n, op.now)), Mem.Append(m, op.q, Mem.StampAll(op.msgs, n - 1, op.now));
    var x, db0 := BatchStamp(op.msgs[n - 1], n - 1, op.now), db.(rows := rows);
    var db' := db.(rows := rows[x.id := Row(x, InsertStatus(op.q))]);
    CountsAgree(m0, db0, p);
    if p == op.q {
      assert db'.rows - {x.id} == rows;
      assert Mem.ListOf(m', p) == Mem.ListOf(m0, p) + [x];
      Joins(m0, db0, m', db', p, x);
    } else {
      Untouched(m0, db0, m', db', p);
    }
  }

  /** The next message of a batch is inserted as stamped. */
  lemma BatchRow(m: Mem.Mem, db: Db, op: Op, n: nat)
    requires op.EnqueueBatchOp? && 0 < n <= |op.msgs| && Proper(m, db.rows, op)
    requires var r := InsertFirst(false, db.rows, op.q, op.msgs, n - 1, op.now);
             r.Inserted? && op.msgs[n - 1].id !in r.rows
    ensures var r, x := InsertFirst(false, db.rows, op.q, op.msgs, n - 1, op.now), BatchStamp(op.msgs[n - 1], n - 1, op.now);
            && x.id == op.msgs[n - 1].id
            && InsertFirst(false, db.rows, op.q, op.msgs, n, op.now) == Inserted(r.rows[x.id := Row(x, InsertStatus(op.q))])
  {
    hide IsDlq, InsertStatus, KeyTaken;
    var x := BatchStamp(op.msgs[n - 1], n - 1, op.now);
    assert Stored(op.q, x, op.now) == x;
  }

  lemma EnqueueBatchAgrees(m: Mem.Mem, db: Db, op: Op, p: string)
    requires op.EnqueueBatchOp? && Agree(m, db, p) && Proper(m, db.rows, op)
    ensures Agree(MemApply(m, op), Apply(false, db, op).db, p) && Apply(false, db, op).outcome == Done
  {
    hide Agree, InsertFirst, Arriving;
    BatchAgrees(m, db, op, |op.msgs|, p);
    if op.msgs == [] {
      EmptyBatch(db, op);
    }
  }

  lemma EmptyBatch(db: Db, op: Op)
    requires op.EnqueueBatchOp? && op.msgs == []
    ensures Apply(false, db, op) == Tx(db, Done)
  {
  }

  lemma DequeueLegal(m: Mem.Mem, db: Db, op: Op)
    requires op.DequeueOp? && Agree(m, db, op.q) && WellKeyed(db.rows) && Proper(m, db.rows, op)
    ensures Legal(db, op)
    ensures Apply(false, db, op).outcome == if Mem.NextOut(m, op.q, op.limit, op.now) == [] then Empty else Done
  {
    var out := Mem.NextOut(m, op.q, op.limit, op.now);
    Mem.DeliveryIsFair(m, op.q, op.limit, op.now);
    hide Mem.NextOut, Dequeue, RemoveAll, ByKey, Sorted;
    forall id | id in op.pick ensures id in Due(db.rows, op.q, op.now) {
      var x :| x in out && x.id == id;
      assert Stands(db.rows, op.q, x);
    }
    FewIds(out);
    assert out != [] ==> out[0].id in op.pick;
  }

  lemma {:induction false} FewIds(msgs: seq<Message>)
    ensures |Mem.IdsOf(msgs)| <= |msgs|
  {
    if msgs != [] {
      var init, last := msgs[..|msgs| - 1], msgs[|msgs| - 1];
      assert msgs == init + [last];
      FewIds(init);
      assert Mem.IdsOf(msgs) == Mem.IdsOf(init) + {last.id};
    }
  }

  lemma DequeueAgrees(m: Mem.Mem, db: Db, op: Op, p: string)
    requires op.DequeueOp? && Agree(m, db, p) && Agree(m, db, op.q) && WellKeyed(db.rows) && Proper(m, db.rows, op)
    ensures Agree(MemApply(m, op), Apply(false, db, op).db, p)
  {
    hide IsDlq, RemoveAll, Mem.NextOut, Mem.IdsOf;
    var m', db' := MemApply(m, op), Apply(false, db, op).db;
    var out := Mem.NextOut(m, op.q, op.limit, op.now);
    DequeuePicks(m, db, op);
    if p == op.q {
      assert SameAt(db.rows - op.pick, db'.rows - op.pick, p);
      hide Agree;
      CountsAgree(m, db, p);
      Leaves(m, db, m', db', p, out);
    } else {
      hide Agree;
      CountsAgree(m, db, p);
      Untouched(m, db, m', db', p);
    }
  }

  lemma DequeuePicks(m: Mem.Mem, db: Db, op: Op)
    requires op.DequeueOp? && Agree(m, db, op.q) && WellKeyed(db.rows) && Proper(m, db.rows, op)
    ensures var out := Mem.NextOut(m, op.q, op.limit, op.now);
            && (forall id :: id in op.pick ==> Is(db.rows, id, op.q, Pending))
            && (forall x :: x in out ==> x in Mem.ListOf(m, op.q))
            && (Mem.ListOf(m, op.q) == [] ==> out == [] && RemoveAll([], out) == [])
            && (out == [] ==> op.pick == {})
            && (forall id :: id in op.pick ==> exists x :: x in out && x.id == id)
  {
    var out := Mem.NextOut(m, op.q, op.limit, op.now);
    Mem.DeliveryIsFair(m, op.q, op.limit, op.now);
    DequeueLegal(m, db, op);
    hide Agree, ByKey, Sorted;
    assert out != [] ==> out[0] in Mem.ListOf(m, op.q);
  }

  lemma AcksAgree(m: Mem.Mem, db: Db, op: Op, p: string)
    requires op.AckOp? || op.AckBatchOp?
    requires Agree(m, db, p) && Agree(m, db, op.q)
    ensures Agree(MemApply(m, op), Apply(false, db, op).db, p)
  {
    var ids := if op.AckOp? then [op.id] else op.ids;
    if op.AckOp? {
      assert Ackable(db, op.q, ids) == if Is(db.rows, op.id, op.q, Processing) then {op.id} else {};
    }
    assert Apply(false, db, op).db == AckBatch(db, op.q, ids);
    hide Agree, AckBatch, Mem.Acked;
    AckBatchAgrees(m, db, op.q, ids, p);
  }

  lemma AckBatchAgrees(m: Mem.Mem, db: Db, q: string, ids: seq<Id>, p: string)
    requires Agree(m, db, p) && Agree(m, db, q)
    ensures Agree(Mem.Acked(m, q, ids), AckBatch(db, q, ids), p)
  {
    hide IsDlq, InsertStatus;
    var gone := Ackable(db, q, ids);
    var m', db' := Mem.Acked(m, q, ids), AckBatch(db, q, ids);
    assert Mem.Flying(m, q, ids) == gone;
    CountsAgree(m, db, p);
    hide Agree;
    if gone != {} {
      ClaimedIsNotWaiting(db, q, gone);
      if p == q {
        assert SameAt(db.rows - gone, db'.rows - gone, p);
        Lands(m, db, m', db', p, gone);
      } else {
        Untouched(m, db, m', db', p);
      }
    }
  }

  lemma ClaimedIsNotWaiting(db: Db, q: string, ids: set<Id>)
    requires forall id :: id in ids ==> Is(db.rows, id, q, Processing)
    ensures forall id :: id in ids ==> !Is(db.rows, id, q, InsertStatus(q))
  {
  }

  lemma RetriedIsClaimed(m: Mem.Mem, db: Db, op: Op)
    requires op.RetryOp? && Proper(m, db.rows, op) && Agree(m, db, op.q)
    ensures Is(db.rows, op.msg.id, op.q, Processing)
  {
  }

  lemma RetryAgrees(m: Mem.Mem, db: Db, op: Op, p: string)
    requires op.RetryOp? && Proper(m, db.rows, op)
    requires Agree(m, db, p) && Agree(m, db, op.q)
    ensures Agree(MemApply(m, op), Apply(false, db, op).db, p) && Apply(false, db, op).outcome == Done
  {
    hide IsDlq, InsertStatus, Agree, KeyTaken;
    var q, id, x := op.q, op.msg.id, op.msg.(queue := op.q);
    CountsAgree(m, db, p);
    RetriedIsClaimed(m, db, op);
    ClaimedIsNotWaiting(db, q, {id});
    assert Stored(q, op.msg, op.now) == x;
    var m', db' := MemApply(m, op), Apply(false, db, op).db;
    var m1, db1 := m.(inflight := m'.inflight, counters := m'.counters), Db(db.rows - {id}, db'.stats);
    assert db'.rows == db1.rows[id := Row(x, InsertStatus(q))];
    if p == q {
      assert SameAt(db.rows - {id}, db1.rows - {id}, p);
      Lands(m, db, m1, db1, p, {id});
      assert db'.rows - {id} == db1.rows;
      Joins(m1, db1, m', db', p, x);
    } else {
      Untouched(m, db, m', db', p);
    }
  }

  lemma DeadLetterAgrees(m: Mem.Mem, db: Db, op: Op, p: string)
    requires op.DeadLetterOp? && Proper(m, db.rows, op) && !IsDlq(op.q)
    requires Agree(m, db, p) && Agree(m, db, op.q)
    ensures Agree(MemApply(m, op), Apply(false, db, op).db, p) && Apply(false, db, op).outcome == Done
  {
    assert Is(db.rows, op.msg.id, op.q, Processing);
    CountsAgree(m, db, p);
    DeadLetterMoves(m, db, op);
    hide IsDlq, Agree, MemApply, Apply, Dlq;
    if p == op.q {
      DeadLetterAtSource(m, db, op);
    } else if p == Dlq(op.q) {
      DeadLetterAtShadow(m, db, op);
    } else {
      Untouched(m, db, MemApply(m, op), Apply(false, db, op).db, p);
    }
  }

  lemma DeadLetterAtSource(m: Mem.Mem, db: Db, op: Op)
    requires op.DeadLetterOp? && op.newId !in db.rows && Is(db.rows, op.msg.id, op.q, Processing)
    requires op.msg.createdAt != ZERO_TIME && op.now > 0 && !IsDlq(op.q)
    requires Agree(m, db, op.q) && Mem.CountsOf(m, op.q) == StatsOf(db, op.q)
    ensures Agree(MemApply(m, op), Apply(false, db, op).db, op.q)
  {
    var id := op.msg.id;
    ClaimedIsNotWaiting(db, op.q, {id});
    ShadowNames(op.q);
    DeadLetterMoves(m, db, op);
    assert InsertStatus(op.q) == Pending;
    var m', db' := MemApply(m, op), Apply(false, db, op).db;
    hide IsDlq, InsertStatus, Agree, MemApply, Apply, Dlq;
    assert SameAt(db.rows - {id}, db'.rows - {id}, op.q);
    Lands(m, db, m', db', op.q, {id});
  }

  lemma DeadLetterAtShadow(m: Mem.Mem, db: Db, op: Op)
    requires op.DeadLetterOp? && op.newId !in db.rows && Is(db.rows, op.msg.id, op.q, Processing)
    requires op.msg.createdAt != ZERO_TIME && op.now > 0
    requires Agree(m, db, Dlq(op.q)) && Mem.CountsOf(m, Dlq(op.q)) == StatsOf(db, Dlq(op.q))
    ensures Agree(MemApply(m, op), Apply(false, db, op).db, Dlq(op.q))
  {
    var x := DeadLetterMessage(op.q, op.msg, op.err, op.newId, op.now);
    ShadowNames(op.q);
    DeadLetterMoves(m, db, op);
    assert InsertStatus(Dlq(op.q)) == Dead;
    var m', db' := MemApply(m, op), Apply(false, db, op).db;
    hide IsDlq, InsertStatus, Agree, MemApply, Apply, Dlq;
    assert SameAt(db.rows, db'.rows - {x.id}, Dlq(op.q));
    Joins(m, db, m', db', Dlq(op.q), x);
  }

  /** What a dead-lettering does to the two stores. */
  lemma DeadLetterMoves(m: Mem.Mem, db: Db, op: Op)
    requires op.DeadLetterOp? && op.newId !in db.rows && Is(db.rows, op.msg.id, op.q, Processing)
    requires op.msg.createdAt != ZERO_TIME && op.now > 0
    ensures var x := DeadLetterMessage(op.q, op.msg, op.err, op.newId, op.now);
            var m', tx := MemApply(m, op), Apply(false, db, op);
            && tx.outcome == Done
            && tx.db.rows.Keys == db.rows.Keys + {x.id} && tx.db.rows[x.id] == Row(x, Dead)
            && Is(tx.db.rows, op.msg.id, op.q, Dead)
            && (forall i :: i in db.rows && i != op.msg.id ==> tx.db.rows[i] == db.rows[i])
            && tx.db.stats == Bump(db, op.q, 0, 0, 0, 1)
            && m'.queues == m.queues[Dlq(op.q) := Mem.ListOf(m, Dlq(op.q)) + [x]]
            && m'.inflight == Mem.Land(m, op.q, {op.msg.id})
            && m'.counters == Mem.Bump(m, op.q, 0, 0, 0, 1)
  {
    ShadowNames(op.q);
    hide IsDlq, Dlq;
  }

  /** Looking the dead letter up in the slice finds what looking it up in the table finds. */
  lemma ReplayFinds(m: Mem.Mem, db: Db, q: string, id: Id)
    requires Agree(m, db, Dlq(q)) && WellKeyed(db.rows)
    ensures var dead := Find(Mem.ListOf(m, Dlq(q)), id);
            && (dead.Some? <==> Is(db.rows, id, Dlq(q), Dead))
            && (dead.Some? ==> dead.value in Mem.ListOf(m, Dlq(q)) && db.rows[id] == Row(dead.value, Dead)
                               && dead.value.id == id && dead.value.createdAt != ZERO_TIME)
  {
    ShadowNames(q);
    FindIs(Mem.ListOf(m, Dlq(q)), id);
    assert InsertStatus(Dlq(q)) == Dead;
    hide IsDlq, InsertStatus, Dlq;
    var dead := Find(Mem.ListOf(m, Dlq(q)), id);
    if dead.Some? {
      assert Stands(db.rows, Dlq(q), dead.value);
    }
  }

  lemma ReplayAgrees(m: Mem.Mem, db: Db, op: Op, p: string)
    requires op.ReplayOp? && Proper(m, db.rows, op) && WellKeyed(db.rows)
    requires Agree(m, db, p) && Agree(m, db, Dlq(op.q))
    ensures Agree(MemApply(m, op), Apply(false, db, op).db, p)
    ensures Apply(false, db, op).outcome == if Find(Mem.ListOf(m, Dlq(op.q)), op.id).Some? then Done else Empty
  {
    hide IsDlq, InsertStatus, Agree, Dlq, Find, KeyTaken;
    var q, id, dlq := op.q, op.id, Dlq(op.q);
    ShadowNames(q);
    ReplayFinds(m, db, q, id);
    CountsAgree(m, db, p);
    if Is(db.rows, id, dlq, Dead) {
      hide MemApply, Apply, Remove;
      var m', db' := MemApply(m, op), Apply(false, db, op).db;
      var dead := db.rows[id].msg;
      ReplayMoves(m, db, op, dead);
      var x := ReplayMessage(q, dead, op.now);
      if p == dlq {
        ReplayLeaves(m, db, m', db', p, dead);
      } else if p == q {
        var db1 := Db(db.rows - {id}, db.stats);
        Untouched(m, db, m, db1, p);
        assert db'.rows - {id} == db1.rows;
        Joins(m, db1, m', db', p, x);
      } else {
        Untouched(m, db, m', db', p);
      }
    }
  }

  /** What a replay of a dead letter does to the two stores. */
  lemma ReplayMoves(m: Mem.Mem, db: Db, op: Op, dead: Message)
    requires op.ReplayOp? && Is(db.rows, op.id, Dlq(op.q), Dead) && db.rows[op.id].msg == dead
    requires dead.id == op.id && dead.createdAt != ZERO_TIME && op.now > 0
    requires Find(Mem.ListOf(m, Dlq(op.q)), op.id) == Some(dead)
    ensures var x := ReplayMessage(op.q, dead, op.now);
            var m', tx := MemApply(m, op), Apply(false, db, op);
            && tx.outcome == Done
            && tx.db.rows == db.rows[op.id := Row(x, InsertStatus(op.q))]
            && tx.db.stats == Bump(db, Dlq(op.q), 1, 0, 0, 0)
            && Mem.ListOf(m', op.q) == Mem.ListOf(m, op.q) + [x]
            && Mem.ListOf(m', Dlq(op.q)) == Remove(Mem.ListOf(m, Dlq(op.q)), dead)
            && (forall p :: p != op.q && p != Dlq(op.q) ==> Mem.ListOf(m', p) == Mem.ListOf(m, p))
            && m'.inflight == m.inflight
            && m'.counters == Mem.Bump(m, Dlq(op.q), 1, 0, 0, 0)
  {
    ShadowNames(op.q);
    hide IsDlq, InsertStatus, Dlq, Find, Remove;
  }

  lemma ReplayLeaves(m: Mem.Mem, db: Db, m': Mem.Mem, db': Db, p: string, dead: Message)
    requires Agree(m, db, p) && WellKeyed(db.rows) && dead in Mem.ListOf(m, p)
    requires SameAt(db.rows - {dead.id}, db'.rows - {dead.id}, p)
    requires dead.id in db'.rows && db'.rows[dead.id].msg.queue != p
    requires Mem.ListOf(m', p) == Remove(Mem.ListOf(m, p), dead) && Mem.InflightOf(m', p) == Mem.InflightOf(m, p)
    requires Mem.CountsOf(m', p) == StatsOf(db', p)
    ensures Agree(m', db', p)
  {
    hide Agree, IsDlq, Remove;
    assert RemoveAll(Mem.ListOf(m, p), [dead]) == Remove(Mem.ListOf(m, p), dead) by {
      assert [dead][..0] == [];
    }
    assert Mem.IdsOf([dead]) == {dead.id};
    Leaves(m, db, m', db', p, [dead]);
  }

  // ----- runs -----

  /** What the in-process store reports. */
  function MemOutcome(m: Mem.Mem, op: Op): Outcome {
    match op
    case DequeueOp(q, limit, _, now) => if Mem.NextOut(m, q, limit, now) == [] then Empty else Done
    case ReplayOp(q, id, _) => if Find(Mem.ListOf(m, Dlq(q)), id).Some? then Done else Empty
    case _ => Done
  }

  lemma StepAgrees(m: Mem.Mem, db: Db, op: Op, p: string)
    requires Related(m, db) && Proper(m, db.rows, op)
    ensures Agree(MemApply(m, op), Apply(false, db, op).db, p)
    ensures Legal(db, op) && Apply(false, db, op).outcome == MemOutcome(m, op)
  {
    hide Agree, MemApply, Mem.NextOut, IsDlq, InsertStatus, Dlq;
    assert Agree(m, db, p);
    match op
    case EnqueueOp(_, _, _) => EnqueueAgrees(m, db, op, p);
    case EnqueueBatchOp(_, _, _) => EnqueueBatchAgrees(m, db, op, p);
    case DequeueOp(q, _, _, _) =>
      assert Agree(m, db, q);
      DequeueAgrees(m, db, op, p);
      DequeueLegal(m, db, op);
    case AckOp(q, _) =>
      assert Agree(m, db, q);
      AcksAgree(m, db, op, p);
    case AckBatchOp(q, _) =>
      assert Agree(m, db, q);
      AcksAgree(m, db, op, p);
    case RetryOp(q, _, _) =>
      assert Agree(m, db, q);
      RetryAgrees(m, db, op, p);
    case DeadLetterOp(q, _, _, _, _) =>
      assert Agree(m, db, q);
      DeadLetterAgrees(m, db, op, p);
    case ReplayOp(q, _, _) =>
      assert Agree(m, db, Dlq(q));
      ReplayAgrees(m, db, op, p);
  }

  lemma ShadowsStayIdle(m: Mem.Mem, rows: Table, op: Op)
    requires ShadowsIdle(m) && Proper(m, rows, op)
    ensures ShadowsIdle(MemApply(m, op))
  {
    hide IsDlq, Find, Mem.NextOut, RemoveAll, Remove;
  }

  /** One call: the stores stay related and report the same. */
  lemma StepRelated(m: Mem.Mem, db: Db, op: Op)
    requires Related(m, db) && Proper(m, db.rows, op)
    ensures Related(MemApply(m, op), Apply(false, db, op).db)
    ensures Legal(db, op) && Apply(false, db, op).outcome == MemOutcome(m, op)
  {
    StepAgrees(m, db, op, op.q);
    forall p ensures Agree(MemApply(m, op), Apply(false, db, op).db, p) {
      hide Apply, MemApply, Proper, Agree;
      StepAgrees(m, db, op, p);
    }
    hide Apply, MemApply, Proper, Agree, MemOutcome;
    ApplyKeyed(false, db, op);
    ShadowsStayIdle(m, db.rows, op);
  }
}
