/** The broker in front of a SQL store: dispatch, handler outcomes, direct and batched
    acknowledgements, retries, dead letters, replays, reclaims and crashes, interleaved in any
    order and with any store call failing. No accepted message is lost or altered before a
    handler completes it. */
module Delivery {
  import opened Naming
  import opened Messages
  import opened SqlMachine
  import opened Arithmetic
  import A = AckBuffer

  datatype Phase = Fetched | Succeeded | Failed

  /** One delivery in progress: a goroutine holding a fetched message. */
  datatype Worker = Worker(queue: string, msg: Message, phase: Phase)

  /** Where rows come from: the messages as accepted, and for each row id ever used the accepted
      message it stands for (a dead letter gets a new id). */
  datatype Lineage = Lineage(accepted: map<Id, Message>, origin: map<Id, Id>) {
    predicate Knows(id: Id) {
      id in origin && origin[id] in accepted
    }

    /** Never used, neither for a row nor for an accepted message. */
    predicate Fresh(id: Id) {
      id !in origin && id !in accepted
    }

    function Of(id: Id): Message
      requires Knows(id)
    {
      accepted[origin[id]]
    }
  }

  /** The store survives a crash; workers and the ack buffer do not. The rest is history:
      lineage, the messages a handler completed, and the failed handler runs the store recorded. */
  datatype Sys = Sys(
    db: Db,
    workers: map<nat, Worker>,
    acks: A.Acks,
    lineage: Lineage,
    completed: set<Id>,
    failures: map<Id, nat>)

  const START := Sys(EMPTY_DB, map[], A.NO_ACKS, Lineage(map[], map[]), {}, map[])

  /** A dispatcher's batch claim appears as one Fetch per row (see ClaimsCompose). `n` is the
      MaxRetries of the handler registered when the event happens; `up` says whether the store call
      of the event goes through. */
  datatype Event =
    | Accept(q: string, msg: Message, now: Time)
    | Fetch(q: string, id: Id, w: nat, now: Time)
    | Invoke(w: nat, n: nat, ok: bool)
    | AckNow(w: nat, up: bool)
    | AckLater(w: nat)
    | TakeAcks(q: string)
    | FlushOk(i: nat)
    | FlushFailed(i: nat)
    | GiveUp(w: nat, n: nat, newId: Id, now: Time, up: bool)
    | Resolve(w: nat, n: nat, due: Time, newId: Id, now: Time, up: bool)
    | ReplayDead(q: string, id: Id, now: Time)
    | ReclaimQueue(q: string)
    | Crash

  predicate InPhase(s: Sys, w: nat, phase: Phase) {
    w in s.workers && s.workers[w].phase == phase
  }

  /** Over the retry cap: dead-lettered without running the handler. */
  predicate Capped(msg: Message, n: nat) {
    n > 0 && msg.attempts > n
  }

  predicate Enabled(s: Sys, e: Event) {
    match e
    case Accept(q, msg, now) =>
      ValidQueueName(q) && s.lineage.Fresh(msg.id) && msg.attempts == 0 && now != ZERO_TIME
    case Fetch(q, id, w, now) => w !in s.workers && id in Due(s.db.rows, q, now)
    case Invoke(w, n, _) => InPhase(s, w, Fetched) && !Capped(s.workers[w].msg, n)
    case AckNow(w, _) => InPhase(s, w, Succeeded)
    case AckLater(w) => InPhase(s, w, Succeeded)
    case TakeAcks(q) => A.Enabled(s.acks, A.Take(q))
    case FlushOk(i) => A.Enabled(s.acks, A.Succeed(i))
    case FlushFailed(i) => A.Enabled(s.acks, A.Fail(i))
    case GiveUp(w, n, newId, now, _) =>
      InPhase(s, w, Fetched) && Capped(s.workers[w].msg, n) && s.lineage.Fresh(newId) && now != ZERO_TIME
    case Resolve(w, n, _, newId, now, _) =>
      InPhase(s, w, Failed) && s.lineage.Fresh(newId) && now != ZERO_TIME
    case ReplayDead(_, _, now) => now != ZERO_TIME
    case ReclaimQueue(_) => true
    case Crash => true
  }

  function Origin(s: Sys, id: Id): Id {
    if id in s.lineage.origin then s.lineage.origin[id] else id
  }

  function FailuresOf(s: Sys, l: Id): nat {
    if l in s.failures then s.failures[l] else 0
  }

  /** The dead-letter transaction of a worker, and what it adds to the lineage. */
  function Bury(indexed: bool, s: Sys, w: Worker, msg: Message, newId: Id, now: Time): Sys {
    var tx := DeadLetter(indexed, s.db, w.queue, msg, Some("failed"), newId, now);
    if tx.outcome != Done then s
    else s.(db := tx.db,
            lineage := s.lineage.(origin := s.lineage.origin[newId := Origin(s, msg.id)]))
  }

  /** A failed handler: one more attempt on the message, then retry or, over the budget, bury. */
  function Settle(indexed: bool, s: Sys, w: Worker, n: nat, due: Time, newId: Id, now: Time): Sys {
    var msg := w.msg.(attempts := w.msg.attempts + 1);
    if msg.attempts > n then
      if DeadLetter(indexed, s.db, w.queue, msg, Some("failed"), newId, now).outcome == Done
      then Record(Bury(indexed, s, w, msg, newId, now), Origin(s, msg.id)) else s
    else
      var tx := Retry(indexed, s.db, w.queue, msg.(scheduledAt := due), now);
      if tx.outcome == Done then Record(s.(db := tx.db), Origin(s, msg.id)) else s
  }

  function Record(s: Sys, l: Id): Sys {
    s.(failures := s.failures[l := FailuresOf(s, l) + 1])
  }

  function Step(indexed: bool, s: Sys, e: Event): Sys
    requires Enabled(s, e)
  {
    match e
    case Accept(q, msg, now) =>
      var tx := Enqueue(indexed, s.db, q, msg, now);
      if tx.outcome != Done then s
      else s.(db := tx.db,
              lineage := Lineage(s.lineage.accepted[msg.id := tx.db.rows[msg.id].msg],
                                 s.lineage.origin[msg.id := msg.id]))
    case Fetch(q, id, w, now) =>
      s.(db := Dequeue(s.db, {id}), workers := s.workers[w := Worker(q, s.db.rows[id].msg, Fetched)])
    case Invoke(w, _, ok) =>
      var worker := s.workers[w];
      if ok
      then s.(workers := s.workers[w := worker.(phase := Succeeded)],
              completed := s.completed + {Origin(s, worker.msg.id)})
      else s.(workers := s.workers[w := worker.(phase := Failed)])
    case AckNow(w, up) =>
      var worker := s.workers[w];
      s.(workers := s.workers - {w}, db := if up then Ack(s.db, worker.queue, worker.msg.id) else s.db)
    case AckLater(w) =>
      var worker := s.workers[w];
      s.(workers := s.workers - {w}, acks := A.Step(s.acks, A.Pass(worker.queue, worker.msg.id)))
    case TakeAcks(q) => s.(acks := A.Step(s.acks, A.Take(q)))
    case FlushOk(i) =>
      var b := s.acks.flushing[i];
      s.(acks := A.Step(s.acks, A.Succeed(i)), db := AckBatch(s.db, b.queue, b.ids))
    case FlushFailed(i) => s.(acks := A.Step(s.acks, A.Fail(i)))
    case GiveUp(w, n, newId, now, up) =>
      var worker := s.workers[w];
      (if up then Bury(indexed, s, worker, worker.msg, newId, now) else s).(workers := s.workers - {w})
    case Resolve(w, n, due, newId, now, up) =>
      var worker := s.workers[w];
      (if up then Settle(indexed, s, worker, n, due, newId, now) else s).(workers := s.workers - {w})
    case ReplayDead(q, id, now) => s.(db := Replay(indexed, s.db, q, id, now).db)
    case ReclaimQueue(q) => s.(db := Reclaim(s.db, q))
    case Crash => s.(db := ReclaimAll(s.db), workers := map[], acks := A.NO_ACKS)
  }

  /** Claiming one row more: it is still due after the rows before it were claimed, claiming it too
      is claiming them together, and it counts one towards the limit. */
  lemma ClaimsCompose(db: Db, q: string, now: Time, pick: set<Id>, id: Id)
    requires pick + {id} <= Due(db.rows, q, now) && id !in pick
    ensures id in Due(Dequeue(db, pick).rows, q, now)
    ensures Dequeue(Dequeue(db, pick), {id}) == Dequeue(db, pick + {id})
    ensures |pick + {id}| == |pick| + 1
  {
    assert Dequeue(Dequeue(db, pick), {id}).rows == Dequeue(db, pick + {id}).rows;
  }

  ghost predicate IsRun(indexed: bool, trace: seq<Sys>, events: seq<Event>) {
    && |trace| == |events| + 1
    && trace[0] == START
    && forall i :: 0 <= i < |events| ==> Enabled(trace[i], events[i]) && trace[i + 1] == Step(indexed, trace[i], events[i])
  }

  lemma RunThen(indexed: bool, trace: seq<Sys>, events: seq<Event>, e: Event)
    requires IsRun(indexed, trace, events) && Enabled(trace[|events|], e)
    ensures IsRun(indexed, trace + [Step(indexed, trace[|events|], e)], events + [e])
  {
    hide Step, Enabled;
  }

  /** A stretch of the machine from any state. */
  ghost predicate IsPath(indexed: bool, trace: seq<Sys>, events: seq<Event>) {
    && |trace| == |events| + 1
    && forall i :: 0 <= i < |events| ==> Enabled(trace[i], events[i]) && trace[i + 1] == Step(indexed, trace[i], events[i])
  }

  lemma PathThen(indexed: bool, trace: seq<Sys>, events: seq<Event>, e: Event)
    requires IsPath(indexed, trace, events) && Enabled(trace[|events|], e)
    ensures IsPath(indexed, trace + [Step(indexed, trace[|events|], e)], events + [e])
  {
    hide Step, Enabled;
  }

  ghost predicate HasNewWorker(s: Sys, s': Sys, worker: Worker) {
    exists w :: w in s'.workers && w !in s.workers && s'.workers[w] == worker
  }

  /** Each row of `pick` is claimed and has gone to one new worker, as it was. */
  ghost predicate Handed(s: Sys, s': Sys, q: string, pick: set<Id>) {
    && s'.db == Dequeue(s.db, pick)
    && (forall w :: w in s.workers ==> w in s'.workers && s'.workers[w] == s.workers[w])
    && (forall id :: id in pick && id in s.db.rows ==> HasNewWorker(s, s', Worker(q, s.db.rows[id].msg, Fetched)))
  }

  /** A claim of up to `limit` due rows is that many Fetch steps: the table after them is the one after
      the single claim, and each row claimed has gone to one new worker, as it was. */
  lemma {:induction false} BatchIsFetches(indexed: bool, s: Sys, q: string, now: Time, pick: set<Id>)
    returns (trace: seq<Sys>, events: seq<Event>)
    requires pick <= Due(s.db.rows, q, now)
    ensures IsPath(indexed, trace, events) && trace[0] == s && |events| == |pick|
    ensures forall i :: 0 <= i < |events| ==> events[i].Fetch?
    ensures Handed(s, trace[|events|], q, pick)
  {
    if pick == {} {
      trace, events := [s], [];
      assert Dequeue(s.db, {}).rows == s.db.rows;
    } else {
      hide Step, Enabled, Due, Handed;
      var id :| id in pick;
      var t, es := BatchIsFetches(indexed, s, q, now, pick - {id});
      var w := Beyond(t[|es|].workers.Keys);
      assert pick - {id} + {id} == pick;
      FetchOneMore(indexed, s, t[|es|], q, now, pick - {id}, id, w);
      PathThen(indexed, t, es, Fetch(q, id, w, now));
      trace, events := t + [Step(indexed, t[|es|], Fetch(q, id, w, now))], es + [Fetch(q, id, w, now)];
    }
  }

  lemma FetchOneMore(indexed: bool, s: Sys, t: Sys, q: string, now: Time, pick: set<Id>, id: Id, w: nat)
    requires Handed(s, t, q, pick) && pick + {id} <= Due(s.db.rows, q, now) && id !in pick && w !in t.workers
    ensures Enabled(t, Fetch(q, id, w, now))
    ensures Handed(s, Step(indexed, t, Fetch(q, id, w, now)), q, pick + {id})
  {
    ClaimsCompose(s.db, q, now, pick, id);
    var s' := Step(indexed, t, Fetch(q, id, w, now));
    assert s'.workers[w] == Worker(q, s.db.rows[id].msg, Fetched);
    forall x | x in pick + {id} && x in s.db.rows ensures HasNewWorker(s, s', Worker(q, s.db.rows[x].msg, Fetched)) {
      StillNew(s, t, s', w, Worker(q, s.db.rows[x].msg, Fetched));
    }
  }

  lemma StillNew(s: Sys, t: Sys, s': Sys, w: nat, worker: Worker)
    requires w !in s.workers && w !in t.workers && w in s'.workers && s'.workers == t.workers[w := s'.workers[w]]
    requires HasNewWorker(s, t, worker) || s'.workers[w] == worker
    ensures HasNewWorker(s, s', worker)
  {
    if HasNewWorker(s, t, worker) {
      var v :| v in t.workers && v !in s.workers && t.workers[v] == worker;
      assert s'.workers[v] == worker;
    }
  }

  // ----- what every table of a run satisfies -----

  /** A row is a faithful copy of the message it stands for, in that message's queue or, dead, in
      its shadow queue. */
  ghost predicate Faithful(lin: Lineage, id: Id, row: Row) {
    && lin.Knows(id)
    && row.msg.id == id
    && SameContent(row.msg, lin.Of(id))
    && (row.msg.queue == lin.Of(id).queue || (row.msg.queue == Dlq(lin.Of(id).queue) && row.status == Dead))
  }

  /** A dead row that DeadLetter left in the message's own queue. */
  predicate Tombstone(lin: Lineage, row: Row, id: Id)
    requires lin.Knows(id)
  {
    row.status == Dead && row.msg.queue == lin.Of(id).queue
  }

  /** The row that carries message `l` now. */
  ghost predicate Carries(lin: Lineage, rows: Table, l: Id, id: Id) {
    id in rows && lin.Knows(id) && lin.origin[id] == l && !Tombstone(lin, rows[id], id)
  }

  ghost predicate AcceptedOk(lin: Lineage) {
    && (forall id :: id in lin.origin ==> lin.Knows(id))
    && (forall l :: l in lin.accepted ==>
          ValidQueueName(lin.accepted[l].queue) && lin.accepted[l].createdAt != ZERO_TIME)
  }

  ghost predicate AllFaithful(lin: Lineage, rows: Table) {
    forall id :: id in rows ==> Faithful(lin, id, rows[id])
  }

  ghost predicate OneCarrier(lin: Lineage, rows: Table) {
    forall l, a, b :: Carries(lin, rows, l, a) && Carries(lin, rows, l, b) ==> a == b
  }

  ghost predicate HasCarrier(lin: Lineage, rows: Table, l: Id) {
    exists id :: Carries(lin, rows, l, id)
  }

  ghost predicate NoneLost(lin: Lineage, rows: Table, completed: set<Id>) {
    forall l :: l in lin.accepted && l !in completed ==> HasCarrier(lin, rows, l)
  }

  ghost predicate TableOk(lin: Lineage, rows: Table, completed: set<Id>) {
    AcceptedOk(lin) && AllFaithful(lin, rows) && OneCarrier(lin, rows) && NoneLost(lin, rows, completed)
  }

  /** A worker holds a faithful copy; once the handler succeeded the message is completed. */
  ghost predicate WorkerOk(lin: Lineage, completed: set<Id>, w: Worker) {
    && lin.Knows(w.msg.id)
    && SameContent(w.msg, lin.Of(w.msg.id))
    && w.queue == lin.Of(w.msg.id).queue
    && (w.phase == Succeeded ==> lin.origin[w.msg.id] in completed)
  }

  ghost predicate WorkersOk(s: Sys) {
    forall w :: w in s.workers ==> WorkerOk(s.lineage, s.completed, s.workers[w])
  }

  /** Only ids of completed messages are ever waiting to be acknowledged. */
  ghost predicate IdsDone(lin: Lineage, completed: set<Id>, ids: seq<Id>) {
    forall id :: id in ids ==> lin.Knows(id) && lin.origin[id] in completed
  }

  ghost predicate AcksOk(s: Sys) {
    && (forall q :: q in s.acks.pending ==> IdsDone(s.lineage, s.completed, s.acks.pending[q]))
    && (forall i :: 0 <= i < |s.acks.flushing| ==> IdsDone(s.lineage, s.completed, s.acks.flushing[i].ids))
  }

  ghost predicate Inv(s: Sys) {
    && TableOk(s.lineage, s.db.rows, s.completed)
    && WorkersOk(s)
    && AcksOk(s)
  }

  // ----- the ways a table changes -----

  /** Carriers may only move from one table to the next, message by message. */
  ghost predicate Moved(lin: Lineage, rows: Table, lin': Lineage, rows': Table, l: Id) {
    && (forall a, b :: Carries(lin', rows', l, a) && Carries(lin', rows', l, b) ==> a == b)
    && (HasCarrier(lin, rows, l) ==> HasCarrier(lin', rows', l))
  }

  lemma StaysOk(lin: Lineage, rows: Table, lin': Lineage, rows': Table, completed: set<Id>)
    requires TableOk(lin, rows, completed) && AcceptedOk(lin') && AllFaithful(lin', rows')
    requires forall l :: l in lin'.accepted && l !in completed ==> l in lin.accepted || HasCarrier(lin', rows', l)
    requires forall l :: Moved(lin, rows, lin', rows', l)
    ensures TableOk(lin', rows', completed)
  {
    hide Carries, HasCarrier, Faithful;
    forall l, a, b | Carries(lin', rows', l, a) && Carries(lin', rows', l, b) ensures a == b {
      assert Moved(lin, rows, lin', rows', l);
    }
    forall l | l in lin'.accepted && l !in completed ensures HasCarrier(lin', rows', l) {
      assert Moved(lin, rows, lin', rows', l);
    }
  }

  /** Nothing moved: the same rows carry the same messages. */
  lemma SameCarriers(lin: Lineage, rows: Table, rows': Table, completed: set<Id>)
    requires TableOk(lin, rows, completed) && AllFaithful(lin, rows')
    requires forall l, id :: Carries(lin, rows', l, id) ==> Carries(lin, rows, l, id)
    requires forall l, id :: l !in completed && Carries(lin, rows, l, id) ==> Carries(lin, rows', l, id)
    ensures TableOk(lin, rows', completed)
  {
    hide Carries, Faithful;
    forall l | l !in completed && HasCarrier(lin, rows, l) ensures HasCarrier(lin, rows', l) {
      var id :| Carries(lin, rows, l, id);
      assert Carries(lin, rows', l, id);
    }
  }

  lemma Shuffled(lin: Lineage, rows: Table, rows': Table, completed: set<Id>)
    requires TableOk(lin, rows, completed)
    requires rows'.Keys == rows.Keys
    requires forall id :: id in rows ==> rows'[id].msg == rows[id].msg && (rows'[id].status == Dead <==> rows[id].status == Dead)
    ensures TableOk(lin, rows', completed)
  {
    SameCarriers(lin, rows, rows', completed);
  }

  lemma Acknowledged(lin: Lineage, rows: Table, gone: set<Id>, completed: set<Id>)
    requires TableOk(lin, rows, completed)
    requires forall id :: id in gone ==> lin.Knows(id) && lin.origin[id] in completed
    ensures TableOk(lin, rows - gone, completed)
  {
    SameCarriers(lin, rows, rows - gone, completed);
  }

  /** The carrying row is rewritten in place and goes on carrying. */
  lemma Rewritten(lin: Lineage, rows: Table, id: Id, row: Row, completed: set<Id>)
    requires TableOk(lin, rows, completed) && id in rows
    requires Faithful(lin, id, row) && !Tombstone(lin, row, id)
    requires Faithful(lin, id, rows[id]) && !Tombstone(lin, rows[id], id)
    ensures TableOk(lin, rows[id := row], completed)
  {
    SameCarriers(lin, rows, rows[id := row], completed);
  }

  /** `lin'` is `lin` with the fresh row id standing for the same message as `id`. */
  ghost predicate Renamed(lin: Lineage, lin': Lineage, id: Id, newId: Id) {
    && id in lin.origin && lin.Fresh(newId)
    && lin'.accepted == lin.accepted
    && lin'.origin == lin.origin[newId := lin.origin[id]]
  }

  /** The carrying row becomes a tombstone and a fresh row carries on in its place. */
  lemma Buried(lin: Lineage, lin': Lineage, rows: Table, id: Id, tomb: Row, newId: Id, letter: Row, completed: set<Id>)
    requires TableOk(lin, rows, completed) && id in rows && Renamed(lin, lin', id, newId)
    requires Faithful(lin, id, tomb) && Tombstone(lin, tomb, id) && !Tombstone(lin, rows[id], id)
    requires Faithful(lin', newId, letter) && !Tombstone(lin', letter, newId)
    ensures TableOk(lin', rows[newId := letter][id := tomb], completed)
  {
    hide Faithful, HasCarrier, Moved, Carries, OneCarrier, NoneLost, Tombstone;
    var rows' := rows[newId := letter][id := tomb];
    BuriedFaithful(lin, lin', rows, id, tomb, newId, letter);
    forall l ensures Moved(lin, rows, lin', rows', l) {
      BuriedCarriers(lin, lin', rows, id, tomb, newId, letter, l);
    }
    StaysOk(lin, rows, lin', rows', completed);
  }

  lemma BuriedFaithful(lin: Lineage, lin': Lineage, rows: Table, id: Id, tomb: Row, newId: Id, letter: Row)
    requires AcceptedOk(lin) && AllFaithful(lin, rows) && Renamed(lin, lin', id, newId)
    requires id in rows && Faithful(lin, id, tomb) && Faithful(lin', newId, letter)
    ensures AcceptedOk(lin') && newId !in rows && AllFaithful(lin', rows[newId := letter][id := tomb])
  {
    hide SameContent, Dlq, ValidQueueName;
    forall x | x in rows && x != id ensures Faithful(lin', x, rows[x]) {
      assert Faithful(lin, x, rows[x]);
    }
  }

  lemma BuriedCarriers(lin: Lineage, lin': Lineage, rows: Table, id: Id, tomb: Row, newId: Id, letter: Row, l: Id)
    requires OneCarrier(lin, rows) && AcceptedOk(lin) && id in rows && newId !in rows && Renamed(lin, lin', id, newId)
    requires !Tombstone(lin, rows[id], id) && Tombstone(lin, tomb, id) && lin'.Knows(newId) && !Tombstone(lin', letter, newId)
    ensures Moved(lin, rows, lin', rows[newId := letter][id := tomb], l)
  {
    var rows' := rows[newId := letter][id := tomb];
    assert forall x :: x != newId && x != id ==> (Carries(lin', rows', l, x) <==> Carries(lin, rows, l, x));
    assert !Carries(lin', rows', l, id);
    if l == lin.origin[id] {
      assert Carries(lin, rows, l, id) && Carries(lin', rows', l, newId);
      assert forall x :: Carries(lin, rows, l, x) ==> x == id;
    } else {
      assert !Carries(lin', rows', l, newId) && !Carries(lin, rows, l, id);
      if HasCarrier(lin, rows, l) {
        var x :| Carries(lin, rows, l, x);
        assert Carries(lin', rows', l, x);
      }
    }
  }

  lemma Arrived(lin: Lineage, rows: Table, id: Id, row: Row, completed: set<Id>)
    requires TableOk(lin, rows, completed) && lin.Fresh(id)
    requires row.msg.id == id && row.status != Dead
    requires ValidQueueName(row.msg.queue) && row.msg.createdAt != ZERO_TIME
    ensures TableOk(Lineage(lin.accepted[id := row.msg], lin.origin[id := id]), rows[id := row], completed)
  {
    hide ValidQueueName;
    var lin' := Lineage(lin.accepted[id := row.msg], lin.origin[id := id]);
    var rows' := rows[id := row];
    assert id !in rows;
    assert Carries(lin', rows', id, id);
    forall l ensures Moved(lin, rows, lin', rows', l) {
      assert forall x :: x != id ==> (Carries(lin', rows', l, x) <==> Carries(lin, rows, l, x));
      if HasCarrier(lin, rows, l) {
        var x :| Carries(lin, rows, l, x);
        assert Carries(lin', rows', l, x);
      }
    }
    assert AcceptedOk(lin') && AllFaithful(lin', rows');
    hide Carries, Faithful, AcceptedOk, AllFaithful;
    StaysOk(lin, rows, lin', rows', completed);
  }
}
