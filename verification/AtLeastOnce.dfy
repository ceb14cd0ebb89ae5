/** At-least-once delivery over whole runs of the broker on a SQL store. */
module AtLeastOnce {
  import opened Naming
  import opened Messages
  import opened SqlMachine
  import opened Arithmetic
  import opened Delivery
  import A = AckBuffer

  /** History only grows. */
  ghost predicate Extends(s: Sys, s': Sys) {
    && (forall id :: s.lineage.Knows(id) ==>
          && s'.lineage.Knows(id)
          && s'.lineage.origin[id] == s.lineage.origin[id]
          && s'.lineage.Of(id) == s.lineage.Of(id))
    && s.completed <= s'.completed
  }

  lemma WorkerStays(s: Sys, s': Sys, w: Worker)
    requires Extends(s, s') && WorkerOk(s.lineage, s.completed, w)
    ensures WorkerOk(s'.lineage, s'.completed, w)
  {
  }

  lemma IdsStay(s: Sys, s': Sys, ids: seq<Id>)
    requires Extends(s, s') && IdsDone(s.lineage, s.completed, ids)
    ensures IdsDone(s'.lineage, s'.completed, ids)
  {
  }

  /** Volatile state that only shrinks stays in order as history grows. */
  lemma VolatileStays(s: Sys, s': Sys)
    requires WorkersOk(s) && AcksOk(s) && Extends(s, s') && s'.acks == s.acks
    requires forall w :: w in s'.workers ==> w in s.workers && s'.workers[w] == s.workers[w]
    ensures WorkersOk(s') && AcksOk(s')
  {
    hide Extends, WorkerOk, IdsDone;
    forall w | w in s'.workers ensures WorkerOk(s'.lineage, s'.completed, s'.workers[w]) {
      WorkerStays(s, s', s.workers[w]);
    }
    forall q | q in s.acks.pending ensures IdsDone(s'.lineage, s'.completed, s.acks.pending[q]) {
      IdsStay(s, s', s.acks.pending[q]);
    }
    forall i | 0 <= i < |s.acks.flushing| ensures IdsDone(s'.lineage, s'.completed, s.acks.flushing[i].ids) {
      IdsStay(s, s', s.acks.flushing[i].ids);
    }
  }

  lemma RowsKnown(s: Sys)
    requires Inv(s)
    ensures forall id :: id in s.db.rows ==> s.lineage.Knows(id) && s.db.rows[id].msg.id == id
  {
    hide AcceptedOk, OneCarrier, NoneLost, WorkersOk, AcksOk, SameContent, Dlq;
    forall id | id in s.db.rows ensures s.lineage.Knows(id) && s.db.rows[id].msg.id == id {
      assert Faithful(s.lineage, id, s.db.rows[id]);
    }
  }

  lemma WorkersKnown(s: Sys)
    requires Inv(s)
    ensures forall w :: w in s.workers ==>
              s.lineage.Knows(s.workers[w].msg.id) && s.workers[w].queue == s.lineage.Of(s.workers[w].msg.id).queue
              && !IsDlq(s.workers[w].queue)
  {
    hide AllFaithful, OneCarrier, NoneLost, AcksOk, SameContent;
    forall w | w in s.workers
      ensures s.lineage.Knows(s.workers[w].msg.id) && s.workers[w].queue == s.lineage.Of(s.workers[w].msg.id).queue
      ensures !IsDlq(s.workers[w].queue)
    {
      assert WorkerOk(s.lineage, s.completed, s.workers[w]);
      assert ValidQueueName(s.lineage.Of(s.workers[w].msg.id).queue);
    }
  }

  lemma FreshId(s: Sys) returns (id: Id)
    requires Inv(s)
    ensures s.lineage.Fresh(id) && id !in s.db.rows
  {
    RowsKnown(s);
    var used := set x | x in s.lineage.origin.Keys + s.lineage.accepted.Keys && x.serial >= 0 :: x.serial;
    var k := Beyond(used);
    id := Id(k);
    assert id in s.lineage.origin.Keys + s.lineage.accepted.Keys ==> k in used;
  }

  lemma AcceptKeeps(indexed: bool, s: Sys, e: Event)
    requires e.Accept? && Inv(s) && Enabled(s, e)
    ensures Inv(Step(indexed, s, e))
  {
    hide TableOk, WorkersOk, AcksOk, ValidQueueName, KeyTaken;
    var s' := Step(indexed, s, e);
    if s' != s {
      ShadowNames(e.q);
      Arrived(s.lineage, s.db.rows, e.msg.id, s'.db.rows[e.msg.id], s.completed);
      VolatileStays(s, s');
    }
  }

  lemma FetchKeeps(indexed: bool, s: Sys, e: Event)
    requires e.Fetch? && Inv(s) && Enabled(s, e)
    ensures Inv(Step(indexed, s, e))
  {
    var s' := Step(indexed, s, e);
    FetchedWorker(s, e.q, e.id, e.now);
    hide TableOk, AcksOk, WorkerOk;
    Shuffled(s.lineage, s.db.rows, s'.db.rows, s.completed);
    AcksFrame(s, s');
  }

  lemma FetchedWorker(s: Sys, q: string, id: Id, now: Time)
    requires AllFaithful(s.lineage, s.db.rows) && AcceptedOk(s.lineage) && id in Due(s.db.rows, q, now)
    ensures WorkerOk(s.lineage, s.completed, Worker(q, s.db.rows[id].msg, Fetched))
  {
    hide Dlq, SameContent, ValidQueueName;
    assert Faithful(s.lineage, id, s.db.rows[id]);
  }

  lemma AcksFrame(s: Sys, s': Sys)
    requires AcksOk(s) && s'.acks == s.acks && s'.lineage == s.lineage && s'.completed == s.completed
    ensures AcksOk(s')
  {
  }

  lemma InvokeKeeps(indexed: bool, s: Sys, e: Event)
    requires e.Invoke? && Inv(s) && Enabled(s, e)
    ensures Inv(Step(indexed, s, e))
  {
    hide SameContent, Faithful, AcceptedOk, AllFaithful, OneCarrier, HasCarrier, WorkersOk, AcksOk;
    var s' := Step(indexed, s, e);
    var rest := s.(workers := s.workers - {e.w}, completed := s'.completed);
    VolatileStays(s, rest);
    InvokedWorker(s, e.w, s'.workers[e.w], rest);
    AcksFrame(rest, s');
  }

  lemma InvokedWorker(s: Sys, w: nat, worker: Worker, rest: Sys)
    requires WorkersOk(s) && WorkersOk(rest) && w in s.workers && rest.workers == s.workers - {w}
    requires rest.lineage == s.lineage && s.completed <= rest.completed
    requires worker == s.workers[w].(phase := worker.phase)
    requires worker.phase == Succeeded ==> Origin(s, worker.msg.id) in rest.completed
    ensures WorkersOk(rest.(workers := s.workers[w := worker]))
  {
    var s' := rest.(workers := s.workers[w := worker]);
    assert WorkerOk(s.lineage, s.completed, s.workers[w]);
    forall v | v in s'.workers ensures WorkerOk(s'.lineage, s'.completed, s'.workers[v]) {
      if v != w {
        assert v in rest.workers;
      }
    }
  }

  lemma AckNowKeeps(indexed: bool, s: Sys, e: Event)
    requires e.AckNow? && Inv(s) && Enabled(s, e)
    ensures Inv(Step(indexed, s, e))
  {
    hide TableOk, AcksOk;
    var s' := Step(indexed, s, e);
    var id := s.workers[e.w].msg.id;
    assert WorkerOk(s.lineage, s.completed, s.workers[e.w]);
    if s'.db != s.db {
      Acknowledged(s.lineage, s.db.rows, {id}, s.completed);
    }
    VolatileStays(s, s');
  }

  lemma BufferKeeps(indexed: bool, s: Sys, e: Event)
    requires e.AckLater? || e.TakeAcks? || e.FlushFailed?
    requires Inv(s) && Enabled(s, e)
    ensures Inv(Step(indexed, s, e))
  {
    hide TableOk, SameContent;
    if e.AckLater? {
      assert WorkerOk(s.lineage, s.completed, s.workers[e.w]);
    }
  }

  lemma FlushOkKeeps(indexed: bool, s: Sys, e: Event)
    requires e.FlushOk? && Inv(s) && Enabled(s, e)
    ensures Inv(Step(indexed, s, e))
  {
    hide TableOk, WorkerOk;
    var b := s.acks.flushing[e.i];
    var gone := Ackable(s.db, b.queue, b.ids);
    if gone != {} {
      Acknowledged(s.lineage, s.db.rows, gone, s.completed);
    }
  }

  lemma BuryKeeps(indexed: bool, s: Sys, w: Worker, msg: Message, newId: Id, now: Time)
    requires Inv(s) && WorkerOk(s.lineage, s.completed, w) && msg == w.msg.(attempts := msg.attempts)
    requires s.lineage.Fresh(newId) && now != ZERO_TIME
    ensures var s' := Bury(indexed, s, w, msg, newId, now);
            && TableOk(s'.lineage, s'.db.rows, s'.completed) && Extends(s, s')
            && s'.workers == s.workers && s'.acks == s.acks && s'.completed == s.completed
  {
    hide WorkersOk, AcksOk, IsDlq, KeyTaken, OneCarrier, NoneLost;
    var s' := Bury(indexed, s, w, msg, newId, now);
    if s' != s {
      var rows, id, home := s.db.rows, msg.id, s.lineage.Of(msg.id).queue;
      ShadowNames(home);
      assert Faithful(s.lineage, id, rows[id]);
      var tomb, letter := s'.db.rows[id], s'.db.rows[newId];
      assert s'.db.rows == rows[newId := letter][id := tomb];
      assert SameContent(letter.msg, s.lineage.Of(id));
      Buried(s.lineage, s'.lineage, rows, id, tomb, newId, letter, s.completed);
    }
  }

  lemma RetryKeeps(indexed: bool, s: Sys, w: Worker, msg: Message, now: Time)
    requires Inv(s) && WorkerOk(s.lineage, s.completed, w)
    requires msg == w.msg.(attempts := msg.attempts, scheduledAt := msg.scheduledAt)
    ensures TableOk(s.lineage, Retry(indexed, s.db, w.queue, msg, now).db.rows, s.completed)
  {
    hide WorkersOk, AcksOk, IsDlq, KeyTaken, OneCarrier, NoneLost;
    var tx := Retry(indexed, s.db, w.queue, msg, now);
    if tx.outcome == Done {
      var rows, id := s.db.rows, msg.id;
      assert Faithful(s.lineage, id, rows[id]);
      ShadowNames(w.queue);
      assert s.lineage.Of(id).createdAt != ZERO_TIME && !IsDlq(w.queue);
      assert tx.db.rows == rows[id := tx.db.rows[id]];
      Rewritten(s.lineage, rows, id, tx.db.rows[id], s.completed);
    }
  }

  lemma FailureKeeps(indexed: bool, s: Sys, e: Event)
    requires e.GiveUp? || e.Resolve?
    requires Inv(s) && Enabled(s, e)
    ensures Inv(Step(indexed, s, e))
  {
    hide TableOk, WorkerOk, DeadLetter, Retry, AcksOk, Extends;
    var s', w := Step(indexed, s, e), s.workers[e.w];
    assert WorkerOk(s.lineage, s.completed, w);
    assert Extends(s, s) by {
      ExtendsSelf(s, s);
    }
    if e.GiveUp? {
      BuryKeeps(indexed, s, w, w.msg, e.newId, e.now);
      ExtendsSame(s, Bury(indexed, s, w, w.msg, e.newId, e.now), s');
    } else {
      var msg := w.msg.(attempts := w.msg.attempts + 1);
      BuryKeeps(indexed, s, w, msg, e.newId, e.now);
      RetryKeeps(indexed, s, w, msg.(scheduledAt := e.due), e.now);
      ExtendsSame(s, Bury(indexed, s, w, msg, e.newId, e.now), s');
    }
    VolatileStays(s, s');
  }

  lemma ExtendsSelf(s: Sys, s': Sys)
    requires s'.lineage == s.lineage && s'.completed == s.completed
    ensures Extends(s, s')
  {
  }

  lemma ExtendsSame(s: Sys, t: Sys, s': Sys)
    requires Extends(s, t)
    ensures s'.lineage == t.lineage && s'.completed == t.completed ==> Extends(s, s')
    ensures s'.lineage == s.lineage && s'.completed == s.completed ==> Extends(s, s')
  {
  }

  /** A replay that goes through rewrites the row of a dead letter, which carries its message before and
      after. */
  lemma ReplayedCarries(indexed: bool, s: Sys, e: Event)
    requires e.ReplayDead? && Inv(s) && Enabled(s, e) && Replay(indexed, s.db, e.q, e.id, e.now).outcome == Done
    ensures var s', l := Step(indexed, s, e), Origin(s, e.id);
            && s' == s.(db := s'.db) && e.id in s'.db.rows
            && s'.db.rows == s.db.rows[e.id := s'.db.rows[e.id]]
            && s'.db.rows[e.id].msg.attempts == s.db.rows[e.id].msg.attempts
            && Is(s.db.rows, e.id, Dlq(e.q), SqlMachine.Dead) && Is(s'.db.rows, e.id, e.q, SqlMachine.Pending)
            && l in s.lineage.accepted && s.lineage.accepted[l].queue == e.q
            && Carries(s.lineage, s.db.rows, l, e.id) && Carries(s.lineage, s'.db.rows, l, e.id)
  {
    DeadLetterOf(s, e);
    RowsKnown(s);
    hide Inv, IsDlq, Dlq, KeyTaken, Lineage.Of;
  }

  /** A row of a shadow queue stands for a message of its source queue. */
  lemma DeadLetterOf(s: Sys, e: Event)
    requires e.ReplayDead? && Inv(s) && Is(s.db.rows, e.id, Dlq(e.q), SqlMachine.Dead)
    ensures s.lineage.Knows(e.id) && s.lineage.Of(e.id).queue == e.q && !IsDlq(e.q) && e.q != Dlq(e.q)
  {
    hide OneCarrier, NoneLost, WorkersOk, AcksOk, SameContent;
    assert Faithful(s.lineage, e.id, s.db.rows[e.id]);
    ShadowNames(e.q);
    ShadowNames(s.lineage.Of(e.id).queue);
    assert ValidQueueName(s.lineage.Of(e.id).queue);
  }

  lemma ReplayKeeps(indexed: bool, s: Sys, e: Event)
    requires e.ReplayDead? && Inv(s) && Enabled(s, e)
    ensures Inv(Step(indexed, s, e))
  {
    hide WorkersOk, AcksOk, IsDlq, KeyTaken, OneCarrier, NoneLost;
    var s', rows := Step(indexed, s, e), s.db.rows;
    if s' != s {
      var id := e.id;
      assert Faithful(s.lineage, id, rows[id]);
      var home := s.lineage.Of(id).queue;
      ShadowNames(home);
      ShadowNames(e.q);
      assert e.q == home;
      assert s.lineage.Of(id).createdAt != ZERO_TIME;
      assert s'.db.rows == rows[id := s'.db.rows[id]];
      Rewritten(s.lineage, rows, id, s'.db.rows[id], s.completed);
      VolatileStays(s, s');
    }
  }

  lemma ReclaimKeeps(indexed: bool, s: Sys, e: Event)
    requires e.ReclaimQueue? || e.Crash?
    requires Inv(s) && Enabled(s, e)
    ensures Inv(Step(indexed, s, e))
  {
    hide TableOk, WorkerOk;
    Shuffled(s.lineage, s.db.rows, Step(indexed, s, e).db.rows, s.completed);
  }

  lemma StepKeeps(indexed: bool, s: Sys, e: Event)
    requires Inv(s) && Enabled(s, e)
    ensures Inv(Step(indexed, s, e))
  {
    hide Inv, Step, Enabled;
    match e
    case Accept(_, _, _) => AcceptKeeps(indexed, s, e);
    case Fetch(_, _, _, _) => FetchKeeps(indexed, s, e);
    case Invoke(_, _, _) => InvokeKeeps(indexed, s, e);
    case AckNow(_, _) => AckNowKeeps(indexed, s, e);
    case AckLater(_) => BufferKeeps(indexed, s, e);
    case TakeAcks(_) => BufferKeeps(indexed, s, e);
    case FlushOk(_) => FlushOkKeeps(indexed, s, e);
    case FlushFailed(_) => BufferKeeps(indexed, s, e);
    case GiveUp(_, _, _, _, _) => FailureKeeps(indexed, s, e);
    case Resolve(_, _, _, _, _, _) => FailureKeeps(indexed, s, e);
    case ReplayDead(_, _, _) => ReplayKeeps(indexed, s, e);
    case ReclaimQueue(_) => ReclaimKeeps(indexed, s, e);
    case Crash => ReclaimKeeps(indexed, s, e);
  }

  lemma {:induction false} RunsKeep(indexed: bool, trace: seq<Sys>, events: seq<Event>, i: nat)
    requires Delivery.IsRun(indexed, trace, events) && i < |trace|
    ensures Inv(trace[i])
  {
    if i > 0 {
      hide Inv, Step, Enabled;
      RunsKeep(indexed, trace, events, i - 1);
      StepKeeps(indexed, trace[i - 1], events[i - 1]);
    }
  }

  /** The row `id` is the one live copy of the accepted message `l`: pending or claimed in its
      queue, or a dead letter in its shadow queue, with unaltered content. */
  ghost predicate LiveCopy(s: Sys, l: Id, id: Id) {
    && l in s.lineage.accepted && id in s.db.rows && Origin(s, id) == l
    && var row, msg := s.db.rows[id], s.lineage.accepted[l];
       && SameContent(row.msg, msg)
       && ((row.msg.queue == msg.queue && row.status != Dead) || (row.msg.queue == Dlq(msg.queue) && row.status == Dead))
  }

  /** No message is lost: in every reachable state an accepted message that no handler has
      completed has exactly one live copy; and no message ever has two. */
  lemma AtLeastOnce(indexed: bool, trace: seq<Sys>, events: seq<Event>, i: nat, l: Id)
    requires Delivery.IsRun(indexed, trace, events) && i < |trace|
    requires l in trace[i].lineage.accepted
    ensures l !in trace[i].completed ==> exists id :: LiveCopy(trace[i], l, id)
    ensures forall a, b :: LiveCopy(trace[i], l, a) && LiveCopy(trace[i], l, b) ==> a == b
  {
    RunsKeep(indexed, trace, events, i);
    var s := trace[i];
    var home := s.lineage.accepted[l].queue;
    ShadowNames(home);
    hide Delivery.IsRun, Dlq, ValidQueueName, SameContent;
    forall id ensures LiveCopy(s, l, id) <==> Carries(s.lineage, s.db.rows, l, id) {
      if id in s.db.rows {
        assert Faithful(s.lineage, id, s.db.rows[id]);
      }
    }
    if l !in s.completed {
      assert HasCarrier(s.lineage, s.db.rows, l);
      var id :| Carries(s.lineage, s.db.rows, l, id);
      assert LiveCopy(s, l, id);
    }
  }

  lemma AcksStep(indexed: bool, s: Sys, e: Event)
    requires A.Accounted(s.acks) && Enabled(s, e)
    ensures A.Accounted(Step(indexed, s, e).acks)
  {
    hide A.Accounted, A.Step, AckBatch, Ack, Settle, Bury;
    match e
    case AckLater(w) => A.StepAccounts(s.acks, A.Pass(s.workers[w].queue, s.workers[w].msg.id));
    case TakeAcks(q) => A.StepAccounts(s.acks, A.Take(q));
    case FlushOk(i) => A.StepAccounts(s.acks, A.Succeed(i));
    case FlushFailed(i) => A.StepAccounts(s.acks, A.Fail(i));
    case Crash => NoAcksAccounted();
    case GiveUp(w, n, newId, now, up) => BuryLeavesAcks(indexed, s, s.workers[w], s.workers[w].msg, newId, now);
    case Resolve(w, n, due, newId, now, up) => SettleLeavesAcks(indexed, s, s.workers[w], n, due, newId, now);
    case _ =>
  }

  lemma NoAcksAccounted()
    ensures A.Accounted(A.NO_ACKS)
  {
  }

  lemma BuryLeavesAcks(indexed: bool, s: Sys, w: Worker, msg: Message, newId: Id, now: Time)
    ensures Bury(indexed, s, w, msg, newId, now).acks == s.acks
  {
  }

  lemma SettleLeavesAcks(indexed: bool, s: Sys, w: Worker, n: nat, due: Time, newId: Id, now: Time)
    ensures Settle(indexed, s, w, n, due, newId, now).acks == s.acks
  {
  }

  /** Inside the whole broker, in every reachable state since the last crash: the ids passed to
      `ack` are the buffered ones, those being flushed, and those a successful AckBatch got. */
  lemma {:induction false} AcksAccounted(indexed: bool, trace: seq<Sys>, events: seq<Event>, i: nat)
    requires Delivery.IsRun(indexed, trace, events) && i < |trace|
    ensures A.Accounted(trace[i].acks)
  {
    hide A.Accounted, Step, Enabled;
    if i == 0 {
      NoAcksAccounted();
    } else {
      AcksAccounted(indexed, trace, events, i - 1);
      AcksStep(indexed, trace[i - 1], events[i - 1]);
    }
  }
}
