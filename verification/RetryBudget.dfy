/** The retry budget of a message over its whole life: dead-lettering, replay, crashes and reclaims
    included. */
module RetryBudget {
  import opened Naming
  import opened Messages
  import opened SqlMachine
  import opened Delivery
  import A = AckBuffer
  import opened AtLeastOnce

  /** A delivery that can still end in a failure. */
  predicate InProgress(w: Worker) {
    w.phase != Succeeded
  }

  /** No delivery in progress with attempts to spare holds a claimed row of the queue. */
  ghost predicate Harmless(s: Sys, q: string, n: nat) {
    forall w :: w in s.workers && InProgress(s.workers[w]) && s.workers[w].queue == q && s.workers[w].msg.attempts < n ==>
      !Is(s.db.rows, s.workers[w].msg.id, q, Processing)
  }

  /** Every handler is registered with the same MaxRetries. */
  predicate FixedLimit(e: Event, n: nat) {
    match e
    case Invoke(_, k, _) => k == n
    case GiveUp(_, k, _, _, _) => k == n
    case Resolve(_, k, _, _, _, _) => k == n
    case _ => true
  }

  /** ... and a queue is reclaimed only where that is harmless. */
  ghost predicate Steady(s: Sys, e: Event, n: nat) {
    FixedLimit(e, n) && (e.ReclaimQueue? ==> Harmless(s, e.q, n))
  }

  ghost predicate IsSteadyRun(indexed: bool, n: nat, trace: seq<Sys>, events: seq<Event>) {
    Delivery.IsRun(indexed, trace, events) && forall i :: 0 <= i < |events| ==> Steady(trace[i], events[i], n)
  }

  // ----- the invariant -----

  /** A delivery in progress and its row, if that is still there: same queue and, while the row is
      live, same attempt count; with attempts to spare the row is not up for another delivery; and a
      handler has run only within the budget. */
  ghost predicate Follows(rows: Table, w: Worker, n: nat) {
    var id := w.msg.id;
    && (id in rows ==> rows[id].msg.queue == w.queue && (rows[id].status != Dead ==> rows[id].msg.attempts == w.msg.attempts))
    && (w.msg.attempts < n && id in rows ==> rows[id].status != Pending)
    && (w.phase == Failed ==> w.msg.attempts <= n)
  }

  ghost predicate AllFollow(s: Sys, n: nat) {
    forall w :: w in s.workers && InProgress(s.workers[w]) ==> Follows(s.db.rows, s.workers[w], n)
  }

  /** Two deliveries of one row are in progress only on its last attempt. */
  ghost predicate Apart(s: Sys, n: nat) {
    forall v, w :: v in s.workers && w in s.workers && v != w && InProgress(s.workers[v]) && InProgress(s.workers[w]) ==>
      s.workers[v].msg.id == s.workers[w].msg.id ==> s.workers[v].msg.attempts >= n
  }

  /** The attempt count of the live copy is the number of failures recorded for the message. */
  ghost predicate Counted(s: Sys) {
    && (forall l :: l in s.failures ==> l in s.lineage.accepted)
    && (forall id :: id in s.db.rows && s.lineage.Knows(id) && !Tombstone(s.lineage, s.db.rows[id], id)
          ==> s.db.rows[id].msg.attempts == FailuresOf(s, s.lineage.origin[id]))
  }

  ghost predicate WithinBudget(s: Sys, n: nat) {
    forall l :: l in s.failures ==> s.failures[l] <= n + 1
  }

  ghost predicate BudgetInv(s: Sys, n: nat) {
    AllFollow(s, n) && Apart(s, n) && Counted(s) && WithinBudget(s, n)
  }

  // ----- frames -----

  /** Row `id` carries a message, with this attempt count. */
  ghost predicate CarriesWith(s: Sys, id: Id, attempts: int) {
    && id in s.db.rows && s.lineage.Knows(id) && !Tombstone(s.lineage, s.db.rows[id], id)
    && s.db.rows[id].msg.attempts == attempts
  }

  /** Carrying rows keep lineage and attempts; new ones are fresh messages. */
  lemma CountedStays(s: Sys, s': Sys)
    requires Counted(s) && s'.failures == s.failures
    requires s.lineage.accepted.Keys <= s'.lineage.accepted.Keys
    requires forall id, k :: CarriesWith(s', id, k) ==>
               (CarriesWith(s, id, k) && s'.lineage.origin[id] == s.lineage.origin[id])
               || (k == 0 && s'.lineage.origin[id] !in s.failures)
    ensures Counted(s')
  {
    hide Tombstone;
    forall id | id in s'.db.rows && s'.lineage.Knows(id) && !Tombstone(s'.lineage, s'.db.rows[id], id)
      ensures s'.db.rows[id].msg.attempts == FailuresOf(s', s'.lineage.origin[id])
    {
      assert CarriesWith(s', id, s'.db.rows[id].msg.attempts);
    }
  }

  /** The row of a delivery is gone, dead, or as it was up to being claimed. */
  ghost predicate Lingers(rows: Table, rows': Table, id: Id) {
    id in rows' ==>
      id in rows && rows'[id].msg.queue == rows[id].msg.queue
      && (rows'[id].status == Dead
          || (rows'[id].msg.attempts == rows[id].msg.attempts
              && (rows'[id].status == rows[id].status || (rows[id].status == Pending && rows'[id].status == Processing))))
  }

  /** No delivery is added or moved on, and the rows of those in progress linger. */
  lemma DeliveriesStay(s: Sys, s': Sys, n: nat)
    requires AllFollow(s, n) && Apart(s, n)
    requires forall w :: w in s'.workers ==> w in s.workers && s'.workers[w] == s.workers[w]
    requires forall w :: w in s'.workers && InProgress(s'.workers[w]) ==> Lingers(s.db.rows, s'.db.rows, s'.workers[w].msg.id)
    ensures AllFollow(s', n) && Apart(s', n)
  {
    hide Lingers;
    forall w | w in s'.workers && InProgress(s'.workers[w]) ensures Follows(s'.db.rows, s'.workers[w], n) {
      assert Follows(s.db.rows, s.workers[w], n);
      FollowStays(s.db.rows, s'.db.rows, s.workers[w], n);
    }
  }

  lemma FollowStays(rows: Table, rows': Table, w: Worker, n: nat)
    requires Follows(rows, w, n) && Lingers(rows, rows', w.msg.id)
    ensures Follows(rows', w, n)
  {
  }

  // ----- the steps without failures -----

  lemma AcceptKeeps(indexed: bool, s: Sys, e: Event, n: nat)
    requires e.Accept? && Inv(s) && BudgetInv(s, n) && Enabled(s, e)
    ensures BudgetInv(Step(indexed, s, e), n)
  {
    hide ValidQueueName, KeyTaken, IsDlq, AcceptedOk, AllFaithful, OneCarrier, NoneLost, WorkersOk, AcksOk, AllFollow, Apart;
    var s' := Step(indexed, s, e);
    if s' != s {
      RowsKnown(s);
      WorkersKnown(s);
      CountedStays(s, s');
      DeliveriesStay(s, s', n);
    }
  }

  /** Claiming a pending row for a new worker. */
  lemma ClaimKeeps(s: Sys, id: Id, w: nat, n: nat)
    requires BudgetInv(s, n) && w !in s.workers && id in s.db.rows
    requires s.db.rows[id].status == Pending && s.db.rows[id].msg.id == id
    ensures var row := s.db.rows[id];
            BudgetInv(s.(db := s.db.(rows := s.db.rows[id := row.(status := Processing)]),
                         workers := s.workers[w := Worker(row.msg.queue, row.msg, Fetched)]), n)
  {
    var row := s.db.rows[id];
    var s' := s.(db := s.db.(rows := s.db.rows[id := row.(status := Processing)]),
                 workers := s.workers[w := Worker(row.msg.queue, row.msg, Fetched)]);
    CountedStays(s, s');
    forall v | v in s.workers && InProgress(s.workers[v]) ensures Follows(s'.db.rows, s.workers[v], n) {
      assert Follows(s.db.rows, s.workers[v], n);
    }
    assert Follows(s'.db.rows, s'.workers[w], n);
  }

  lemma FetchKeeps(indexed: bool, s: Sys, e: Event, n: nat)
    requires e.Fetch? && Inv(s) && BudgetInv(s, n) && Enabled(s, e)
    ensures BudgetInv(Step(indexed, s, e), n)
  {
    hide Inv, BudgetInv;
    RowsKnown(s);
    var row := s.db.rows[e.id];
    assert Dequeue(s.db, {e.id}).rows == s.db.rows[e.id := row.(status := Processing)];
    ClaimKeeps(s, e.id, e.w, n);
  }

  lemma InvokeKeeps(indexed: bool, s: Sys, e: Event, n: nat)
    requires e.Invoke? && n > 0 && FixedLimit(e, n) && BudgetInv(s, n) && Enabled(s, e)
    ensures BudgetInv(Step(indexed, s, e), n)
  {
    var s' := Step(indexed, s, e);
    CountedStays(s, s');
    assert Follows(s.db.rows, s.workers[e.w], n);
    forall v | v in s'.workers && InProgress(s'.workers[v]) ensures Follows(s'.db.rows, s'.workers[v], n) {
      assert Follows(s.db.rows, s.workers[v], n);
    }
  }

  lemma AcksKeep(indexed: bool, s: Sys, e: Event, n: nat)
    requires e.AckNow? || e.AckLater? || e.TakeAcks? || e.FlushFailed? || e.FlushOk?
    requires BudgetInv(s, n) && Enabled(s, e)
    ensures BudgetInv(Step(indexed, s, e), n)
  {
    hide A.Step, A.Enabled, AllFollow, Apart;
    var s' := Step(indexed, s, e);
    CountedStays(s, s');
    DeliveriesStay(s, s', n);
  }

  // ----- failures -----

  /** The row is claimed, with the attempt count the worker holds. */
  ghost predicate Holds(rows: Table, w: Worker) {
    Is(rows, w.msg.id, w.queue, Processing) && rows[w.msg.id].msg.attempts == w.msg.attempts
  }

  /** The claimed row of a worker carries its message, alone. */
  lemma WorkerCarries(s: Sys, w: nat)
    requires Inv(s) && Counted(s) && w in s.workers && Holds(s.db.rows, s.workers[w])
    ensures var m := s.workers[w].msg;
            && s.lineage.Knows(m.id) && s.lineage.Of(m.id).queue == s.workers[w].queue
            && !IsDlq(s.workers[w].queue)
            && Is(s.db.rows, m.id, s.workers[w].queue, Processing)
            && m.attempts == FailuresOf(s, s.lineage.origin[m.id])
            && forall id, k :: CarriesWith(s, id, k) && s.lineage.origin[id] == s.lineage.origin[m.id] ==> id == m.id
  {
    var m := s.workers[w].msg;
    WorkersKnown(s);
    assert Carries(s.lineage, s.db.rows, s.lineage.origin[m.id], m.id);
    hide AllFaithful, NoneLost, WorkersOk, AcksOk;
    forall id, k | CarriesWith(s, id, k) && s.lineage.origin[id] == s.lineage.origin[m.id] ensures id == m.id {
      assert Carries(s.lineage, s.db.rows, s.lineage.origin[m.id], id);
    }
  }

  /** A dead-letter transaction that goes through finds the row of its worker claimed. */
  lemma BuryHolds(indexed: bool, s: Sys, w: nat, msg: Message, newId: Id, now: Time, n: nat)
    requires Inv(s) && AllFollow(s, n) && w in s.workers && InProgress(s.workers[w]) && s.lineage.Fresh(newId)
    requires msg == s.workers[w].msg.(attempts := msg.attempts)
    requires DeadLetter(indexed, s.db, s.workers[w].queue, msg, Some("failed"), newId, now).outcome == Done
    ensures Holds(s.db.rows, s.workers[w])
  {
    assert Follows(s.db.rows, s.workers[w], n);
    WorkersKnown(s);
    hide Inv, AllFollow, IsDlq, Dlq, KeyTaken;
  }

  /** What burying does to the rows that carry messages. */
  lemma BuryCarriers(indexed: bool, s: Sys, w: nat, msg: Message, newId: Id, now: Time)
    requires Inv(s) && Counted(s) && w in s.workers && Holds(s.db.rows, s.workers[w]) && s.lineage.Fresh(newId)
    requires msg == s.workers[w].msg.(attempts := msg.attempts)
    requires DeadLetter(indexed, s.db, s.workers[w].queue, msg, Some("failed"), newId, now).outcome == Done
    ensures var t := Bury(indexed, s, s.workers[w], msg, newId, now);
            && t == s.(db := t.db, lineage := t.lineage) && t.lineage.accepted == s.lineage.accepted
            && newId !in s.db.rows && newId !in s.lineage.origin
            && t.db.rows.Keys == s.db.rows.Keys + {newId}
            && (forall id :: id in s.db.rows && id != msg.id ==> t.db.rows[id] == s.db.rows[id])
            && t.db.rows[msg.id].status == Dead && t.db.rows[msg.id].msg.queue == s.db.rows[msg.id].msg.queue
            && (forall id, k :: CarriesWith(t, id, k) ==>
                  if t.lineage.origin[id] == s.lineage.origin[msg.id] then k == msg.attempts
                  else CarriesWith(s, id, k) && s.lineage.origin[id] == t.lineage.origin[id])
  {
    WorkerCarries(s, w);
    RowsKnown(s);
    hide Inv, Counted, IsDlq, KeyTaken;
    var t := Bury(indexed, s, s.workers[w], msg, newId, now);
    assert Tombstone(t.lineage, t.db.rows[msg.id], msg.id);
    forall id, k | CarriesWith(t, id, k)
      ensures if t.lineage.origin[id] == s.lineage.origin[msg.id] then k == msg.attempts
              else CarriesWith(s, id, k) && s.lineage.origin[id] == t.lineage.origin[id]
    {
      if id != newId {
        assert CarriesWith(s, id, k);
      }
    }
  }

  /** The buried row is dead, and no delivery has the fresh one. */
  lemma BuryStays(indexed: bool, s: Sys, w: nat, msg: Message, newId: Id, now: Time, n: nat)
    requires Inv(s) && BudgetInv(s, n) && w in s.workers && Holds(s.db.rows, s.workers[w]) && s.lineage.Fresh(newId)
    requires msg == s.workers[w].msg.(attempts := msg.attempts)
    requires DeadLetter(indexed, s.db, s.workers[w].queue, msg, Some("failed"), newId, now).outcome == Done
    ensures var t := Bury(indexed, s, s.workers[w], msg, newId, now).(workers := s.workers - {w});
            AllFollow(t, n) && Apart(t, n)
  {
    hide Inv, AllFollow, Apart, Counted, WithinBudget, DeadLetter, CarriesWith, Bury, IsDlq;
    BuryCarriers(indexed, s, w, msg, newId, now);
    WorkersKnown(s);
    DeliveriesStay(s, Bury(indexed, s, s.workers[w], msg, newId, now).(workers := s.workers - {w}), n);
  }

  /** One recorded failure of `l`: its carrying rows now show one attempt more, all others as
      before. */
  lemma RecordedCounts(s: Sys, t: Sys, l: Id)
    requires Counted(s) && l in s.lineage.accepted && t.failures == s.failures
    requires s.lineage.accepted == t.lineage.accepted
    requires forall id, k :: CarriesWith(t, id, k) ==>
               if t.lineage.origin[id] == l then k == FailuresOf(s, l) + 1
               else CarriesWith(s, id, k) && s.lineage.origin[id] == t.lineage.origin[id]
    ensures Counted(Record(t, l))
  {
    hide Tombstone;
    var s' := Record(t, l);
    forall id | id in s'.db.rows && s'.lineage.Knows(id) && !Tombstone(s'.lineage, s'.db.rows[id], id)
      ensures s'.db.rows[id].msg.attempts == FailuresOf(s', s'.lineage.origin[id])
    {
      assert CarriesWith(t, id, s'.db.rows[id].msg.attempts);
    }
  }

  /** The worker just ends. */
  lemma EndKeeps(s: Sys, w: nat, n: nat)
    requires BudgetInv(s, n) && w in s.workers
    ensures BudgetInv(s.(workers := s.workers - {w}), n)
  {
    var s' := s.(workers := s.workers - {w});
    CountedStays(s, s');
    DeliveriesStay(s, s', n);
  }

  lemma GiveUpKeeps(indexed: bool, s: Sys, e: Event, n: nat)
    requires e.GiveUp? && FixedLimit(e, n) && Inv(s) && BudgetInv(s, n) && Enabled(s, e)
    ensures BudgetInv(Step(indexed, s, e), n)
  {
    hide Inv, DeadLetter, AllFollow, Apart, Counted, WithinBudget;
    var s', w := Step(indexed, s, e), s.workers[e.w];
    if e.up && DeadLetter(indexed, s.db, w.queue, w.msg, Some("failed"), e.newId, e.now).outcome == Done {
      BuryHolds(indexed, s, e.w, w.msg, e.newId, e.now, n);
      BuryStays(indexed, s, e.w, w.msg, e.newId, e.now, n);
      BuryCounts(indexed, s, e.w, e.newId, e.now);
      BudgetSame(s, s', n);
    } else {
      EndKeeps(s, e.w, n);
    }
  }

  lemma BudgetSame(s: Sys, s': Sys, n: nat)
    requires WithinBudget(s, n) && s'.failures == s.failures
    ensures WithinBudget(s', n)
  {
  }

  lemma BuryCounts(indexed: bool, s: Sys, w: nat, newId: Id, now: Time)
    requires Inv(s) && Counted(s) && w in s.workers && Holds(s.db.rows, s.workers[w]) && s.lineage.Fresh(newId)
    requires DeadLetter(indexed, s.db, s.workers[w].queue, s.workers[w].msg, Some("failed"), newId, now).outcome == Done
    ensures Counted(Bury(indexed, s, s.workers[w], s.workers[w].msg, newId, now).(workers := s.workers - {w}))
  {
    var m := s.workers[w].msg;
    BuryCarriers(indexed, s, w, m, newId, now);
    WorkerCarries(s, w);
    hide Inv, Bury, DeadLetter, Tombstone;
    var t := Bury(indexed, s, s.workers[w], m, newId, now);
    forall id | id in t.db.rows && t.lineage.Knows(id) && !Tombstone(t.lineage, t.db.rows[id], id)
      ensures t.db.rows[id].msg.attempts == FailuresOf(s, t.lineage.origin[id])
    {
      assert CarriesWith(t, id, t.db.rows[id].msg.attempts);
    }
  }

  lemma ResolveKeeps(indexed: bool, s: Sys, e: Event, n: nat)
    requires e.Resolve? && FixedLimit(e, n) && Inv(s) && BudgetInv(s, n) && Enabled(s, e)
    ensures BudgetInv(Step(indexed, s, e), n)
  {
    var w := s.workers[e.w];
    var msg := w.msg.(attempts := w.msg.attempts + 1);
    assert Follows(s.db.rows, w, n);
    hide Inv, BudgetInv, DeadLetter, Retry;
    if e.up && msg.attempts > n && DeadLetter(indexed, s.db, w.queue, msg, Some("failed"), e.newId, e.now).outcome == Done {
      ResolveBuries(indexed, s, e, n);
    } else if e.up && msg.attempts <= n && Retry(indexed, s.db, w.queue, msg.(scheduledAt := e.due), e.now).outcome == Done {
      ResolveRetries(indexed, s, e, n);
    } else {
      EndKeeps(s, e.w, n);
    }
  }

  /** A recorded failure leaves the budget invariant in place if the transaction's table does. */
  lemma RecordKeeps(s: Sys, t: Sys, w: nat, l: Id, n: nat)
    requires BudgetInv(s, n) && t.failures == s.failures && t.workers == s.workers
    requires AllFollow(t.(workers := s.workers - {w}), n) && Apart(t.(workers := s.workers - {w}), n)
    requires Counted(Record(t, l)) && FailuresOf(s, l) <= n
    ensures BudgetInv(Record(t, l).(workers := s.workers - {w}), n)
  {
    hide Follows, Tombstone;
    var r, s' := t.(workers := s.workers - {w}), Record(t, l).(workers := s.workers - {w});
    assert s'.workers == r.workers && s'.db == r.db;
  }

  lemma ResolveBuries(indexed: bool, s: Sys, e: Event, n: nat)
    requires e.Resolve? && FixedLimit(e, n) && Inv(s) && BudgetInv(s, n) && Enabled(s, e) && e.up
    requires var w := s.workers[e.w];
             w.msg.attempts == n && DeadLetter(indexed, s.db, w.queue, w.msg.(attempts := n + 1), Some("failed"), e.newId, e.now).outcome == Done
    ensures BudgetInv(Step(indexed, s, e), n)
  {
    hide Inv, Step, Bury, DeadLetter, AllFollow, Apart, Counted, WithinBudget, Holds, CarriesWith, Record;
    var w := s.workers[e.w];
    var msg := w.msg.(attempts := n + 1);
    ResolveRecords(indexed, s, e, n);
    BuryHolds(indexed, s, e.w, msg, e.newId, e.now, n);
    BuryRecords(indexed, s, e.w, msg, e.newId, e.now);
    BuryStays(indexed, s, e.w, msg, e.newId, e.now, n);
    RecordKeeps(s, Bury(indexed, s, w, msg, e.newId, e.now), e.w, Origin(s, msg.id), n);
  }

  lemma ResolveRecords(indexed: bool, s: Sys, e: Event, n: nat)
    requires e.Resolve? && FixedLimit(e, n) && Enabled(s, e) && e.up
    requires var w := s.workers[e.w];
             w.msg.attempts == n && DeadLetter(indexed, s.db, w.queue, w.msg.(attempts := n + 1), Some("failed"), e.newId, e.now).outcome == Done
    ensures var w := s.workers[e.w];
            var msg := w.msg.(attempts := n + 1);
            Step(indexed, s, e) == Record(Bury(indexed, s, w, msg, e.newId, e.now), Origin(s, msg.id)).(workers := s.workers - {e.w})
  {
    hide DeadLetter, Bury;
  }

  lemma BuryRecords(indexed: bool, s: Sys, w: nat, msg: Message, newId: Id, now: Time)
    requires Inv(s) && Counted(s) && w in s.workers && Holds(s.db.rows, s.workers[w]) && s.lineage.Fresh(newId)
    requires msg == s.workers[w].msg.(attempts := msg.attempts) && msg.attempts == s.workers[w].msg.attempts + 1
    requires DeadLetter(indexed, s.db, s.workers[w].queue, msg, Some("failed"), newId, now).outcome == Done
    ensures var t := Bury(indexed, s, s.workers[w], msg, newId, now);
            && t == s.(db := t.db, lineage := t.lineage)
            && Counted(Record(t, Origin(s, msg.id)))
            && FailuresOf(s, Origin(s, msg.id)) == s.workers[w].msg.attempts
  {
    BuryCarriers(indexed, s, w, msg, newId, now);
    hide Inv, Bury, DeadLetter, Counted, CarriesWith, Record;
    WorkerCarries(s, w);
    RecordedCounts(s, Bury(indexed, s, s.workers[w], msg, newId, now), Origin(s, msg.id));
  }

  /** What a successful retry does to the rows that carry messages. */
  lemma RetryCarriers(indexed: bool, s: Sys, w: nat, msg: Message, now: Time)
    requires Inv(s) && Counted(s) && w in s.workers && Holds(s.db.rows, s.workers[w])
    requires msg == s.workers[w].msg.(attempts := msg.attempts, scheduledAt := msg.scheduledAt)
    requires Retry(indexed, s.db, s.workers[w].queue, msg, now).outcome == Done
    ensures var t := s.(db := Retry(indexed, s.db, s.workers[w].queue, msg, now).db);
            && t.db.rows.Keys == s.db.rows.Keys
            && (forall id :: id in s.db.rows && id != msg.id ==> t.db.rows[id] == s.db.rows[id])
            && (forall id, k :: CarriesWith(t, id, k) ==>
                  if t.lineage.origin[id] == s.lineage.origin[msg.id] then k == msg.attempts
                  else CarriesWith(s, id, k) && s.lineage.origin[id] == t.lineage.origin[id])
  {
    WorkerCarries(s, w);
    hide Inv, Counted, IsDlq, KeyTaken, InsertStatus;
    var t := s.(db := Retry(indexed, s.db, s.workers[w].queue, msg, now).db);
    forall id, k | CarriesWith(t, id, k)
      ensures if t.lineage.origin[id] == s.lineage.origin[msg.id] then k == msg.attempts
              else CarriesWith(s, id, k) && s.lineage.origin[id] == t.lineage.origin[id]
    {
      if id != msg.id {
        assert CarriesWith(s, id, k);
      }
    }
  }

  /** With attempts to spare, no other delivery of the retried row is in progress. */
  lemma RetryStays(s: Sys, t: Sys, w: nat, n: nat)
    requires BudgetInv(s, n) && w in s.workers && InProgress(s.workers[w]) && s.workers[w].msg.attempts < n
    requires t.workers == s.workers - {w} && t.db.rows.Keys == s.db.rows.Keys
    requires forall id :: id in s.db.rows && id != s.workers[w].msg.id ==> t.db.rows[id] == s.db.rows[id]
    ensures AllFollow(t, n) && Apart(t, n)
  {
    hide AllFollow, Counted, WithinBudget;
    DeliveriesStay(s, t, n);
  }

  lemma ResolveRetries(indexed: bool, s: Sys, e: Event, n: nat)
    requires e.Resolve? && FixedLimit(e, n) && Inv(s) && BudgetInv(s, n) && Enabled(s, e) && e.up
    requires var w := s.workers[e.w];
             && w.msg.attempts + 1 <= n
             && Retry(indexed, s.db, w.queue, w.msg.(attempts := w.msg.attempts + 1, scheduledAt := e.due), e.now).outcome == Done
    ensures BudgetInv(Step(indexed, s, e), n)
  {
    var w := s.workers[e.w];
    var msg := w.msg.(attempts := w.msg.attempts + 1, scheduledAt := e.due);
    assert Follows(s.db.rows, w, n);
    assert Holds(s.db.rows, w);
    WorkerCarries(s, e.w);
    var t, l := s.(db := Retry(indexed, s.db, w.queue, msg, e.now).db), s.lineage.origin[msg.id];
    assert Step(indexed, s, e) == Record(t, l).(workers := s.workers - {e.w});
    hide Inv, BudgetInv, Step, Enabled;
    RetryCarriers(indexed, s, e.w, msg, e.now);
    hide Retry, CarriesWith, Record;
    RetryStays(s, t.(workers := s.workers - {e.w}), e.w, n);
    RecordedCounts(s, t, l);
    RecordKeeps(s, t, e.w, l, n);
  }

  // ----- replays, reclaims and crashes -----

  lemma ReplayKeeps(indexed: bool, s: Sys, e: Event, n: nat)
    requires e.ReplayDead? && Inv(s) && BudgetInv(s, n) && Enabled(s, e)
    ensures BudgetInv(Step(indexed, s, e), n)
  {
    hide Inv, Dlq, AllFollow, Apart, Replay;
    var s', id := Step(indexed, s, e), e.id;
    if Replay(indexed, s.db, e.q, e.id, e.now).outcome == Done {
      ReplayedCarries(indexed, s, e);
      hide Step, Enabled;
      assert CarriesWith(s, id, s.db.rows[id].msg.attempts);
      CountedStays(s, s');
      ReplayedApart(s, e, n);
      DeliveriesStay(s, s', n);
    } else {
      RollbackIsTotal(indexed, s.db, ReplayOp(e.q, id, e.now));
    }
  }

  /** No delivery in progress has a row of a shadow queue. */
  lemma ReplayedApart(s: Sys, e: Event, n: nat)
    requires e.ReplayDead? && Inv(s) && AllFollow(s, n) && Is(s.db.rows, e.id, Dlq(e.q), Dead)
    ensures forall w :: w in s.workers && InProgress(s.workers[w]) ==> s.workers[w].msg.id != e.id
  {
    WorkersKnown(s);
    ShadowNames(e.q);
    hide Inv;
    forall w | w in s.workers && InProgress(s.workers[w]) ensures s.workers[w].msg.id != e.id {
      assert Follows(s.db.rows, s.workers[w], n);
    }
  }

  lemma ReclaimKeeps(indexed: bool, s: Sys, e: Event, n: nat)
    requires e.ReclaimQueue? && Inv(s) && BudgetInv(s, n) && Harmless(s, e.q, n)
    ensures BudgetInv(Step(indexed, s, e), n)
  {
    hide Inv;
    var s' := Step(indexed, s, e);
    forall id, k | CarriesWith(s', id, k) ensures CarriesWith(s, id, k) && s'.lineage.origin[id] == s.lineage.origin[id] {
      assert s'.db.rows[id].msg == s.db.rows[id].msg;
    }
    CountedStays(s, s');
    forall w | w in s'.workers && InProgress(s'.workers[w]) ensures Follows(s'.db.rows, s'.workers[w], n) {
      assert Follows(s.db.rows, s.workers[w], n);
    }
  }

  lemma CrashKeeps(indexed: bool, s: Sys, e: Event, n: nat)
    requires e.Crash? && BudgetInv(s, n)
    ensures BudgetInv(Step(indexed, s, e), n)
  {
    CountedStays(s, Step(indexed, s, e));
  }

  // ----- whole runs -----

  lemma StepKeepsBudget(indexed: bool, s: Sys, e: Event, n: nat)
    requires n > 0 && Steady(s, e, n) && Inv(s) && BudgetInv(s, n) && Enabled(s, e)
    ensures BudgetInv(Step(indexed, s, e), n)
  {
    hide Inv, BudgetInv, Step, Enabled, Harmless;
    match e
    case Accept(_, _, _) => AcceptKeeps(indexed, s, e, n);
    case Fetch(_, _, _, _) => FetchKeeps(indexed, s, e, n);
    case Invoke(_, _, _) => InvokeKeeps(indexed, s, e, n);
    case AckNow(_, _) => AcksKeep(indexed, s, e, n);
    case AckLater(_) => AcksKeep(indexed, s, e, n);
    case TakeAcks(_) => AcksKeep(indexed, s, e, n);
    case FlushOk(_) => AcksKeep(indexed, s, e, n);
    case FlushFailed(_) => AcksKeep(indexed, s, e, n);
    case GiveUp(_, _, _, _, _) => GiveUpKeeps(indexed, s, e, n);
    case Resolve(_, _, _, _, _, _) => ResolveKeeps(indexed, s, e, n);
    case ReplayDead(_, _, _) => ReplayKeeps(indexed, s, e, n);
    case ReclaimQueue(_) => ReclaimKeeps(indexed, s, e, n);
    case Crash => CrashKeeps(indexed, s, e, n);
  }

  lemma {:induction false} RunsKeepBudget(indexed: bool, n: nat, trace: seq<Sys>, events: seq<Event>, i: nat)
    requires n > 0 && IsSteadyRun(indexed, n, trace, events) && i < |trace|
    ensures Inv(trace[i]) && BudgetInv(trace[i], n)
  {
    RunsKeep(indexed, trace, events, i);
    if i > 0 {
      hide Inv, BudgetInv, Step, Enabled, Steady;
      RunsKeepBudget(indexed, n, trace, events, i - 1);
      StepKeepsBudget(indexed, trace[i - 1], events[i - 1], n);
    }
  }

  /** With MaxRetries n > 0 the store records at most n + 1 failed handler runs for a message,
      however often it is dead-lettered, replayed or redelivered after a crash. */
  lemma FailuresBounded(indexed: bool, n: nat, trace: seq<Sys>, events: seq<Event>, i: nat, l: Id)
    requires n > 0 && IsSteadyRun(indexed, n, trace, events) && i < |trace|
    ensures FailuresOf(trace[i], l) <= n + 1
  {
    RunsKeepBudget(indexed, n, trace, events, i);
  }
}
