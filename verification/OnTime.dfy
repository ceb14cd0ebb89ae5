/** No message reaches a handler before its time: a delayed message from its enqueue on, a retried one
    until its backoff is over. */
module OnTime {
  import opened Naming
  import opened Messages
  import opened SqlMachine
  import opened Delivery
  import opened AtLeastOnce
  import A = AckBuffer

  /** Row `id` is up for delivery, scheduled for this time. */
  ghost predicate Scheduled(s: Sys, id: Id, at: Time) {
    id in s.db.rows && s.db.rows[id].status == Pending && s.db.rows[id].msg.scheduledAt == at
  }

  predicate Takes(e: Event, id: Id) {
    e.Fetch? && e.id == id
  }

  /** A fetch takes a row that is pending in its queue and whose time has come, and hands it to the new
      worker as it is. */
  lemma FetchIsOnTime(indexed: bool, s: Sys, e: Event)
    requires e.Fetch? && Enabled(s, e)
    ensures e.id in s.db.rows && s.db.rows[e.id].status == Pending && s.db.rows[e.id].msg.queue == e.q
    ensures s.db.rows[e.id].msg.scheduledAt <= e.now
    ensures Step(indexed, s, e).workers == s.workers[e.w := Worker(e.q, s.db.rows[e.id].msg, Fetched)] && e.w !in s.workers
  {
  }

  // ----- until it is taken, a pending row waits -----

  lemma StepWaits(indexed: bool, s: Sys, e: Event, id: Id, at: Time)
    requires Inv(s) && Enabled(s, e) && Scheduled(s, id, at) && !Takes(e, id)
    ensures Scheduled(Step(indexed, s, e), id, at)
  {
    hide Inv, Step, Enabled, Scheduled;
    if e.GiveUp? || e.Resolve? {
      FailureWaits(indexed, s, e, id, at);
    } else if e.ReplayDead? {
      ReplayWaits(indexed, s, e, id, at);
    } else {
      OthersWait(indexed, s, e, id, at);
    }
  }

  lemma FailureWaits(indexed: bool, s: Sys, e: Event, id: Id, at: Time)
    requires (e.GiveUp? || e.Resolve?) && Enabled(s, e) && Scheduled(s, id, at)
    ensures Scheduled(Step(indexed, s, e), id, at)
  {
    hide IsDlq, Dlq, KeyTaken;
  }

  lemma ReplayWaits(indexed: bool, s: Sys, e: Event, id: Id, at: Time)
    requires e.ReplayDead? && Inv(s) && Enabled(s, e) && Scheduled(s, id, at)
    ensures Scheduled(Step(indexed, s, e), id, at)
  {
    RowsKnown(s);
    hide Inv, IsDlq, Dlq, KeyTaken;
  }

  lemma OthersWait(indexed: bool, s: Sys, e: Event, id: Id, at: Time)
    requires !e.GiveUp? && !e.Resolve? && !e.ReplayDead? && Enabled(s, e) && Scheduled(s, id, at) && !Takes(e, id)
    ensures Scheduled(Step(indexed, s, e), id, at)
  {
    hide IsDlq, KeyTaken, A.Step, A.Enabled, ValidQueueName;
  }

  lemma {:induction false} RunsWait(indexed: bool, trace: seq<Sys>, events: seq<Event>, i: nat, j: nat, id: Id, at: Time)
    requires Delivery.IsRun(indexed, trace, events) && i <= j < |trace| && Scheduled(trace[i], id, at)
    requires forall k :: i <= k < j ==> !Takes(events[k], id)
    ensures Scheduled(trace[j], id, at)
  {
    if i < j {
      hide Step, Enabled, Inv, Scheduled, Takes;
      RunsWait(indexed, trace, events, i, j - 1, id, at);
      RunsKeep(indexed, trace, events, j - 1);
      StepWaits(indexed, trace[j - 1], events[j - 1], id, at);
    }
  }

  /** In every run, from any moment at which a row is pending for a time: the first event that hands it to a
      worker is by a clock that shows that time or later, reclaims, crashes and all else in between. */
  lemma NotBeforeItsTime(indexed: bool, trace: seq<Sys>, events: seq<Event>, i: nat, j: nat, id: Id, at: Time)
    requires Delivery.IsRun(indexed, trace, events) && i <= j < |events| && Scheduled(trace[i], id, at)
    requires Takes(events[j], id) && forall k :: i <= k < j ==> !Takes(events[k], id)
    ensures events[j].now >= at
  {
    RunsWait(indexed, trace, events, i, j, id, at);
    FetchIsOnTime(indexed, trace[j], events[j]);
    hide Step, Enabled;
  }

  /** An accepted message is scheduled for the time it asked for, or, if it asked for none, for the
      store's clock. */
  lemma AcceptSchedules(indexed: bool, s: Sys, e: Event)
    requires e.Accept? && Inv(s) && Enabled(s, e) && Enqueue(indexed, s.db, e.q, e.msg, e.now).outcome == Done
    ensures Scheduled(Step(indexed, s, e), e.msg.id, if e.msg.scheduledAt == ZERO_TIME then e.now else e.msg.scheduledAt)
  {
    ShadowNames(e.q);
    hide Inv, IsDlq, KeyTaken, ValidQueueName;
  }

  ghost predicate RetriesAt(indexed: bool, s: Sys, e: Event)
    requires e.Resolve? && Enabled(s, e)
  {
    var w := s.workers[e.w];
    && e.up && w.msg.attempts + 1 <= e.n && e.due != ZERO_TIME
    && Retry(indexed, s.db, w.queue, w.msg.(attempts := w.msg.attempts + 1, scheduledAt := e.due), e.now).outcome == Done
  }

  /** A retried message is scheduled for the end of its backoff. */
  lemma RetrySchedules(indexed: bool, s: Sys, e: Event)
    requires e.Resolve? && Inv(s) && Enabled(s, e) && RetriesAt(indexed, s, e)
    ensures Scheduled(Step(indexed, s, e), s.workers[e.w].msg.id, e.due)
  {
    WorkersKnown(s);
    hide Inv, KeyTaken, IsDlq;
  }

  /** So a message retried with a delay is in no worker's hands again before the delay is over. */
  lemma BackoffIsKept(indexed: bool, trace: seq<Sys>, events: seq<Event>, i: nat, j: nat)
    requires Delivery.IsRun(indexed, trace, events) && i < j < |events| && events[i].Resolve?
    requires Enabled(trace[i], events[i]) && RetriesAt(indexed, trace[i], events[i])
    requires var id := trace[i].workers[events[i].w].msg.id;
             Takes(events[j], id) && forall k :: i < k < j ==> !Takes(events[k], id)
    ensures events[j].now >= events[i].due
  {
    RunsKeep(indexed, trace, events, i);
    RetrySchedules(indexed, trace[i], events[i]);
    var id := trace[i].workers[events[i].w].msg.id;
    hide Step, Inv, RetriesAt, Scheduled, Takes;
    NotBeforeItsTime(indexed, trace, events, i + 1, j, id, events[i].due);
  }

  // ----- what workers hold -----

  /** The event handed the worker its message, at or after its time. */
  ghost predicate HandedAt(e: Event, w: nat, worker: Worker) {
    e.Fetch? && e.w == w && e.q == worker.queue && worker.msg.scheduledAt <= e.now
  }

  lemma StepHolds(indexed: bool, s: Sys, e: Event, w: nat)
    requires Enabled(s, e) && w in Step(indexed, s, e).workers
    ensures var worker := Step(indexed, s, e).workers[w];
            (w in s.workers && s.workers[w].msg == worker.msg && s.workers[w].queue == worker.queue) || HandedAt(e, w, worker)
  {
    hide DeadLetter, Retry, Replay, AckBatch, Ack, Reclaim, ReclaimAll, Enqueue, A.Step;
  }

  /** At every moment, whatever a worker holds was handed to it by a clock at or past its time. */
  lemma {:induction false} WorkersAreOnTime(indexed: bool, trace: seq<Sys>, events: seq<Event>, i: nat, w: nat)
    requires Delivery.IsRun(indexed, trace, events) && i < |trace| && w in trace[i].workers
    ensures exists k :: 0 <= k < i && HandedAt(events[k], w, trace[i].workers[w])
  {
    if i > 0 {
      StepHolds(indexed, trace[i - 1], events[i - 1], w);
      hide Step, Enabled;
      if !HandedAt(events[i - 1], w, trace[i].workers[w]) {
        WorkersAreOnTime(indexed, trace, events, i - 1, w);
        var k :| 0 <= k < i - 1 && HandedAt(events[k], w, trace[i - 1].workers[w]);
        assert HandedAt(events[k], w, trace[i].workers[w]);
      }
    }
  }
}
