/** What becomes of a delivery: a success is only ever acknowledged, and a message dies only when its
    attempts are used up. */
module DeadLetters {
  import opened Naming
  import opened Messages
  import opened SqlMachine
  import opened Delivery
  import A = AckBuffer
  import opened AtLeastOnce
  import opened DeliveryClaims
  import opened RetryBudget

  // ----- outcomes of a handler -----

  /** The event takes the delivery of worker w on. */
  predicate Moves(e: Event, w: nat) {
    match e
    case Invoke(x, _, _) => x == w
    case AckNow(x, _) => x == w
    case AckLater(x) => x == w
    case GiveUp(x, _, _, _, _) => x == w
    case Resolve(x, _, _, _, _, _) => x == w
    case _ => false
  }

  /** A delivery whose handler succeeded is only acknowledged, one whose handler failed only resolved, and
      one whose handler has not run runs it unless its message is over a positive retry cap. */
  lemma OutcomeDecides(s: Sys, e: Event, w: nat)
    requires Enabled(s, e) && Moves(e, w)
    ensures w in s.workers
    ensures match s.workers[w].phase
            case Succeeded => e.AckNow? || e.AckLater?
            case Failed => e.Resolve?
            case Fetched =>
              var over := (n: nat) => n > 0 && s.workers[w].msg.attempts > n;
              (e.Invoke? && !over(e.n)) || (e.GiveUp? && over(e.n))
  {
  }

  /** A handler run changes nothing but its delivery's phase, and on success completes the message. */
  lemma HandlerRuns(indexed: bool, s: Sys, e: Event)
    requires e.Invoke? && Enabled(s, e)
    ensures var s', l := Step(indexed, s, e), Origin(s, s.workers[e.w].msg.id);
            && s' == s.(workers := s.workers[e.w := s'.workers[e.w]], completed := s'.completed)
            && s'.workers[e.w].msg == s.workers[e.w].msg && s'.workers[e.w].queue == s.workers[e.w].queue
            && (e.ok ==> s'.workers[e.w].phase == Succeeded && s'.completed == s.completed + {l})
            && (!e.ok ==> s'.workers[e.w].phase == Failed && s'.completed == s.completed)
  {
  }

  /** The event is a handler's success on message l. */
  ghost predicate Succeeds(s: Sys, e: Event, l: Id) {
    e.Invoke? && e.ok && e.w in s.workers && Origin(s, s.workers[e.w].msg.id) == l
  }

  lemma StepCompletes(indexed: bool, s: Sys, e: Event, l: Id)
    requires Enabled(s, e)
    ensures l in Step(indexed, s, e).completed <==> l in s.completed || Succeeds(s, e, l)
  {
    hide DeadLetter, Retry, Replay, AckBatch, Ack, Reclaim, ReclaimAll, Enqueue, A.Step;
  }

  /** In every run a message counts as completed exactly if some handler succeeded on it. */
  lemma {:induction false} CompletedIff(indexed: bool, trace: seq<Sys>, events: seq<Event>, i: nat, l: Id)
    requires Delivery.IsRun(indexed, trace, events) && i < |trace|
    ensures l in trace[i].completed <==> exists k :: 0 <= k < i && Succeeds(trace[k], events[k], l)
  {
    if i > 0 {
      hide Step, Enabled, Succeeds;
      CompletedIff(indexed, trace, events, i - 1, l);
      StepCompletes(indexed, trace[i - 1], events[i - 1], l);
    }
  }

  // ----- acknowledgements leave with their flush -----

  /** A flush that goes through ends, handing over its ids; one that fails ends too, and its ids are back
      in the buffer, in front. */
  lemma FlushEnds(indexed: bool, s: Sys, e: Event)
    requires (e.FlushOk? || e.FlushFailed?) && Enabled(s, e)
    ensures var a, a', b := s.acks, Step(indexed, s, e).acks, s.acks.flushing[e.i];
            && a'.flushing == a.flushing[..e.i] + a.flushing[e.i + 1..] && a'.passed == a.passed
            && (e.FlushOk? ==> a'.pending == a.pending && A.BagOf(a'.handed, b.queue) == A.BagOf(a.handed, b.queue) + multiset(b.ids))
            && (e.FlushFailed? ==> a'.handed == a.handed && A.IdsOf(a'.pending, b.queue) == b.ids + A.IdsOf(a.pending, b.queue))
  {
  }

  // ----- only messages with no attempt left die -----

  /** Every dead letter has more attempts on it than the cap. */
  ghost predicate AllOver(s: Sys, n: nat) {
    forall id :: id in s.db.rows && s.lineage.Knows(id) && Letter(s, id) ==> s.db.rows[id].msg.attempts > n
  }

  /** A dead row that is not the tombstone in the message's own queue. */
  ghost predicate Letter(s: Sys, id: Id)
    requires id in s.db.rows && s.lineage.Knows(id)
  {
    s.db.rows[id].status == SqlMachine.Dead && !Tombstone(s.lineage, s.db.rows[id], id)
  }

  ghost predicate IsLimitedRun(indexed: bool, n: nat, trace: seq<Sys>, events: seq<Event>) {
    Delivery.IsRun(indexed, trace, events) && forall i :: 0 <= i < |events| ==> FixedLimit(events[i], n)
  }

  /** Dead rows as before, and all known ids known as before. */
  lemma OverStays(s: Sys, s': Sys, n: nat)
    requires AllOver(s, n) && s'.lineage == s.lineage
    requires forall id :: id in s'.db.rows && s'.db.rows[id].status == SqlMachine.Dead ==>
               id in s.db.rows && s'.db.rows[id] == s.db.rows[id]
    ensures AllOver(s', n)
  {
  }

  lemma AcceptOver(indexed: bool, s: Sys, e: Event, n: nat)
    requires e.Accept? && Inv(s) && AllOver(s, n) && Enabled(s, e)
    ensures AllOver(Step(indexed, s, e), n)
  {
    RowsKnown(s);
    ShadowNames(e.q);
    hide Inv, IsDlq, KeyTaken, ValidQueueName;
    var s' := Step(indexed, s, e);
    forall id | id in s'.db.rows && s'.lineage.Knows(id) && Letter(s', id) ensures s'.db.rows[id].msg.attempts > n {
      if id != e.msg.id {
        assert Letter(s, id);
      }
    }
  }

  lemma BuryOver(indexed: bool, s: Sys, w: nat, msg: Message, newId: Id, now: Time, n: nat)
    requires Inv(s) && AllOver(s, n) && w in s.workers && s.lineage.Fresh(newId)
    requires msg == s.workers[w].msg.(attempts := msg.attempts) && msg.attempts > n
    ensures AllOver(Bury(indexed, s, s.workers[w], msg, newId, now), n)
  {
    RowsKnown(s);
    WorkersKnown(s);
    hide Inv, IsDlq, Dlq, KeyTaken;
    var t := Bury(indexed, s, s.workers[w], msg, newId, now);
    forall id | id in t.db.rows && t.lineage.Knows(id) && Letter(t, id) ensures t.db.rows[id].msg.attempts > n {
      if id != newId && id != msg.id {
        assert Letter(s, id);
      }
    }
  }

  lemma OverSame(s: Sys, s': Sys, n: nat)
    requires AllOver(s, n) && s'.db == s.db && s'.lineage == s.lineage
    ensures AllOver(s', n)
  {
  }

  lemma FailureOver(indexed: bool, s: Sys, e: Event, n: nat)
    requires (e.GiveUp? || e.Resolve?) && FixedLimit(e, n) && Inv(s) && AllOver(s, n) && Enabled(s, e)
    ensures AllOver(Step(indexed, s, e), n)
  {
    hide Inv, AllOver, DeadLetter, Retry, Bury;
    var s', w := Step(indexed, s, e), s.workers[e.w];
    var msg := w.msg.(attempts := if e.Resolve? then w.msg.attempts + 1 else w.msg.attempts);
    if e.up && msg.attempts > n {
      BuryOver(indexed, s, e.w, msg, e.newId, e.now, n);
      NoBuryOver(indexed, s, e, msg);
      OverSame(Bury(indexed, s, w, msg, e.newId, e.now), s', n);
    } else if e.up {
      RetryKeepsDead(indexed, s, w.queue, msg.(scheduledAt := e.due), e.now);
      WorkersKnown(s);
      OverStays(s, s', n);
    } else {
      OverSame(s, s', n);
    }
  }

  lemma NoBuryOver(indexed: bool, s: Sys, e: Event, msg: Message)
    requires (e.GiveUp? || e.Resolve?) && Enabled(s, e) && e.up
    requires msg == s.workers[e.w].msg.(attempts := if e.Resolve? then s.workers[e.w].msg.attempts + 1 else s.workers[e.w].msg.attempts)
    requires e.Resolve? ==> msg.attempts > e.n
    ensures var t, s' := Bury(indexed, s, s.workers[e.w], msg, e.newId, e.now), Step(indexed, s, e);
            s'.db == t.db && s'.lineage == t.lineage
  {
    hide DeadLetter;
  }

  lemma RetryKeepsDead(indexed: bool, s: Sys, q: string, msg: Message, now: Time)
    ensures var db' := Retry(indexed, s.db, q, msg, now).db;
            !IsDlq(q) ==> forall id :: id in db'.rows && db'.rows[id].status == SqlMachine.Dead ==>
              id in s.db.rows && db'.rows[id] == s.db.rows[id]
  {
    hide IsDlq, KeyTaken;
  }

  lemma OthersOver(indexed: bool, s: Sys, e: Event, n: nat)
    requires !e.Accept? && !e.GiveUp? && !e.Resolve? && Inv(s) && AllOver(s, n) && Enabled(s, e)
    ensures AllOver(Step(indexed, s, e), n)
  {
    if e.ReplayDead? {
      RowsKnown(s);
      if Replay(indexed, s.db, e.q, e.id, e.now).outcome == Done {
        ReplayedCarries(indexed, s, e);
      } else {
        RollbackIsTotal(indexed, s.db, ReplayOp(e.q, e.id, e.now));
      }
    }
    hide Inv, AllOver, A.Step, A.Enabled, Replay, IsDlq, Dlq, KeyTaken;
    OverStays(s, Step(indexed, s, e), n);
  }

  lemma {:induction false} RunsStayOver(indexed: bool, n: nat, trace: seq<Sys>, events: seq<Event>, i: nat)
    requires IsLimitedRun(indexed, n, trace, events) && i < |trace|
    ensures Inv(trace[i]) && AllOver(trace[i], n)
  {
    RunsKeep(indexed, trace, events, i);
    if i > 0 {
      hide Inv, AllOver, Step, Enabled, FixedLimit;
      RunsStayOver(indexed, n, trace, events, i - 1);
      var s, e := trace[i - 1], events[i - 1];
      if e.Accept? {
        AcceptOver(indexed, s, e, n);
      } else if e.GiveUp? || e.Resolve? {
        FailureOver(indexed, s, e, n);
      } else {
        OthersOver(indexed, s, e, n);
      }
    }
  }

  /** In every run with MaxRetries n, reclaims and crashes included, a message lies in a shadow queue only
      with more than n attempts on it; and where the budget holds, with exactly n + 1 recorded failures:
      it is given up on no earlier and no later than documented. */
  lemma DeadMeansExhausted(indexed: bool, n: nat, trace: seq<Sys>, events: seq<Event>, i: nat, id: Id, q: string)
    requires IsLimitedRun(indexed, n, trace, events) && i < |trace|
    requires Is(trace[i].db.rows, id, q + ".dlq", SqlMachine.Dead)
    ensures trace[i].db.rows[id].msg.attempts > n
    ensures n > 0 && IsSteadyRun(indexed, n, trace, events) ==> FailuresOf(trace[i], Origin(trace[i], id)) == n + 1
  {
    var s := trace[i];
    RunsStayOver(indexed, n, trace, events, i);
    RowsKnown(s);
    LetterOf(s, id, q);
    if n > 0 && IsSteadyRun(indexed, n, trace, events) {
      RunsKeepBudget(indexed, n, trace, events, i);
      FailuresBounded(indexed, n, trace, events, i, Origin(s, id));
    }
  }

  lemma LetterOf(s: Sys, id: Id, q: string)
    requires Inv(s) && Is(s.db.rows, id, q + ".dlq", SqlMachine.Dead)
    ensures s.lineage.Knows(id) && Letter(s, id)
  {
    assert Faithful(s.lineage, id, s.db.rows[id]);
    assert Dlq(q) == q + ".dlq";
    ShadowNames(q);
    assert ValidQueueName(s.lineage.Of(id).queue);
    ShadowNames(s.lineage.Of(id).queue);
  }
}
