/** What a shutdown does with acknowledgements: none is dropped, whatever flushes fail and whoever makes
    them, and what is left when the store closes is known. */
module ShutdownHistory {
  import opened Messages
  import opened Shutdown

  /** An acknowledgement is buffered, or in someone's flush. */
  ghost predicate Held(s: State, q: string, id: Id) {
    id in PendingAt(s, q) || InFlight(s, q, id)
  }

  ghost predicate InFlight(s: State, q: string, id: Id) {
    exists h :: h in s.taken && s.taken[h].queue == q && id in s.taken[h].ids
  }

  /** A flush with it goes through. */
  ghost predicate Lands(s: State, e: Event, q: string, id: Id) {
    e.Land? && e.ok && e.h in s.taken && s.taken[e.h].queue == q && id in s.taken[e.h].ids
  }

  lemma StepHolds(s: State, e: Event, q: string, id: Id)
    requires Enabled(s, e) && Held(s, q, id) && !Lands(s, e, q, id)
    ensures Held(Step(s, e), q, id)
  {
    if e.Land? {
      LandHolds(s, e, q, id);
    } else if InFlight(s, q, id) {
      FlightHolds(s, e, q, id);
    } else {
      BufferHolds(s, e, q, id);
    }
  }

  lemma FlightHolds(s: State, e: Event, q: string, id: Id)
    requires Enabled(s, e) && InFlight(s, q, id) && !e.Land?
    ensures InFlight(Step(s, e), q, id)
  {
    var h :| h in s.taken && s.taken[h].queue == q && id in s.taken[h].ids;
    assert h in Step(s, e).taken && Step(s, e).taken[h] == s.taken[h];
  }

  lemma BufferHolds(s: State, e: Event, q: string, id: Id)
    requires Enabled(s, e) && id in PendingAt(s, q) && !e.Land?
    ensures Held(Step(s, e), q, id)
  {
    var s' := Step(s, e);
    if (e.FlushNext? || e.Take?) && e.q == q {
      var h := if e.Take? then e.h else Closer;
      assert h in s'.taken && s'.taken[h].queue == q && id in s'.taken[h].ids;
    } else {
      assert id in PendingAt(s', q);
    }
  }

  lemma LandHolds(s: State, e: Event, q: string, id: Id)
    requires e.Land? && Enabled(s, e) && Held(s, q, id) && !Lands(s, e, q, id)
    ensures Held(Step(s, e), q, id)
  {
    var s' := Step(s, e);
    if id in PendingAt(s, q) {
      assert id in PendingAt(s', q);
    } else {
      var h :| h in s.taken && s.taken[h].queue == q && id in s.taken[h].ids;
      if e.h == h {
        assert id in PendingAt(s', q);
      } else {
        assert h in s'.taken && s'.taken[h] == s.taken[h];
      }
    }
  }

  /** Over every run: an acknowledgement that is buffered, or in a flush, stays so until a flush with it
      goes through. */
  lemma {:induction false} NoneDropped(trace: seq<State>, events: seq<Event>, i: nat, j: nat, q: string, id: Id)
    requires IsRun(trace, events) && i <= j < |trace| && Held(trace[i], q, id)
    requires forall k :: i <= k < j ==> !Lands(trace[k], events[k], q, id)
    ensures Held(trace[j], q, id)
  {
    if i < j {
      hide Enabled, Step, Held, Lands;
      NoneDropped(trace, events, i, j - 1, q, id);
      assert IsStep(trace[j - 1], events[j - 1], trace[j]);
      StepHolds(trace[j - 1], events[j - 1], q, id);
    }
  }

  /** Buffering is what holds it. */
  lemma BufferingHolds(s: State, t: nat, q: string, id: Id)
    requires t in s.tasks
    ensures Enabled(s, BufferAck(t, q, id)) && Held(Step(s, BufferAck(t, q, id)), q, id)
  {
  }

  /** A flush that goes through takes its acknowledgements along, and moves nothing else. */
  lemma LandedIsGone(s: State, h: Holder)
    requires Enabled(s, Land(h, true))
    ensures Step(s, Land(h, true)) == s.(taken := s.taken - {h})
  {
  }

  /** The final flush of the queue fails. */
  ghost predicate FinalFlushFails(s: State, e: Event, q: string) {
    e == Land(Closer, false) && Closer in s.taken && s.taken[Closer].queue == q
  }

  function FailedOf(pc: Pc): set<string> {
    match pc
    case Flushing(_, failed) => failed
    case Finished(failed) => failed
    case _ => {}
  }

  lemma StepFails(s: State, e: Event, q: string)
    requires Once(s) && Enabled(s, e)
    ensures q in FailedOf(Step(s, e).pc) <==> q in FailedOf(s.pc) || FinalFlushFails(s, e, q)
  {
    if e.Land? {
      LandFails(s, e, q);
    } else {
      hide PutBack, Once;
    }
  }

  lemma LandFails(s: State, e: Event, q: string)
    requires e.Land? && Once(s) && Enabled(s, e)
    ensures q in FailedOf(Step(s, e).pc) <==> q in FailedOf(s.pc) || FinalFlushFails(s, e, q)
  {
    hide PutBack;
  }

  ghost predicate HasFailed(trace: seq<State>, events: seq<Event>, i: nat, q: string)
    requires i <= |events| < |trace|
  {
    exists k :: 0 <= k < i && FinalFlushFails(trace[k], events[k], q)
  }

  lemma HasFailedNext(trace: seq<State>, events: seq<Event>, i: nat, q: string)
    requires 0 < i <= |events| < |trace|
    ensures HasFailed(trace, events, i, q) <==> HasFailed(trace, events, i - 1, q) || FinalFlushFails(trace[i - 1], events[i - 1], q)
  {
    hide FinalFlushFails;
  }

  /** In every run the queues noted as failed are exactly those whose final flush failed. */
  lemma {:induction false} FailedIff(trace: seq<State>, events: seq<Event>, i: nat, q: string)
    requires IsRun(trace, events) && i < |trace|
    ensures q in FailedOf(trace[i].pc) <==> HasFailed(trace, events, i, q)
  {
    if i > 0 {
      hide Enabled, Step, FinalFlushFails, FailedOf, Once, HasFailed;
      FailedIff(trace, events, i - 1, q);
      StoreClosedAtMostOnce(trace, events, i - 1);
      assert IsStep(trace[i - 1], events[i - 1], trace[i]);
      StepFails(trace[i - 1], events[i - 1], q);
      HasFailedNext(trace, events, i, q);
    }
  }

  /** So an acknowledgement buffered at some moment has landed when the store is closed, or a final flush
      of its queue failed. */
  lemma LandedOrFailed(trace: seq<State>, events: seq<Event>, i: nat, j: nat, q: string, id: Id)
    requires IsRun(trace, events) && i <= j < |trace| && Held(trace[i], q, id) && trace[j].storeCloses > 0
    requires forall k :: 0 <= k < j ==> NoLateStart(trace[k], events[k])
    ensures (exists k :: i <= k < j && Lands(trace[k], events[k], q, id))
            || HasFailed(trace, events, j, q)
  {
    if forall k :: i <= k < j ==> !Lands(trace[k], events[k], q, id) {
      NoneDropped(trace, events, i, j, q, id);
      ClosedLast(trace, events, j);
      FailedIff(trace, events, j, q);
      hide IsRun, NoLateStart, Lands, HasFailed;
      assert trace[j].pc.Finished?;
      assert id in PendingAt(trace[j], q);
      assert q in trace[j].pc.failed;
    }
  }

  // ----- who gets in -----

  /** The first Shutdown call goes on, and later ones do nothing. */
  lemma EntersIff(s: State)
    requires Once(s)
    ensures Step(s, Enter) == if s.closed then s else s.(closed := true, pc := Entered)
    ensures s.closed <==> s.pc != Absent
  {
  }

  /** The ack loop runs until it is told to stop, and only the close, past its wait for the tasks, tells it. */
  lemma {:induction false} AckLoopRuns(trace: seq<State>, events: seq<Event>, i: nat)
    requires IsRun(trace, events) && i < |trace| && trace[0] == Initial(true)
    ensures !trace[i].ackStop ==> trace[i].ackRunning
    ensures trace[i].ackStop ==> PastWait(trace[i].pc)
  {
    if i > 0 {
      AckLoopRuns(trace, events, i - 1);
      assert IsStep(trace[i - 1], events[i - 1], trace[i]);
      StoreClosedAtMostOnce(trace, events, i - 1);
    }
  }

  // ----- the two paths, and the way out -----

  /** A stop is requested once the call is past its first step, an abort only after that, and never while it
      still selects between the two paths. */
  ghost predicate FlagsOk(s: State) {
    && (s.stop <==> s.pc != Absent && s.pc != Entered)
    && (s.pc == Selecting ==> !s.abort) && (s.pc == Expired ==> s.abort) && (s.abort ==> s.stop)
  }

  lemma StepFlags(s: State, e: Event)
    requires Once(s) && FlagsOk(s) && Enabled(s, e)
    ensures FlagsOk(Step(s, e)) && (Step(s, e).abort <==> s.abort || e == Expire)
  {
    if e.Land? || e.Take? || e.FlushNext? {
      FlushFlags(s, e);
    } else {
      hide Once;
    }
  }

  /** In every run the flags are so, and the abort is requested exactly if the call's context expired. */
  lemma {:induction false} FlagsAre(trace: seq<State>, events: seq<Event>, i: nat)
    requires IsRun(trace, events) && i < |trace|
    ensures FlagsOk(trace[i])
    ensures trace[i].abort <==> Expire in events[..i]
  {
    if i > 0 {
      hide Enabled, Step, Once, FlagsOk;
      FlagsAre(trace, events, i - 1);
      StoreClosedAtMostOnce(trace, events, i - 1);
      assert IsStep(trace[i - 1], events[i - 1], trace[i]);
      StepFlags(trace[i - 1], events[i - 1]);
      LastOf(events, i);
    }
  }

  lemma LastOf(events: seq<Event>, i: nat)
    requires 0 < i <= |events|
    ensures Expire in events[..i] <==> Expire in events[..i - 1] || events[i - 1] == Expire
  {
    assert events[..i] == events[..i - 1] + [events[i - 1]];
  }

  /** A flush touches no flag, and the point of the close at most in the sets it carries. */
  lemma FlushFlags(s: State, e: Event)
    requires Enabled(s, e) && (e.Land? || e.Take? || e.FlushNext?)
    ensures var s' := Step(s, e);
            s'.stop == s.stop && s'.abort == s.abort && (s'.pc == s.pc || (s'.pc.Flushing? && s.pc.Flushing?))
  {
    hide PutBack;
  }

  /** Once the wait group has been seen at zero, the rest of the close needs nobody else. */
  lemma {:induction false} Finishes(trace: seq<State>, events: seq<Event>)
    returns (trace': seq<State>, events': seq<Event>)
    requires IsRun(trace, events) && Once(trace[|events|]) && trace[|events|].done
    ensures GoesOn(trace, events, trace', events') && trace'[|events'|].storeCloses > 0
    decreases Rank(trace[|events|].pc), LeftOf(trace[|events|].pc), trace[|events|].ackRunning, |trace[|events|].taken|
  {
    var s := trace[|events|];
    assert |trace| == |events| + 1;
    hide IsRun, Enabled, Step, NextOfClose;
    if s.pc.Finished? {
      trace', events' := trace, events;
    } else {
      CloseNears(s);
      var e := NextOfClose(s);
      StepOnce(s, e);
      hide Once;
      Extend(trace, events, e);
      var t1, es1 := trace + [Step(s, e)], events + [e];
      assert t1[|es1|] == Step(s, e);
      trace', events' := Finishes(t1, es1);
    }
  }

  /** The tasks that run can end, one after another. */
  lemma {:induction false} TasksEnd(trace: seq<State>, events: seq<Event>)
    returns (trace': seq<State>, events': seq<Event>)
    requires IsRun(trace, events)
    ensures GoesOn(trace, events, trace', events') && trace'[|events'|].tasks == {}
    ensures trace'[|events'|].stop == trace[|events|].stop
    decreases trace[|events|].tasks, |trace[|events|].taken|
  {
    var s := trace[|events|];
    assert |trace| == |events| + 1;
    hide IsRun;
    if t :| t in s.tasks {
      var e := if Task(t) in s.taken then Land(Task(t), true) else End(t);
      var s1 := Step(s, e);
      assert Task(t) in s.taken ==> (s.taken - {Task(t)})[Task(t) := s.taken[Task(t)]] == s.taken;
      Extend(trace, events, e);
      var t1, es1 := trace + [s1], events + [e];
      assert t1[|es1|] == s1;
      trace', events' := TasksEnd(t1, es1);
    } else {
      trace', events' := trace, events;
    }
  }

  /** A shutdown that has begun can always be completed, from wherever it is: the tasks end, and with no
      further start the store gets closed. */
  lemma CanFinish(trace: seq<State>, events: seq<Event>) returns (trace': seq<State>, events': seq<Event>)
    requires IsRun(trace, events) && trace[|events|].closed
    ensures GoesOn(trace, events, trace', events') && trace'[|events'|].storeCloses > 0
  {
    var t, es := trace, events;
    assert |trace| == |events| + 1;
    StoreClosedAtMostOnce(trace, events, |events|);
    FlagsAre(trace, events, |events|);
    if t[|es|].pc == Entered {
      Extend(t, es, CloseStop);
      t, es := t + [Step(t[|es|], CloseStop)], es + [CloseStop];
    }
    assert t[|es|].stop;
    hide IsRun;
    var t1, es1 := TasksEnd(t, es);
    StoreClosedAtMostOnce(t1, es1, |es1|);
    Extend(t1, es1, WaiterFires);
    var t2, es2 := t1 + [Step(t1[|es1|], WaiterFires)], es1 + [WaiterFires];
    StoreClosedAtMostOnce(t2, es2, |es2|);
    trace', events' := Finishes(t2, es2);
  }
}
