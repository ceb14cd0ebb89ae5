/** Which loops a Pause holds back. A loop reads the pause flag before it fetches; one that is past that
    point with nothing pending can still be drained, and leave, while the queue is paused. */
module PauseEffect {
  import opened Messages
  import opened Dispatcher
  import opened DispatcherSafety
  import opened DispatcherClaims
  import opened DrainQuiescence
  import opened DrainRaces
  import opened ResumeEffect
  import opened DrainSignal

  /** Between the pause check and the end of the drain checks. */
  predicate PastPauseCheck(pc: Pc) {
    pc == Fetching || pc == EmptyCheck || PastAbortCheck(pc)
  }

  /** The pause holds the loop: it comes by the pause check before it can leave. */
  ghost predicate IsHeld(s: State, pc: Pc) {
    pc != Signal && !pc.Leaving? && (PastPauseCheck(pc) ==> !DepthIsZero(s))
  }

  ghost predicate Paused(s: State) {
    s.ctl.paused && !s.ctl.aborted
  }

  predicate Lifts(e: Event) {
    e == Called(Pause(false)) || e == Called(Abort)
  }

  ghost predicate StaysPaused(events: seq<Event>, from: nat) {
    forall i :: from <= i < |events| ==> !Lifts(events[i])
  }

  // ----- a held loop stays -----

  lemma NextIsHeld(n: nat, s: State, l: Loop, move: Move)
    requires MoveEnabled(n, s, l, move) && Paused(s) && IsHeld(s, l.pc)
    ensures var pc := NextPc(n, s, l, move);
            pc != Signal && !pc.Leaving? && (PastPauseCheck(pc) ==> !DepthIsZero(s))
    ensures move.Fetch? && move.batch != [] ==> !PastPauseCheck(NextPc(n, s, l, move))
    ensures move != Leave
  {
    hide PlacedAt, DepthIsZero, Distinct;
  }

  lemma FetchNoneStays(n: nat, s: State, d: nat)
    requires d in s.pool.loops && MoveEnabled(n, s, s.pool.loops[d], Fetch([]))
    ensures MoveStep(n, s, d, Fetch([])).msgs == s.msgs
  {
    assert Put(s.msgs, AsSet([]), Claimed) == s.msgs;
  }

  lemma StepIsHeld(n: nat, s: State, e: Event, d: nat)
    requires Safe(n, s) && Exclusive(s) && Enabled(n, s, e) && !Lifts(e) && Paused(s)
    requires d in s.pool.loops && IsHeld(s, s.pool.loops[d].pc)
    ensures var s' := Step(n, s, e);
            Paused(s') && d in s'.pool.loops && IsHeld(s', s'.pool.loops[d].pc)
  {
    assert forall f :: f in s.pool.loops ==> f == d;
    assert LoopOk(n, s.pool, s.ctl.aborted, d);
    hide Safe, Exclusive;
    if e.Moved? && e.move == Fetch([]) {
      FetchNoneStays(n, s, d);
    } else if !(e.Moved? && e.move.Fetch?) {
      DepthStays(n, s, e);
    }
    hide DepthIsZero, MsgsAfter, MoveMsgs, WorkMsgs;
    match e
    case Called(c) =>
    case Worked(w, work) =>
      WorkLoops(s.pool, w, work);
      WorkKeepsLoops(s.pool, w, work);
      hide WorkPool;
    case Moved(f, move) =>
      NextIsHeld(n, s, s.pool.loops[d], move);
      hide NextPc;
  }

  /** Over runs: while no Pause is lifted and no abort begins, a held loop is there at every moment,
      whatever drain or shutdown is requested. */
  lemma {:induction false} HeldLoopWaits(n: nat, trace: seq<State>, events: seq<Event>, i: nat, j: nat, d: nat)
    requires IsRun(n, trace, events) && i <= j < |trace| && Paused(trace[i])
    requires forall k :: i <= k < j ==> !Lifts(events[k])
    requires d in trace[i].pool.loops && IsHeld(trace[i], trace[i].pool.loops[d].pc)
    ensures Paused(trace[j]) && d in trace[j].pool.loops && IsHeld(trace[j], trace[j].pool.loops[d].pc)
  {
    hide Enabled, Step, Safe, Exclusive, IsHeld, Paused, Lifts;
    if i < j {
      HeldLoopWaits(n, trace, events, i, j - 1, d);
      RunsSafe(n, trace, events, j - 1);
      RunsExclusive(n, trace, events, j - 1);
      assert IsStep(n, trace[j - 1], events[j - 1], trace[j]);
      StepIsHeld(n, trace[j - 1], events[j - 1], d);
    }
  }

  // ----- any other can leave -----

  lemma {:induction false} LoopsAreRegistered(n: nat, trace: seq<State>, events: seq<Event>, i: nat)
    requires IsRun(n, trace, events) && i < |trace|
    ensures trace[i].pool.loops != map[] ==> trace[i].ctl.registered
  {
    if i > 0 {
      hide Enabled, Step;
      LoopsAreRegistered(n, trace, events, i - 1);
      assert IsStep(n, trace[i - 1], events[i - 1], trace[i]);
      StepRegisters(n, trace[i - 1], events[i - 1]);
    }
  }

  lemma StepRegisters(n: nat, s: State, e: Event)
    requires Enabled(n, s, e) && (s.pool.loops != map[] ==> s.ctl.registered)
    ensures Step(n, s, e).pool.loops != map[] ==> Step(n, s, e).ctl.registered
  {
    hide MsgsAfter, MoveMsgs, WorkMsgs, MoveDrains, DrainsAfter, CallEnabled, WorkEnabled, NextPc;
    match e
    case Called(c) =>
    case Worked(w, work) => WorkLoops(s.pool, w, work);
    case Moved(d, move) =>
  }

  /** From the passed drain check, the loop signals and leaves. */
  lemma LeavesFromSignal(n: nat, trace: seq<State>, events: seq<Event>, d: nat)
    returns (trace': seq<State>, events': seq<Event>)
    requires IsRun(n, trace, events) && At(trace[|events|], d, Signal)
    ensures GoesOn(n, trace, events, trace', events') && StaysPaused(events', |events|)
    ensures d !in trace'[|events'|].pool.loops
  {
    hide IsRun;
    var t, es := Then(n, trace, events, Moved(d, SignalDone));
    trace', events' := Then(n, t, es, Moved(d, Leave));
    Chain(n, trace, events, t, es, trace', events');
  }

  lemma InternalStaysPaused(events: seq<Event>, from: nat)
    requires OnlyInternal(events, from)
    ensures StaysPaused(events, from)
  {
  }

  lemma StaysPausedOn(n: nat, t1: seq<State>, e1: seq<Event>, t2: seq<State>, e2: seq<Event>, from: nat)
    requires GoesOn(n, t1, e1, t2, e2) && from <= |e1| && StaysPaused(e1, from) && StaysPaused(e2, |e1|)
    ensures StaysPaused(e2, from)
  {
    hide IsRun, Lifts;
    forall i | from <= i < |e2| ensures !Lifts(e2[i]) {
      if i < |e1| {
        assert e2[i] == e1[i];
      }
    }
  }

  /** Past the pause check with nothing pending: a Drain gets the loop to the passed drain check. */
  lemma DrainedWhilePaused(n: nat, trace: seq<State>, events: seq<Event>, d: nat)
    returns (trace': seq<State>, events': seq<Event>)
    requires IsRun(n, trace, events)
    requires var s := trace[|events|];
             Paused(s) && d in s.pool.loops && PastPauseCheck(s.pool.loops[d].pc) && DepthIsZero(s)
    ensures GoesOn(n, trace, events, trace', events') && StaysPaused(events', |events|)
    ensures At(trace'[|events'|], d, Signal)
  {
    var s := trace[|events|];
    assert |trace| == |events| + 1;
    LoopsAreRegistered(n, trace, events, |events|);
    hide IsRun;
    var t1, e1 := Then(n, trace, events, Called(DrainBegin));
    SameDepth(s, t1[|e1|]);
    assert Onward(t1[|e1|], t1[|e1|].pool.loops[d].pc);
    hide Step, Enabled, DepthIsZero;
    var t2, e2 := WorkersEnd(n, t1, e1);
    RunsSafe(n, t2, e2, |e2|);
    SameOnward(t1[|e1|], t2[|e2|], d);
    assert t2[|e2|].pool.inflight == 0;
    hide Safe, Onward, SameLoops, OnlyInternal, StaysPaused;
    var t3, e3 := SignalsOnItsOwn(n, t2, e2, d);
    trace', events' := t3, e3;
    InternalStaysPaused(e2, |e1|);
    InternalStaysPaused(e3, |e2|);
    OneDrain(events, e1);
    StaysPausedOn(n, t1, e1, t2, e2, |events|);
    StaysPausedOn(n, t2, e2, t3, e3, |events|);
    Chain(n, trace, events, t1, e1, t2, e2);
    Chain(n, trace, events, t2, e2, t3, e3);
  }

  lemma OneDrain(events: seq<Event>, events': seq<Event>)
    requires events' == events + [Called(DrainBegin)]
    ensures StaysPaused(events', |events|)
  {
  }

  lemma LeavesWhilePaused(n: nat, trace: seq<State>, events: seq<Event>, d: nat)
    returns (trace': seq<State>, events': seq<Event>)
    requires IsRun(n, trace, events)
    requires var s := trace[|events|]; Paused(s) && d in s.pool.loops && !IsHeld(s, s.pool.loops[d].pc)
    ensures GoesOn(n, trace, events, trace', events') && StaysPaused(events', |events|)
    ensures d !in trace'[|events'|].pool.loops
  {
    var s := trace[|events|];
    assert |trace| == |events| + 1;
    hide IsRun;
    if s.pool.loops[d].pc.Leaving? {
      trace', events' := Then(n, trace, events, Moved(d, Leave));
    } else if s.pool.loops[d].pc == Signal {
      trace', events' := LeavesFromSignal(n, trace, events, d);
    } else {
      hide StaysPaused, DepthIsZero;
      var t, es := DrainedWhilePaused(n, trace, events, d);
      trace', events' := LeavesFromSignal(n, t, es, d);
      Chain(n, trace, events, t, es, trace', events');
      StaysPausedOn(n, t, es, trace', events', |events|);
    }
  }

  /** The exact condition, in every run: the loop of a paused queue stays in every continuation in which
      the pause is not lifted and no abort begins, if and only if the pause holds it. */
  lemma PauseHoldsIff(n: nat, trace: seq<State>, events: seq<Event>, d: nat)
    requires IsRun(n, trace, events) && Paused(trace[|events|]) && d in trace[|events|].pool.loops
    ensures (forall trace': seq<State>, events': seq<Event> ::
               GoesOn(n, trace, events, trace', events') && StaysPaused(events', |events|) ==> d in trace'[|events'|].pool.loops)
            <==> IsHeld(trace[|events|], trace[|events|].pool.loops[d].pc)
  {
    var s := trace[|events|];
    assert |trace| == |events| + 1;
    hide IsRun, IsHeld, Lifts;
    if IsHeld(s, s.pool.loops[d].pc) {
      forall trace': seq<State>, events': seq<Event> | GoesOn(n, trace, events, trace', events') && StaysPaused(events', |events|)
        ensures d in trace'[|events'|].pool.loops
      {
        GoesOnFrom(n, trace, events, trace', events');
        HeldLoopWaits(n, trace', events', |events|, |events'|, d);
      }
    } else {
      var trace', events' := LeavesWhilePaused(n, trace, events, d);
    }
  }
}
