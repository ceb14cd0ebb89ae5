/** When a Resume takes effect. Its second half starts a loop only if there is none, so it relies on
    the loop it finds: if that one is past the point where the drain can still be called off, it leaves
    and the queue stays without a dispatcher. */
module ResumeEffect {
  import opened Messages
  import opened Dispatcher
  import opened DispatcherSafety
  import opened DispatcherClaims
  import opened DrainQuiescence
  import opened DrainRaces

  /** Inside a drain check whose depth is still to be read. */
  predicate InCheck(pc: Pc) {
    pc.Quiesce? || pc.Flush? || pc.ReadDepth?
  }

  /** The loop cannot leave: it is outside the drain check, or inside it with something pending. */
  ghost predicate Stays(s: State, pc: Pc) {
    !pc.Signal? && !pc.Leaving? && (InCheck(pc) ==> !DepthIsZero(s))
  }

  ghost predicate HasStayingLoop(s: State) {
    exists d :: d in s.pool.loops && Stays(s, s.pool.loops[d].pc)
  }

  /** No drain, stop or abort is asked for. */
  ghost predicate Calm(s: State) {
    !s.drain.draining && !s.ctl.stopping && !s.ctl.aborted
  }

  predicate Disturbs(e: Event) {
    e == Called(DrainBegin) || e == Called(Stop) || e == Called(Abort)
  }

  // ----- a loop that stays goes on staying -----

  /** Only a fetch takes a message out of pending. */
  lemma PendingStays(n: nat, s: State, e: Event, m: Id)
    requires Exclusive(s) && Enabled(n, s, e) && m in s.msgs.place && s.msgs.place[m] == Pending
    requires !(e.Moved? && e.move.Fetch?)
    ensures m in Step(n, s, e).msgs.place && Step(n, s, e).msgs.place[m] == Pending
  {
    hide HandlersApart, BatchApart, WorkPool, MovePool, NextPc;
    match e
    case Called(c) => assert MsgsAfter(s.msgs, c).place[m] == Pending;
    case Worked(w, work) => assert WorkMsgs(s.msgs, s.pool.workers[w].msg, work).place[m] == Pending;
    case Moved(d, move) => assert MoveMsgs(s.msgs, move).place[m] == Pending;
  }

  /** In calm, a loop outside the drain check stays outside, and one inside with something pending
      comes out. */
  lemma NextStays(n: nat, s: State, l: Loop, move: Move)
    requires MoveEnabled(n, s, l, move) && Calm(s) && Stays(s, l.pc)
    ensures var pc := NextPc(n, s, l, move);
            !pc.Signal? && !pc.Leaving? && (InCheck(pc) ==> !DepthIsZero(s))
    ensures InCheck(NextPc(n, s, l, move)) ==> !move.Fetch?
    ensures move != Leave
  {
    hide PlacedAt, DepthIsZero, Distinct;
  }

  lemma StepStays(n: nat, s: State, e: Event, d: nat)
    requires Safe(n, s) && Exclusive(s) && Enabled(n, s, e) && !Disturbs(e) && Calm(s)
    requires d in s.pool.loops && Stays(s, s.pool.loops[d].pc)
    ensures var s' := Step(n, s, e);
            Calm(s') && d in s'.pool.loops && Stays(s', s'.pool.loops[d].pc)
  {
    var s' := Step(n, s, e);
    assert forall f :: f in s.pool.loops ==> f == d;
    assert LoopOk(n, s.pool, s.ctl.aborted, d);
    hide Safe, Exclusive;
    if !(e.Moved? && e.move.Fetch?) {
      DepthStays(n, s, e);
    }
    hide DepthIsZero, MsgsAfter, MoveMsgs, WorkMsgs;
    match e
    case Called(c) => CallStaysCalm(s, c);
    case Worked(w, work) =>
      WorkLoops(s.pool, w, work);
      WorkKeepsLoops(s.pool, w, work);
      hide WorkPool;
    case Moved(f, move) =>
      NextStays(n, s, s.pool.loops[d], move);
      hide NextPc;
  }

  lemma CallStaysCalm(s: State, c: Call)
    requires Calm(s) && CallEnabled(s, c) && !Disturbs(Called(c))
    ensures Calm(CallStep(s, c))
  {
  }

  lemma WorkKeepsLoops(x: Pool, w: nat, work: Work)
    requires w in x.workers
    ensures x.loops.Keys <= WorkPool(x, w, work).loops.Keys
  {
  }

  lemma DepthStays(n: nat, s: State, e: Event)
    requires Exclusive(s) && Enabled(n, s, e) && !(e.Moved? && e.move.Fetch?)
    ensures !DepthIsZero(s) ==> !DepthIsZero(Step(n, s, e))
  {
    if m :| m in s.msgs.place && s.msgs.place[m] == Pending {
      hide Exclusive, Enabled, Step;
      PendingStays(n, s, e, m);
    }
  }

  /** Over runs: from a calm moment with a loop that stays, that loop is live at every later moment
      until a drain, stop or abort is next asked for. */
  lemma {:induction false} StaysLive(n: nat, trace: seq<State>, events: seq<Event>, i: nat, j: nat, d: nat)
    requires IsRun(n, trace, events) && i <= j < |trace| && Calm(trace[i])
    requires d in trace[i].pool.loops && Stays(trace[i], trace[i].pool.loops[d].pc)
    requires forall k :: i <= k < j ==> !Disturbs(events[k])
    ensures Calm(trace[j]) && d in trace[j].pool.loops && Stays(trace[j], trace[j].pool.loops[d].pc)
  {
    hide Enabled, Step, Safe, Exclusive, Stays, Calm, Disturbs;
    if i < j {
      StaysLive(n, trace, events, i, j - 1, d);
      RunsSafe(n, trace, events, j - 1);
      RunsExclusive(n, trace, events, j - 1);
      assert IsStep(n, trace[j - 1], events[j - 1], trace[j]);
      StepStays(n, trace[j - 1], events[j - 1], d);
    }
  }

  // ----- any other loop can leave -----

  /** Same loops at the same points, same flags and channels, and nothing newly pending. */
  ghost predicate SameLoops(s: State, s': State) {
    && s'.ctl == s.ctl && s'.drain == s.drain && s'.pool.loops.Keys == s.pool.loops.Keys
    && (forall d :: d in s.pool.loops ==> s'.pool.loops[d].pc == s.pool.loops[d].pc)
    && (DepthIsZero(s) ==> DepthIsZero(s'))
  }

  /** A worker's step other than a follow-up or a retry. */
  lemma WorkIsHarmless(n: nat, s: State, w: nat, work: Work)
    requires w in s.pool.workers && WorkEnabled(s, s.pool.workers[w], work) && Internal(Worked(w, work))
    ensures SameLoops(s, WorkStep(s, w, work))
  {
    WorkLoops(s.pool, w, work);
    WorkKeepsLoops(s.pool, w, work);
    hide WorkPool;
  }

  /** The step with which a worker gets on. */
  function NextWork(stage: Stage): Work {
    match stage
    case Handling => Resolve(AckStored)
    case Returned => Release
    case Released => Finish
  }

  function StagesLeft(stage: Stage): nat {
    match stage
    case Handling => 2
    case Returned => 1
    case Released => 0
  }

  lemma {:induction false} WorkerEnds(n: nat, trace: seq<State>, events: seq<Event>, w: nat)
    returns (trace': seq<State>, events': seq<Event>)
    requires IsRun(n, trace, events) && w in trace[|events|].pool.workers
    ensures GoesOn(n, trace, events, trace', events') && OnlyInternal(events', |events|)
    ensures SameLoops(trace[|events|], trace'[|events'|])
    ensures trace'[|events'|].pool.workers == trace[|events|].pool.workers - {w}
    decreases StagesLeft(trace[|events|].pool.workers[w].stage)
  {
    var s := trace[|events|];
    assert |trace| == |events| + 1;
    var stage := s.pool.workers[w].stage;
    var t1, e1 := Then(n, trace, events, Worked(w, NextWork(stage)));
    WorkIsHarmless(n, s, w, NextWork(stage));
    var s1 := t1[|e1|];
    assert s1.pool.workers == if stage == Released then s.pool.workers - {w}
                              else s.pool.workers[w := s.pool.workers[w].(stage := if stage == Handling then Returned else Released)];
    hide IsRun, Step, Enabled, DepthIsZero, SameLoops;
    if stage == Released {
      trace', events' := t1, e1;
    } else {
      var t2, e2 := WorkerEnds(n, t1, e1, w);
      SameLoopsChain(s, s1, t2[|e2|]);
      Chain(n, trace, events, t1, e1, t2, e2);
      assert s1.pool.workers - {w} == s.pool.workers - {w};
      trace', events' := t2, e2;
    }
  }

  lemma SameLoopsChain(s: State, s1: State, s2: State)
    requires SameLoops(s, s1) && SameLoops(s1, s2)
    ensures SameLoops(s, s2)
  {
    hide DepthIsZero;
  }

  lemma {:induction false} WorkersEnd(n: nat, trace: seq<State>, events: seq<Event>)
    returns (trace': seq<State>, events': seq<Event>)
    requires IsRun(n, trace, events)
    ensures GoesOn(n, trace, events, trace', events') && OnlyInternal(events', |events|)
    ensures SameLoops(trace[|events|], trace'[|events'|]) && trace'[|events'|].pool.workers == map[]
    decreases trace[|events|].pool.workers.Keys
  {
    var s := trace[|events|];
    assert |trace| == |events| + 1;
    hide IsRun, DepthIsZero;
    if w :| w in s.pool.workers {
      hide SameLoops;
      var t1, e1 := WorkerEnds(n, trace, events, w);
      var t2, e2 := WorkersEnd(n, t1, e1);
      SameLoopsChain(s, t1[|e1|], t2[|e2|]);
      Chain(n, trace, events, t1, e1, t2, e2);
      trace', events' := t2, e2;
    } else {
      trace', events' := trace, events;
    }
  }

  function Distance(pc: Pc): nat {
    if pc.Quiesce? then 4 else if pc.Flush? then 3 else if pc.ReadDepth? then 2 else if pc.Signal? then 1 else 0
  }

  function MoveOut(pc: Pc): Move {
    if pc.Quiesce? then CheckQuiescent
    else if pc.Flush? then FlushOwn({}, true)
    else if pc.ReadDepth? then ReadStats(true)
    else if pc.Signal? then SignalDone
    else Leave
  }

  /** One move towards the exit. */
  lemma MovesOut(n: nat, s: State, d: nat)
    requires d in s.pool.loops && !Stays(s, s.pool.loops[d].pc) && !s.pool.loops[d].pc.Leaving?
    requires s.pool.loops[d].pc.Quiesce? ==> s.pool.inflight == 0
    ensures var pc := s.pool.loops[d].pc;
            MoveEnabled(n, s, s.pool.loops[d], MoveOut(pc))
            && var s' := MoveStep(n, s, d, MoveOut(pc));
               && s'.pool.loops.Keys == s.pool.loops.Keys
               && !Stays(s', s'.pool.loops[d].pc) && Distance(s'.pool.loops[d].pc) < Distance(pc)
               && !s'.pool.loops[d].pc.Quiesce?
  {
    assert Put(s.msgs, {}, Acked) == s.msgs;
  }

  /** Without any call, only by moves of the loop and by handlers that succeed, the loop leaves. */
  lemma {:induction false} LeavesOnItsOwn(n: nat, trace: seq<State>, events: seq<Event>, d: nat)
    returns (trace': seq<State>, events': seq<Event>)
    requires IsRun(n, trace, events)
    requires var s := trace[|events|];
             && d in s.pool.loops && !Stays(s, s.pool.loops[d].pc)
             && (s.pool.loops[d].pc.Quiesce? ==> s.pool.inflight == 0)
    ensures GoesOn(n, trace, events, trace', events') && OnlyInternal(events', |events|)
    ensures trace'[|events'|].pool.loops == map[]
    decreases Distance(trace[|events|].pool.loops[d].pc)
  {
    var s := trace[|events|];
    assert |trace| == |events| + 1;
    var pc := s.pool.loops[d].pc;
    RunsSafe(n, trace, events, |events|);
    assert forall f :: f in s.pool.loops ==> f == d;
    hide IsRun, Safe, Stays, Distance;
    if pc.Leaving? {
      trace', events' := Then(n, trace, events, Moved(d, Leave));
      assert trace'[|events'|].pool.loops == map[];
    } else {
      MovesOut(n, s, d);
      var t1, e1 := Then(n, trace, events, Moved(d, MoveOut(pc)));
      hide Step, Enabled, MoveStep, MoveEnabled, MoveOut;
      var t2, e2 := LeavesOnItsOwn(n, t1, e1, d);
      Chain(n, trace, events, t1, e1, t2, e2);
      trace', events' := t2, e2;
    }
  }

  /** A loop past that point can leave, whatever it still waits for. */
  lemma CanLeave(n: nat, trace: seq<State>, events: seq<Event>, d: nat)
    returns (trace': seq<State>, events': seq<Event>)
    requires IsRun(n, trace, events)
    requires d in trace[|events|].pool.loops && !Stays(trace[|events|], trace[|events|].pool.loops[d].pc)
    ensures GoesOn(n, trace, events, trace', events') && OnlyInternal(events', |events|)
    ensures trace'[|events'|].pool.loops == map[]
  {
    var s := trace[|events|];
    var t1, e1 := WorkersEnd(n, trace, events);
    var s1 := t1[|e1|];
    RunsSafe(n, t1, e1, |e1|);
    assert s1.pool.inflight == |s1.pool.workers| == 0;
    assert !Stays(s1, s1.pool.loops[d].pc);
    hide IsRun, Safe, Stays, SameLoops;
    trace', events' := LeavesOnItsOwn(n, t1, e1, d);
    Chain(n, trace, events, t1, e1, trace', events');
  }

  // ----- the exact condition -----

  ghost predicate Undisturbed(events: seq<Event>, from: nat) {
    forall i :: from <= i < |events| ==> !Disturbs(events[i])
  }

  /** The second half of a Resume, made in calm on a registered queue of an open broker: the queue keeps
      a loop for as long as no drain, stop or abort is asked for, in every continuation, if and only if
      the Resume found no loop or one that stays. */
  lemma ResumeTakesEffectIff(n: nat, trace: seq<State>, events: seq<Event>, r: nat)
    requires IsRun(n, trace, events)
    requires var s := trace[|events|];
             && r in s.drain.resumes && Calm(s) && s.ctl.registered && !s.ctl.closed
    ensures var s := trace[|events|];
            var e := Called(ResumeEnd(r));
            var t1, e1 := trace + [CallStep(s, ResumeEnd(r))], events + [e];
            && IsRun(n, t1, e1)
            && ((forall trace': seq<State>, events' :: GoesOn(n, t1, e1, trace', events') && Undisturbed(events', |e1|)
                                           ==> trace'[|events'|].pool.loops != map[])
                <==> s.pool.loops == map[] || HasStayingLoop(s))
  {
    var s := trace[|events|];
    assert |trace| == |events| + 1;
    RunsSafe(n, trace, events, |events|);
    var t1, e1 := Then(n, trace, events, Called(ResumeEnd(r)));
    var s1 := t1[|e1|];
    ResumeFinds(n, s, r);
    hide Safe, Step, CallStep, Enabled, IsRun, Disturbs;
    if s.pool.loops == map[] || HasStayingLoop(s) {
      var d :| d in s1.pool.loops && Stays(s1, s1.pool.loops[d].pc);
      forall trace': seq<State>, events' | GoesOn(n, t1, e1, trace', events') && Undisturbed(events', |e1|)
        ensures trace'[|events'|].pool.loops != map[]
      {
        LaterStill(n, t1, e1, trace', events', d);
      }
    } else {
      var d :| d in s1.pool.loops && !Stays(s1, s1.pool.loops[d].pc);
      var trace', events' := CanLeave(n, t1, e1, d);
      InternalIsUndisturbed(events', |e1|);
    }
  }

  lemma LaterStill(n: nat, trace: seq<State>, events: seq<Event>, trace': seq<State>, events': seq<Event>, d: nat)
    requires |trace| == |events| + 1 && GoesOn(n, trace, events, trace', events') && Undisturbed(events', |events|)
    requires Calm(trace[|events|]) && d in trace[|events|].pool.loops && Stays(trace[|events|], trace[|events|].pool.loops[d].pc)
    ensures d in trace'[|events'|].pool.loops
  {
    assert trace'[|events|] == trace[|events|] && |trace'| == |events'| + 1;
    hide IsRun;
    StaysLive(n, trace', events', |events|, |events'|, d);
  }

  lemma InternalIsUndisturbed(events: seq<Event>, from: nat)
    requires OnlyInternal(events, from)
    ensures Undisturbed(events, from)
  {
  }

  /** What the second half of a Resume leaves: a loop that stays, just started or found, or the one
      that does not stay as it was. */
  lemma ResumeFinds(n: nat, s: State, r: nat)
    requires Safe(n, s) && Calm(s) && s.ctl.registered && !s.ctl.closed
    ensures var s' := CallStep(s, ResumeEnd(r));
            && Calm(s')
            && (s.pool.loops == map[] || HasStayingLoop(s) ==>
                  exists d :: d in s'.pool.loops && Stays(s', s'.pool.loops[d].pc))
            && (s.pool.loops != map[] && !HasStayingLoop(s) ==>
                  exists d :: d in s'.pool.loops && !Stays(s', s'.pool.loops[d].pc))
  {
    var s' := CallStep(s, ResumeEnd(r));
    if d :| d in s.pool.loops {
      assert LoopOk(n, s.pool, s.ctl.aborted, d);
      assert s'.pool == s.pool && s'.msgs == s.msgs;
      assert forall f :: f in s.pool.loops ==> f == d;
      assert Stays(s', s'.pool.loops[d].pc) <==> Stays(s, s.pool.loops[d].pc);
    } else {
      assert s.pool.loops == map[];
      assert s.pool.nextLoop in s'.pool.loops && Stays(s', s'.pool.loops[s.pool.nextLoop].pc);
    }
  }

  /** A Resume made after Drain returned can find the loop still on its way out and start nothing;
      then the queue is registered, neither paused nor draining nor closed, and has no loop. */
  lemma ResumeCanBeLost() returns (trace: seq<State>, events: seq<Event>, k: nat)
    ensures IsRun(1, trace, events) && k < |events|
    ensures events[k..] == [Called(ResumeBegin(0)), Called(ResumeEnd(0)), Moved(0, Leave)]
    ensures Closes(trace[k].drain, 0) == 1
    ensures var s := trace[|events|];
            (s.ctl.registered && s.pool.loops == map[] && s.drain.resumes == map[]
             && !s.drain.draining && !s.ctl.paused && !s.ctl.closed)
  {
    var t, es := FirstDrain(1, false);
    k := |es|;
    hide IsRun;
    assert |t| == |es| + 1;
    var t1, es1 := Then(1, t, es, Called(ResumeBegin(0)));
    var t2, es2 := Then(1, t1, es1, Called(ResumeEnd(0)));
    trace, events := Then(1, t2, es2, Moved(0, Leave));
    assert trace[k] == t[k];
  }
}
