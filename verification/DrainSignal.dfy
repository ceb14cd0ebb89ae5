/** Which waiting Drain can still be signalled. A Drain waits on the channel it made; whether that
    channel can still be closed depends on the flag all Drains share and on where the loop is. */
module DrainSignal {
  import opened Messages
  import opened Dispatcher
  import opened DispatcherSafety
  import opened DispatcherClaims
  import opened DrainQuiescence
  import opened DrainChannel
  import opened DrainRaces
  import opened ResumeEffect

  /** Past the point where an idle loop looks for an abort, and not yet on its way out. */
  predicate PastAbortCheck(pc: Pc) {
    pc == StopCheck || pc == DrainCheck || pc.Quiesce? || pc.Flush? || pc.ReadDepth?
  }

  /** The loop can get to the close with no more than it has seen: the check has passed, or it is in
      the check, or on its way there with the flag up, and nothing is pending. */
  ghost predicate Heading(s: State, pc: Pc) {
    pc == Signal || (DepthIsZero(s) && (InDrainCheck(pc) || (s.drain.draining && PastAbortCheck(pc))))
  }

  ghost predicate HasHeadingLoop(s: State) {
    exists d :: d in s.pool.loops && Heading(s, s.pool.loops[d].pc)
  }

  /** Channel `c` is the current one, and the flag is up, or a loop is heading for the close; once an
      abort has begun, a loop has to be. */
  ghost predicate Signalable(s: State, c: nat) {
    s.drain.channel == Some(c) && ((s.drain.draining && !s.ctl.aborted) || HasHeadingLoop(s))
  }

  // ----- a channel that cannot be closed stays so -----

  /** The flag is down, or can no longer get a loop to the close. */
  ghost predicate Stranded(s: State) {
    (s.drain.draining ==> s.ctl.aborted) && forall d :: d in s.pool.loops ==> !Heading(s, s.pool.loops[d].pc)
  }

  /** A loop that does not fetch is heading for the close only if it was before. */
  lemma NextHeads(n: nat, s: State, l: Loop, move: Move)
    requires MoveEnabled(n, s, l, move) && (s.drain.draining ==> s.ctl.aborted)
    ensures var pc := NextPc(n, s, l, move);
            && (pc == Signal ==> Heading(s, l.pc))
            && (DepthIsZero(s) && (InDrainCheck(pc) || (s.drain.draining && PastAbortCheck(pc))) ==> Heading(s, l.pc))
    ensures move.Fetch? ==> !PastAbortCheck(NextPc(n, s, l, move)) && !InDrainCheck(NextPc(n, s, l, move))
  {
    hide PlacedAt, DepthIsZero, Distinct;
  }

  lemma MoveStrands(n: nat, s: State, d: nat, move: Move)
    requires Safe(n, s) && Exclusive(s) && d in s.pool.loops && MoveEnabled(n, s, s.pool.loops[d], move) && Stranded(s)
    ensures Stranded(MoveStep(n, s, d, move))
  {
    var s' := MoveStep(n, s, d, move);
    assert forall e :: e in s.pool.loops ==> e == d;
    assert !Heading(s, s.pool.loops[d].pc);
    NextHeads(n, s, s.pool.loops[d], move);
    if !move.Fetch? {
      DepthStays(n, s, Moved(d, move));
    }
    assert s'.drain.draining == s.drain.draining;
    hide Safe, Exclusive, NextPc, MoveEnabled, DepthIsZero, MoveMsgs, MoveDrains, InDrainCheck, PastAbortCheck;
  }

  lemma CallStrands(n: nat, s: State, c: Call)
    requires Safe(n, s) && Exclusive(s) && CallEnabled(s, c) && Stranded(s) && !c.DrainBegin?
    ensures Stranded(CallStep(s, c)) && CallStep(s, c).drain.channel == s.drain.channel
  {
    var s' := CallStep(s, c);
    DepthStays(n, s, Called(c));
    assert s'.drain.draining ==> s.drain.draining;
    assert s.ctl.aborted ==> s'.ctl.aborted;
    hide Safe, Exclusive, CallEnabled, DepthIsZero, MsgsAfter, FlagsAfter, DrainsAfter;
  }

  lemma WorkStrands(n: nat, s: State, w: nat, work: Work)
    requires Exclusive(s) && w in s.pool.workers && WorkEnabled(s, s.pool.workers[w], work) && Stranded(s)
    ensures Stranded(WorkStep(s, w, work))
  {
    DepthStays(n, s, Worked(w, work));
    WorkLoops(s.pool, w, work);
    hide Exclusive, WorkEnabled, DepthIsZero, WorkPool, WorkMsgs;
  }

  lemma StrandedOrReplaced(n: nat, s: State, e: Event)
    requires Safe(n, s) && Exclusive(s) && Enabled(n, s, e) && Stranded(s)
    ensures var s' := Step(n, s, e);
            && s.drain.nextChannel <= s'.drain.nextChannel
            && ((Stranded(s') && s'.drain.channel == s.drain.channel) || s'.drain.channel == Some(s.drain.nextChannel))
  {
    hide Safe, Exclusive, MoveEnabled, WorkEnabled, CallEnabled, MovePool, MoveMsgs, WorkPool, WorkMsgs, MsgsAfter, Stranded;
    match e
    case Called(c) =>
      if !c.DrainBegin? {
        CallStrands(n, s, c);
      }
    case Worked(w, work) => WorkStrands(n, s, w, work);
    case Moved(d, move) => MoveStrands(n, s, d, move);
  }

  lemma StepLost(n: nat, s: State, e: Event, c: nat)
    requires Safe(n, s) && Exclusive(s) && Enabled(n, s, e) && c < s.drain.nextChannel && !Signalable(s, c)
    ensures var s' := Step(n, s, e);
            c < s'.drain.nextChannel && !Signalable(s', c) && Closes(s'.drain, c) == Closes(s.drain, c)
  {
    var s' := Step(n, s, e);
    if s.drain.channel != Some(c) {
      ChannelsMoveOn(n, s, e, c);
    } else {
      assert Stranded(s);
      StrandedOrReplaced(n, s, e);
    }
    if Closes(s'.drain, c) != Closes(s.drain, c) {
      HowClosed(n, s, e, c);
      SignalHeads(s, e.d);
    }
  }

  lemma SignalHeads(s: State, d: nat)
    requires d in s.pool.loops && s.pool.loops[d].pc == Signal
    ensures HasHeadingLoop(s)
  {
  }

  /** From then on, whatever is called, resumed, registered or drained again, the channel is as it is:
      its Drain can only time out. */
  lemma {:induction false} LostForGood(n: nat, trace: seq<State>, events: seq<Event>, i: nat, j: nat, c: nat)
    requires IsRun(n, trace, events) && i <= j < |trace|
    requires c < trace[i].drain.nextChannel && !Signalable(trace[i], c)
    ensures c < trace[j].drain.nextChannel && !Signalable(trace[j], c)
    ensures Closes(trace[j].drain, c) == Closes(trace[i].drain, c)
  {
    hide Enabled, Step, Safe, Exclusive, Signalable, Closes;
    if i < j {
      LostForGood(n, trace, events, i, j - 1, c);
      RunsSafe(n, trace, events, j - 1);
      RunsExclusive(n, trace, events, j - 1);
      assert IsStep(n, trace[j - 1], events[j - 1], trace[j]);
      StepLost(n, trace[j - 1], events[j - 1], c);
    }
  }

  // ----- and any other can be closed -----

  /** On the way to the close with nothing more to wait for. */
  ghost predicate Onward(s: State, pc: Pc) {
    || Heading(s, pc)
    || (DepthIsZero(s) && s.drain.draining && !s.ctl.aborted && (pc == EmptyCheck || pc == Fetching))
  }

  function StepsToSignal(pc: Pc): nat {
    match pc
    case ReadDepth(mode) => if mode == ForDrain then 1 else 5
    case Flush(mode) => if mode == ForDrain then 2 else 6
    case Quiesce(mode) => if mode == ForDrain then 3 else 7
    case DrainCheck => 4
    case StopCheck => 8
    case EmptyCheck => 9
    case Fetching => 10
    case _ => 0
  }

  /** The drain check passes; a stop's own check, if it comes first, fails at its last call. */
  function MoveOnward(pc: Pc): Move {
    match pc
    case ReadDepth(mode) => ReadStats(mode == ForDrain)
    case Flush(mode) => FlushOwn({}, mode == ForDrain)
    case Quiesce(_) => CheckQuiescent
    case DrainCheck => CheckDrain
    case StopCheck => CheckStop
    case EmptyCheck => CheckAbortIdle
    case _ => Fetch([])
  }

  lemma MovesOnward(n: nat, s: State, d: nat)
    requires d in s.pool.loops && Onward(s, s.pool.loops[d].pc) && s.pool.loops[d].pc != Signal && s.pool.inflight == 0
    ensures var pc := s.pool.loops[d].pc;
            && MoveEnabled(n, s, s.pool.loops[d], MoveOnward(pc))
            && var s' := MoveStep(n, s, d, MoveOnward(pc));
               && d in s'.pool.loops && OnlyMoved(s, s', d, s'.pool.loops[d].pc)
               && Onward(s', s'.pool.loops[d].pc) && StepsToSignal(s'.pool.loops[d].pc) < StepsToSignal(pc)
  {
    assert Put(s.msgs, {}, Acked) == s.msgs && Put(s.msgs, AsSet([]), Claimed) == s.msgs;
  }

  lemma {:induction false} SignalsOnItsOwn(n: nat, trace: seq<State>, events: seq<Event>, d: nat)
    returns (trace': seq<State>, events': seq<Event>)
    requires IsRun(n, trace, events)
    requires var s := trace[|events|]; d in s.pool.loops && Onward(s, s.pool.loops[d].pc) && s.pool.inflight == 0
    ensures GoesOn(n, trace, events, trace', events') && OnlyInternal(events', |events|)
    ensures OnlyMoved(trace[|events|], trace'[|events'|], d, Signal)
    decreases StepsToSignal(trace[|events|].pool.loops[d].pc)
  {
    var s := trace[|events|];
    var pc := s.pool.loops[d].pc;
    assert |trace| == |events| + 1;
    hide IsRun, Onward;
    if pc == Signal {
      trace', events' := trace, events;
      assert s.pool.loops[d := Loop(Signal, s.pool.loops[d].sem)] == s.pool.loops;
    } else {
      MovesOnward(n, s, d);
      hide MoveStep, MoveEnabled, MoveOnward;
      var t1, e1 := Then(n, trace, events, Moved(d, MoveOnward(pc)));
      hide Step, Enabled;
      var t2, e2 := SignalsOnItsOwn(n, t1, e1, d);
      Chain(n, trace, events, t1, e1, t2, e2);
      trace', events' := t2, e2;
    }
  }

  /** A loop on its way can close the channel, whatever workers it still waits for. */
  lemma HeadingCloses(n: nat, trace: seq<State>, events: seq<Event>, d: nat, c: nat)
    returns (trace': seq<State>, events': seq<Event>)
    requires IsRun(n, trace, events) && trace[|events|].drain.channel == Some(c)
    requires var s := trace[|events|]; d in s.pool.loops && Onward(s, s.pool.loops[d].pc)
    ensures GoesOn(n, trace, events, trace', events') && OnlyInternal(events', |events|)
    ensures Closes(trace'[|events'|].drain, c) == Closes(trace[|events|].drain, c) + 1
  {
    var s := trace[|events|];
    var t1, e1 := WorkersEnd(n, trace, events);
    RunsSafe(n, t1, e1, |e1|);
    SameOnward(s, t1[|e1|], d);
    assert t1[|e1|].pool.inflight == 0 && t1[|e1|].drain == s.drain;
    hide IsRun, Safe, Onward, SameLoops;
    var t2, e2 := SignalsOnItsOwn(n, t1, e1, d);
    trace', events' := Then(n, t2, e2, Moved(d, SignalDone));
    Chain(n, trace, events, t1, e1, t2, e2);
    Chain(n, trace, events, t2, e2, trace', events');
  }

  lemma SameOnward(s: State, s': State, d: nat)
    requires d in s.pool.loops && SameLoops(s, s') && Onward(s, s.pool.loops[d].pc)
    ensures Onward(s', s'.pool.loops[d].pc)
  {
    hide DepthIsZero;
  }

  // ----- back to the top -----

  function StepsToTop(pc: Pc): nat {
    match pc
    case PauseCheck => 12
    case Fetching => 11
    case EmptyCheck => 10
    case StopCheck => 9
    case Quiesce(mode) => if mode == ForStop then 8 else 4
    case Flush(mode) => if mode == ForStop then 7 else 3
    case ReadDepth(mode) => if mode == ForStop then 6 else 2
    case DrainCheck => 5
    case Waiting => 1
    case PauseWait => 1
    case Spawning(batch) => 2 * |batch|
    case Acquired(batch) => 2 * |batch| - (if batch == [] then 0 else 1)
    case _ => 0
  }

  /** Nothing more is fetched, every drain check fails, and what was fetched is handed out. */
  function MoveBack(pc: Pc): Move {
    match pc
    case PauseCheck => CheckPaused
    case Fetching => Fetch([])
    case EmptyCheck => CheckAbortIdle
    case StopCheck => CheckStop
    case Quiesce(_) => CheckQuiescent
    case Flush(_) => FlushOwn({}, false)
    case ReadDepth(_) => ReadStats(false)
    case DrainCheck => CheckDrain
    case Waiting => WaitEnds(false)
    case PauseWait => PauseEnds(false)
    case Spawning(_) => Acquire
    case _ => Launch(0)
  }

  lemma MovesBack(n: nat, s: State, d: nat)
    requires n > 0 && Safe(n, s) && !s.ctl.aborted && s.pool.workers == map[] && d in s.pool.loops
    requires var pc := s.pool.loops[d].pc; pc != Top && pc != Signal && !pc.Leaving?
    ensures var pc := s.pool.loops[d].pc;
            && MoveEnabled(n, s, s.pool.loops[d], MoveBack(pc))
            && var s' := MoveStep(n, s, d, MoveBack(pc));
               && s'.ctl == s.ctl && s'.drain == s.drain && d in s'.pool.loops
               && s'.pool.loops[d].pc != Signal && !s'.pool.loops[d].pc.Leaving?
               && StepsToTop(s'.pool.loops[d].pc) < StepsToTop(pc)
  {
    assert LoopOk(n, s.pool, s.ctl.aborted, d);
    assert Holders(s.pool.workers) == {};
  }

  /** The loop gets back to `Top`, with its workers done. */
  lemma {:induction false} GetsToTop(n: nat, trace: seq<State>, events: seq<Event>, d: nat)
    returns (trace': seq<State>, events': seq<Event>)
    requires n > 0 && IsRun(n, trace, events)
    requires var s := trace[|events|];
             !s.ctl.aborted && d in s.pool.loops && s.pool.loops[d].pc != Signal && !s.pool.loops[d].pc.Leaving?
    ensures GoesOn(n, trace, events, trace', events')
    ensures var s, s' := trace[|events|], trace'[|events'|];
            s'.ctl == s.ctl && s'.drain == s.drain && At(s', d, Top) && s'.pool.workers == map[]
    decreases StepsToTop(trace[|events|].pool.loops[d].pc)
  {
    var s := trace[|events|];
    assert |trace| == |events| + 1;
    hide IsRun, GoesOn, Safe;
    var t1, e1 := WorkersEnd(n, trace, events);
    var s1 := t1[|e1|];
    if s1.pool.loops[d].pc == Top {
      trace', events' := t1, e1;
    } else {
      RunsSafe(n, t1, e1, |e1|);
      MovesBack(n, s1, d);
      hide MoveStep, MoveEnabled, MoveBack, StepsToTop;
      var t2, e2 := Then(n, t1, e1, Moved(d, MoveBack(s1.pool.loops[d].pc)));
      hide Step, Enabled;
      Chain(n, trace, events, t1, e1, t2, e2);
      var t3, e3 := GetsToTop(n, t2, e2, d);
      Chain(n, trace, events, t2, e2, t3, e3);
      trace', events' := t3, e3;
    }
  }

  /** A loop at `Top` with no worker left, and flag and channels as they were. */
  ghost predicate Restarted(s: State, s': State, d: nat) {
    s'.drain == s.drain && s'.ctl.aborted == s.ctl.aborted && At(s', d, Top) && s'.pool.workers == map[]
  }

  lemma Registers(n: nat, trace: seq<State>, events: seq<Event>)
    returns (trace': seq<State>, events': seq<Event>, d: nat)
    requires IsRun(n, trace, events) && trace[|events|].pool.loops == map[] && !trace[|events|].ctl.aborted
    ensures GoesOn(n, trace, events, trace', events') && Restarted(trace[|events|], trace'[|events'|], d)
  {
    RunsSafe(n, trace, events, |events|);
    d := trace[|events|].pool.nextLoop;
    hide IsRun;
    trace', events' := Then(n, trace, events, Called(Register));
  }

  /** Wherever the loop is, and if there is none, the queue can get back to a loop at `Top`. */
  lemma GetsBack(n: nat, trace: seq<State>, events: seq<Event>)
    returns (trace': seq<State>, events': seq<Event>, d: nat)
    requires n > 0 && IsRun(n, trace, events) && !trace[|events|].ctl.aborted && !HasHeadingLoop(trace[|events|])
    ensures GoesOn(n, trace, events, trace', events') && Restarted(trace[|events|], trace'[|events'|], d)
  {
    var s := trace[|events|];
    assert |trace| == |events| + 1;
    hide IsRun, GoesOn;
    if f :| f in s.pool.loops {
      assert s.pool.loops[f].pc != Signal by {
        assert !Heading(s, s.pool.loops[f].pc);
      }
      if s.pool.loops[f].pc.Leaving? {
        RunsSafe(n, trace, events, |events|);
        assert forall e :: e in s.pool.loops ==> e == f;
        var t1, e1 := Then(n, trace, events, Moved(f, Leave));
        assert t1[|e1|].pool.loops == map[];
        hide Safe, Step, Enabled;
        trace', events', d := Registers(n, t1, e1);
        Chain(n, trace, events, t1, e1, trace', events');
      } else {
        trace', events' := GetsToTop(n, trace, events, f);
        d := f;
      }
    } else {
      assert s.pool.loops == map[];
      trace', events', d := Registers(n, trace, events);
    }
  }

  lemma RestartedReady(n: nat, s: State, d: nat)
    requires Safe(n, s) && At(s, d, Top) && s.pool.workers == map[] && !s.ctl.aborted && !s.ctl.paused
    ensures Ready(s, d)
  {
    assert LoopOk(n, s.pool, s.ctl.aborted, d);
    assert Holders(s.pool.workers) == {};
    assert forall e :: e in s.pool.loops ==> e == d;
    assert s.pool.loops == map[d := Loop(Top, 0)];
  }

  /** With the flag up and no abort, the queue can be emptied and the channel closed, from anywhere. */
  lemma FlagCloses(n: nat, trace: seq<State>, events: seq<Event>, c: nat)
    returns (trace': seq<State>, events': seq<Event>)
    requires n > 0 && IsRun(n, trace, events) && trace[|events|].drain.channel == Some(c)
    requires var s := trace[|events|]; s.drain.draining && !s.ctl.aborted && !HasHeadingLoop(s)
    ensures GoesOn(n, trace, events, trace', events')
    ensures Closes(trace'[|events'|].drain, c) == Closes(trace[|events|].drain, c) + 1
  {
    hide IsRun, HasHeadingLoop, DepthIsZero, Safe;
    var t1, e1, d := GetsBack(n, trace, events);
    var t2, e2 := Then(n, t1, e1, Called(Pause(false)));
    Chain(n, trace, events, t1, e1, t2, e2);
    RunsSafe(n, t2, e2, |e2|);
    RestartedReady(n, t2[|e2|], d);
    var t3, e3 := Empties(n, t2, e2, d);
    Chain(n, trace, events, t2, e2, t3, e3);
    hide Step, Enabled;
    trace', events' := DrainOnce(n, t3, e3, d);
    Chain(n, trace, events, t3, e3, trace', events');
  }

  /** The exact condition, in every run: some continuation closes channel `c`, made earlier, once more, if
      and only if it is the current one and the flag is up before an abort, or a loop is heading for the
      close. */
  lemma CanBeClosedIff(n: nat, trace: seq<State>, events: seq<Event>, c: nat)
    requires n > 0 && IsRun(n, trace, events) && c < trace[|events|].drain.nextChannel
    ensures (exists trace': seq<State>, events': seq<Event> ::
               GoesOn(n, trace, events, trace', events')
               && Closes(trace'[|events'|].drain, c) > Closes(trace[|events|].drain, c))
            <==> Signalable(trace[|events|], c)
  {
    var s := trace[|events|];
    assert |trace| == |events| + 1;
    hide IsRun, Heading, Closes;
    if Signalable(s, c) {
      var trace', events' := trace, events;
      if d :| d in s.pool.loops && Heading(s, s.pool.loops[d].pc) {
        trace', events' := HeadingCloses(n, trace, events, d, c);
      } else {
        trace', events' := FlagCloses(n, trace, events, c);
      }
      assert GoesOn(n, trace, events, trace', events') && Closes(trace'[|events'|].drain, c) > Closes(s.drain, c);
    } else {
      hide Signalable;
      forall trace': seq<State>, events': seq<Event> | GoesOn(n, trace, events, trace', events')
        ensures Closes(trace'[|events'|].drain, c) == Closes(s.drain, c)
      {
        GoesOnFrom(n, trace, events, trace', events');
        LostForGood(n, trace', events', |events|, |events'|, c);
      }
    }
  }

  lemma GoesOnFrom(n: nat, trace: seq<State>, events: seq<Event>, trace': seq<State>, events': seq<Event>)
    requires |trace| == |events| + 1 && GoesOn(n, trace, events, trace', events')
    ensures |trace'| == |events'| + 1 && trace'[|events|] == trace[|events|] && |events| <= |events'|
  {
  }

  // ----- how a waiting Drain gets lost -----

  lemma {:induction false} ChannelsAreMade(n: nat, trace: seq<State>, events: seq<Event>, i: nat)
    requires IsRun(n, trace, events) && i < |trace|
    ensures var x := trace[i].drain; x.channel.Some? ==> x.channel.value < x.nextChannel
  {
    if i > 0 {
      hide Enabled, Step;
      ChannelsAreMade(n, trace, events, i - 1);
      var s, e := trace[i - 1], events[i - 1];
      assert IsStep(n, s, e, trace[i]);
      StepMakes(n, s, e);
    }
  }

  lemma StepMakes(n: nat, s: State, e: Event)
    requires Enabled(n, s, e) && (s.drain.channel.Some? ==> s.drain.channel.value < s.drain.nextChannel)
    ensures var x := Step(n, s, e).drain; x.channel.Some? ==> x.channel.value < x.nextChannel
  {
    hide WorkPool, WorkMsgs, MovePool, MoveMsgs, MsgsAfter, CallEnabled, MoveEnabled, WorkEnabled;
    match e
    case Called(call) =>
    case Worked(w, work) =>
    case Moved(d, move) => assert MoveDrains(s.drain, move).channel == s.drain.channel;
  }

  /** When a Drain's context expires, or a Resume comes, the flag that all Drains share goes down; the
      one still waiting can then be signalled exactly if a loop has passed the drain check or is in it
      with nothing pending. */
  lemma FlagDownStrands(n: nat, trace: seq<State>, events: seq<Event>, call: Call, c: nat)
    requires n > 0 && IsRun(n, trace, events) && (call.DrainTimeout? || call.ResumeBegin?) && CallEnabled(trace[|events|], call)
    requires trace[|events|].drain.channel == Some(c)
    ensures var s := trace[|events|];
            var t1, e1 := trace + [CallStep(s, call)], events + [Called(call)];
            && IsRun(n, t1, e1)
            && ((exists trace': seq<State>, events': seq<Event> ::
                   GoesOn(n, t1, e1, trace', events') && Closes(trace'[|events'|].drain, c) > Closes(s.drain, c))
                <==> exists d :: d in s.pool.loops && InCheckToClose(s, s.pool.loops[d].pc))
  {
    var s := trace[|events|];
    ChannelsAreMade(n, trace, events, |events|);
    var t1, e1 := Then(n, trace, events, Called(call));
    var s1 := t1[|e1|];
    assert s1.pool.loops == s.pool.loops && s1.msgs == s.msgs && Closes(s1.drain, c) == Closes(s.drain, c);
    SignalableIfInCheck(s, s1, c);
    hide IsRun, Step, Enabled, CallEnabled, CallStep, InCheckToClose, Closes, Signalable;
    CanBeClosedIff(n, t1, e1, c);
  }

  ghost predicate InCheckToClose(s: State, pc: Pc) {
    pc == Signal || (InDrainCheck(pc) && DepthIsZero(s))
  }

  lemma SignalableIfInCheck(s: State, s': State, c: nat)
    requires s'.pool.loops == s.pool.loops && s'.msgs == s.msgs && s'.drain.channel == Some(c) && !s'.drain.draining
    ensures Signalable(s', c) <==> exists d :: d in s.pool.loops && InCheckToClose(s, s.pool.loops[d].pc)
  {
    assert DepthIsZero(s') <==> DepthIsZero(s);
    hide DepthIsZero;
    forall d | d in s.pool.loops ensures Heading(s', s'.pool.loops[d].pc) <==> InCheckToClose(s, s.pool.loops[d].pc) {
    }
    hide Heading, InCheckToClose;
  }

  /** Two Drains overlap and the first times out: the second one's channel is the current one, open and
      never replaced, and is never closed. */
  lemma TimeoutStrandsOther() returns (trace: seq<State>, events: seq<Event>)
    ensures events == [Called(Register), Called(DrainBegin), Called(DrainBegin), Called(DrainTimeout)]
    ensures IsRun(1, trace, events)
    ensures var s := trace[|events|];
            && s.drain.channel == Some(1) && Closes(s.drain, 1) == 0
            && forall trace': seq<State>, events': seq<Event> ::
                 GoesOn(1, trace, events, trace', events') ==> Closes(trace'[|events'|].drain, 1) == 0
  {
    assert IsRun(1, [INITIAL], []);
    hide IsRun;
    var t, es := Then(1, [INITIAL], [], Called(Register));
    t, es := Then(1, t, es, Called(DrainBegin));
    t, es := Then(1, t, es, Called(DrainBegin));
    trace, events := Then(1, t, es, Called(DrainTimeout));
    var s := trace[|events|];
    assert s.pool.loops == map[0 := Loop(Top, 0)] && !s.drain.draining;
    assert !Signalable(s, 1);
    hide Step, Enabled, Signalable, Closes;
    forall trace': seq<State>, events': seq<Event> | GoesOn(1, trace, events, trace', events')
      ensures Closes(trace'[|events'|].drain, 1) == Closes(s.drain, 1)
    {
      GoesOnFrom(1, trace, events, trace', events');
      LostForGood(1, trace', events', |events|, |events'|, 1);
    }
  }
}
