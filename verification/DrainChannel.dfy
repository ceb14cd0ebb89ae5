/** The done channels of Drain calls. Each is closed at most once as long as no loop starts while
    the drain flag is still up and the current channel is closed; such a start closes it again. */
module DrainChannel {
  import opened Messages
  import opened Dispatcher
  import opened DispatcherSafety
  import opened DrainQuiescence

  ghost predicate ChannelClosed(x: Drains) {
    x.channel.Some? && Closes(x, x.channel.value) > 0
  }

  /** A drain has completed and nothing has taken its flag down, or raised a new one, since. */
  ghost predicate Dirty(x: Drains) {
    x.draining && ChannelClosed(x)
  }

  ghost predicate CleanStart(s: State, e: Event) {
    e.Called? && Starts(s, e.call) ==> !Dirty(s.drain)
  }

  predicate InDrainCheck(pc: Pc) {
    pc == Quiesce(ForDrain) || pc == Flush(ForDrain) || pc == ReadDepth(ForDrain) || pc == Signal
  }

  ghost predicate InOrder(x: Drains) {
    && (x.channel.Some? ==> x.channel.value < x.nextChannel)
    && (x.draining ==> x.channel.Some?)
    && (forall c: nat :: Closes(x, c) <= 1 && (Closes(x, c) > 0 ==> c < x.nextChannel))
  }

  /** The loop can not get to a second close: it is leaving, or the current channel is open, or the
      flag is down and the loop has not seen it up. */
  ghost predicate Harmless(x: Drains, pc: Pc) {
    && (!pc.Leaving? && ChannelClosed(x) ==> !x.draining && !InDrainCheck(pc))
    && (InDrainCheck(pc) ==> x.channel.Some?)
  }

  ghost predicate Fresh(s: State) {
    InOrder(s.drain) && forall d :: d in s.pool.loops ==> Harmless(s.drain, s.pool.loops[d].pc)
  }

  lemma CallInOrder(x: Drains, c: Call)
    requires InOrder(x)
    ensures InOrder(DrainsAfter(x, c))
    ensures forall pc :: Harmless(x, pc) ==> Harmless(DrainsAfter(x, c), pc)
    ensures !Dirty(x) ==> Harmless(DrainsAfter(x, c), Top)
  {
    var x' := DrainsAfter(x, c);
    assert forall k: nat :: Closes(x', k) == Closes(x, k);
    if c.DrainBegin? {
      assert !ChannelClosed(x');
    } else {
      assert x'.channel == x.channel && (x'.draining ==> x.draining);
    }
  }

  lemma CallFresh(n: nat, s: State, c: Call)
    requires Safe(n, s) && Fresh(s) && (Starts(s, c) ==> !Dirty(s.drain))
    ensures Fresh(CallStep(s, c))
  {
    CallInOrder(s.drain, c);
    hide Safe, InOrder, Harmless, Dirty, DrainsAfter;
  }

  lemma WorkFresh(s: State, w: nat, work: Work)
    requires Fresh(s) && w in s.pool.workers && WorkEnabled(s, s.pool.workers[w], work)
    ensures Fresh(WorkStep(s, w, work))
  {
    WorkLoops(s.pool, w, work);
    hide WorkPool, InOrder, Harmless;
  }

  /** A loop gets into the drain check only by seeing the flag up, and out of it by the close. */
  lemma NextInDrainCheck(n: nat, s: State, l: Loop, move: Move)
    requires MoveEnabled(n, s, l, move)
    ensures InDrainCheck(NextPc(n, s, l, move)) ==> InDrainCheck(l.pc) || (s.drain.draining && l.pc == DrainCheck)
    ensures l.pc.Leaving? ==> move == Leave
    ensures move == SignalDone ==> NextPc(n, s, l, move).Leaving? && l.pc == Signal
  {
    hide PlacedAt, DepthIsZero, Distinct;
  }

  lemma MoveFresh(n: nat, s: State, d: nat, move: Move)
    requires Safe(n, s) && Fresh(s) && d in s.pool.loops && MoveEnabled(n, s, s.pool.loops[d], move)
    ensures Fresh(MoveStep(n, s, d, move))
  {
    NextInDrainCheck(n, s, s.pool.loops[d], move);
    assert forall e :: e in s.pool.loops ==> e == d;
    hide Safe, MoveEnabled, NextPc, MoveMsgs;
    var x, x', pool' := s.drain, MoveDrains(s.drain, move), MovePool(n, s, d, move);
    assert Harmless(x, s.pool.loops[d].pc);
    if move != SignalDone {
      assert x' == x;
    } else {
      assert forall c: nat :: Closes(x', c) == Closes(x, c) + (if x.channel == Some(c) then 1 else 0);
    }
  }

  lemma StepFresh(n: nat, s: State, e: Event)
    requires Safe(n, s) && Fresh(s) && Enabled(n, s, e) && CleanStart(s, e)
    ensures Fresh(Step(n, s, e))
  {
    hide Safe, Fresh, Starts, Dirty, CallStep, MoveStep, WorkStep, CallEnabled, MoveEnabled, WorkEnabled;
    match e
    case Called(c) => CallFresh(n, s, c);
    case Worked(w, work) => WorkFresh(s, w, work);
    case Moved(d, move) => MoveFresh(n, s, d, move);
  }

  lemma InitialFresh()
    ensures Fresh(INITIAL)
  {
  }

  lemma {:induction false} CleanRunsAreFresh(n: nat, trace: seq<State>, events: seq<Event>, i: nat)
    requires IsRun(n, trace, events) && i < |trace|
    requires forall k :: 0 <= k < i ==> CleanStart(trace[k], events[k])
    ensures Fresh(trace[i])
  {
    hide Enabled, Step, Safe, Fresh, CleanStart;
    if i == 0 {
      InitialFresh();
    } else {
      CleanRunsAreFresh(n, trace, events, i - 1);
      RunsSafe(n, trace, events, i - 1);
      assert IsStep(n, trace[i - 1], events[i - 1], trace[i]);
      StepFresh(n, trace[i - 1], events[i - 1]);
    }
  }

  /** Every channel is closed at most once in every run whose loops all start clean. */
  lemma CleanRunsCloseOnce(n: nat, trace: seq<State>, events: seq<Event>, i: nat, c: nat)
    requires IsRun(n, trace, events) && i < |trace|
    requires forall k :: 0 <= k < i ==> CleanStart(trace[k], events[k])
    ensures Closes(trace[i].drain, c) <= 1
  {
    hide IsRun, CleanStart;
    CleanRunsAreFresh(n, trace, events, i);
    assert Closes(trace[i].drain, c) <= 1;
  }

  // ----- what callers have to do -----

  /** A Register does not start a loop on a completed drain that no Resume has cleared, and no
      Drain begins between the two halves of a Resume that starts a loop. */
  ghost predicate Orderly(s: State, e: Event) {
    && (e == Called(Register) && !s.pool.dispatching ==> !Dirty(s.drain))
    && (e.Called? && e.call.ResumeEnd? && ResumeStarts(s) && e.call.r in s.drain.resumes ==> !s.drain.resumes[e.call.r])
  }

  /** A Resume that no Drain has overtaken still sees the flag it took down. */
  ghost predicate ResumesSeeFlagDown(x: Drains) {
    forall r :: r in x.resumes && !x.resumes[r] ==> !x.draining
  }

  lemma CallSeesFlagDown(x: Drains, c: Call)
    requires ResumesSeeFlagDown(x)
    ensures ResumesSeeFlagDown(DrainsAfter(x, c))
  {
  }

  lemma StepSeesFlagDown(n: nat, s: State, e: Event)
    requires ResumesSeeFlagDown(s.drain) && Enabled(n, s, e)
    ensures ResumesSeeFlagDown(Step(n, s, e).drain)
  {
    hide WorkPool, WorkMsgs, MovePool, MoveMsgs, MsgsAfter, CallEnabled, MoveEnabled, WorkEnabled;
    match e
    case Called(c) => CallSeesFlagDown(s.drain, c);
    case Worked(w, work) =>
    case Moved(d, move) => assert MoveDrains(s.drain, move).resumes == s.drain.resumes;
  }

  lemma {:induction false} RunsSeeFlagDown(n: nat, trace: seq<State>, events: seq<Event>, i: nat)
    requires IsRun(n, trace, events) && i < |trace|
    ensures ResumesSeeFlagDown(trace[i].drain)
  {
    hide Enabled, Step, ResumesSeeFlagDown;
    if i == 0 {
      InitialSeesFlagDown();
    } else {
      RunsSeeFlagDown(n, trace, events, i - 1);
      assert IsStep(n, trace[i - 1], events[i - 1], trace[i]);
      StepSeesFlagDown(n, trace[i - 1], events[i - 1]);
    }
  }

  lemma InitialSeesFlagDown()
    ensures ResumesSeeFlagDown(INITIAL.drain)
  {
  }

  /** Callers that keep to `Orderly` never see a channel closed twice, whatever Drains overlap or
      time out. */
  lemma OrderlyRunsCloseOnce(n: nat, trace: seq<State>, events: seq<Event>, i: nat, c: nat)
    requires IsRun(n, trace, events) && i < |trace|
    requires forall k :: 0 <= k < i ==> Orderly(trace[k], events[k])
    ensures Closes(trace[i].drain, c) <= 1
  {
    forall k | 0 <= k < i ensures CleanStart(trace[k], events[k]) {
      RunsSeeFlagDown(n, trace, events, k);
      assert Orderly(trace[k], events[k]);
      assert IsStep(n, trace[k], events[k], trace[k + 1]);
      hide IsRun, Step, PlacedAt, Closes;
    }
    hide IsRun, CleanStart;
    CleanRunsCloseOnce(n, trace, events, i, c);
  }

  /** Only the latest Drain is ever signalled: once another has replaced its channel, a channel's
      state is final, and a caller still waiting on it can only time out. */
  lemma {:induction false} OvertakenIsNeverClosed(n: nat, trace: seq<State>, events: seq<Event>, i: nat, j: nat, c: nat)
    requires IsRun(n, trace, events) && i <= j < |trace|
    requires c < trace[i].drain.nextChannel && trace[i].drain.channel != Some(c)
    ensures Closes(trace[j].drain, c) == Closes(trace[i].drain, c)
    ensures c < trace[j].drain.nextChannel && trace[j].drain.channel != Some(c)
  {
    hide Enabled, Step, Closes;
    if i < j {
      OvertakenIsNeverClosed(n, trace, events, i, j - 1, c);
      var s, e := trace[j - 1], events[j - 1];
      assert IsStep(n, s, e, trace[j]);
      ChannelsMoveOn(n, s, e, c);
      if Closes(trace[j].drain, c) != Closes(s.drain, c) {
        HowClosed(n, s, e, c);
      }
    }
  }

  lemma ChannelsMoveOn(n: nat, s: State, e: Event, c: nat)
    requires Enabled(n, s, e) && c < s.drain.nextChannel && s.drain.channel != Some(c)
    ensures c < Step(n, s, e).drain.nextChannel && Step(n, s, e).drain.channel != Some(c)
  {
    hide WorkPool, WorkMsgs, MovePool, MoveMsgs, MsgsAfter, CallEnabled, MoveEnabled, WorkEnabled;
    match e
    case Called(call) => CallChannels(s.drain, call);
    case Worked(w, work) =>
    case Moved(d, move) =>
  }

  lemma CallChannels(x: Drains, c: Call)
    ensures x.nextChannel <= DrainsAfter(x, c).nextChannel
    ensures DrainsAfter(x, c).channel == x.channel || DrainsAfter(x, c).channel == Some(x.nextChannel)
  {
  }
}
