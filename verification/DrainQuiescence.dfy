/** What a drain that completes means. A loop that leaves through its drain check, and a Drain call
    that returns because its channel was closed, each point back to an instant at which the queue
    was empty and no handler ran, and from which on no handler of the loop ran. */
module DrainQuiescence {
  import opened Messages
  import opened Dispatcher
  import opened DispatcherSafety

  function BatchOf(pc: Pc): seq<Id> {
    if pc.Spawning? || pc.Acquired? then pc.batch else []
  }

  ghost predicate HasCarrier(x: Pool, m: Id) {
    || (exists d :: d in x.loops && m in BatchOf(x.loops[d].pc))
    || (exists w :: w in x.workers && x.workers[w].stage == Handling && x.workers[w].msg == m)
  }

  predicate Passed(pc: Pc) {
    pc.Signal? || pc == Leaving(true)
  }

  ghost predicate OwnSettled(y: Msgs) {
    forall m :: m in y.own ==> m in y.place && Settled(y.place[m])
  }

  ghost predicate AllSettled(y: Msgs) {
    forall m :: m in y.place ==> Settled(y.place[m])
  }

  ghost predicate AllCarried(x: Pool, y: Msgs) {
    forall m :: m in y.place && y.place[m] == Claimed ==> HasCarrier(x, m)
  }

  ghost predicate SomePassed(x: Pool) {
    exists d :: d in x.loops && Passed(x.loops[d].pc)
  }

  /** A claimed message is in a loop's batch or with a handler; what the queue's own handlers put
      into the queue is in the table; and it is settled once the drain check has passed. */
  ghost predicate Tracked(s: State) {
    && AllCarried(s.pool, s.msgs)
    && s.msgs.own <= s.msgs.place.Keys
    && (SomePassed(s.pool) ==> OwnSettled(s.msgs))
  }

  /** The only carriers are loops and workers, so with neither at work an empty queue is all
      settled: what the passing drain check sees. */
  lemma EmptyMeansSettled(n: nat, s: State, d: nat)
    requires Safe(n, s) && Tracked(s) && d in s.pool.loops && s.pool.loops[d].pc.ReadDepth? && DepthIsZero(s)
    ensures AllSettled(s.msgs) && s.pool.workers == map[] && OwnSettled(s.msgs)
  {
    assert LoopOk(n, s.pool, s.ctl.aborted, d);
    hide LoopOk;
    forall m ensures !HasCarrier(s.pool, m) {
    }
  }

  // ----- the steps keep track -----

  /** Nothing new is claimed and nothing carried is let go. */
  lemma StaysCarried(x: Pool, y: Msgs, x': Pool, y': Msgs)
    requires AllCarried(x, y)
    requires forall m :: m in y'.place && y'.place[m] == Claimed && HasCarrier(x, m) ==> HasCarrier(x', m)
    requires forall m :: m in y'.place && y'.place[m] == Claimed ==> (m in y.place && y.place[m] == Claimed) || HasCarrier(x', m)
    ensures AllCarried(x', y')
  {
    hide HasCarrier;
  }

  /** No batch and no worker changes. */
  lemma SameCarriers(x: Pool, x': Pool)
    requires forall d :: d in x.loops ==> d in x'.loops && BatchOf(x'.loops[d].pc) == BatchOf(x.loops[d].pc)
    requires x'.workers == x.workers
    ensures forall m :: HasCarrier(x, m) ==> HasCarrier(x', m)
  {
  }

  lemma StartCarries(n: nat, x: Pool, aborted: bool)
    requires SafePool(n, x, aborted)
    ensures forall m :: HasCarrier(x, m) ==> HasCarrier(StartLoop(x), m)
    ensures SomePassed(StartLoop(x)) ==> SomePassed(x)
  {
    assert forall d :: d in x.loops ==> LoopOk(n, x, aborted, d);
    assert x.nextLoop !in x.loops;
    hide SafePool, LoopOk;
    SameCarriers(x, StartLoop(x));
    if d :| d in StartLoop(x).loops && Passed(StartLoop(x).loops[d].pc) {
      assert d in x.loops && Passed(x.loops[d].pc);
    }
  }

  lemma CallTracks(n: nat, s: State, c: Call)
    requires Safe(n, s) && Tracked(s) && CallEnabled(s, c)
    ensures Tracked(CallStep(s, c))
  {
    var s' := CallStep(s, c);
    StartCarries(n, s.pool, s.ctl.aborted);
    CallMoves(s, c);
    hide SafePool, HasCarrier, SomePassed, MsgsAfter, CallEnabled, StartLoop;
    StaysCarried(s.pool, s.msgs, s'.pool, s'.msgs);
  }

  /** Calls claim nothing, and what they bring in or back is not the handlers' own. */
  lemma CallMoves(s: State, c: Call)
    requires CallEnabled(s, c) && s.msgs.own <= s.msgs.place.Keys
    ensures var y, y' := s.msgs, MsgsAfter(s.msgs, c);
            && (forall m :: m in y'.place && y'.place[m] == Claimed ==> m in y.place && y.place[m] == Claimed)
            && y'.own <= y'.place.Keys
            && (OwnSettled(y) ==> OwnSettled(y'))
  {
  }

  lemma MoveTracks(n: nat, s: State, d: nat, move: Move)
    requires Safe(n, s) && Tracked(s) && d in s.pool.loops && MoveEnabled(n, s, s.pool.loops[d], move)
    ensures Tracked(MoveStep(n, s, d, move))
  {
    var s' := MoveStep(n, s, d, move);
    assert forall e :: e in s.pool.loops ==> e == d;
    if move.ReadStats? && DepthIsZero(s) {
      EmptyMeansSettled(n, s, d);
    }
    hide Safe, AllSettled, DepthIsZero;
    MoveCarries(n, s, d, move);
    MoveMoves(n, s, d, move);
    MovePasses(n, s, d, move);
    hide HasCarrier, SomePassed, MoveMsgs, MovePool, MoveEnabled, OwnSettled;
    StaysCarried(s.pool, s.msgs, s'.pool, s'.msgs);
  }

  /** Fetched messages are in the loop's batch; a launch hands one from the batch to a worker. */
  lemma MoveCarries(n: nat, s: State, d: nat, move: Move)
    requires d in s.pool.loops && MoveEnabled(n, s, s.pool.loops[d], move)
    requires forall e :: e in s.pool.loops ==> e == d
    ensures var x' := MovePool(n, s, d, move);
            && (forall m :: HasCarrier(s.pool, m) ==> HasCarrier(x', m))
            && (move.Fetch? ==> forall m :: m in move.batch ==> HasCarrier(x', m))
  {
    var x, x' := s.pool, MovePool(n, s, d, move);
    if move.Launch? {
      LaunchCarries(n, s, d, move.w);
    } else if move.Leave? {
      assert forall e :: e in x.loops ==> BatchOf(x.loops[e].pc) == [];
    } else if move.Fetch? {
      assert BatchOf(x'.loops[d].pc) == move.batch && BatchOf(x.loops[d].pc) == [];
    } else {
      BatchStays(n, s, s.pool.loops[d], move);
      SameCarriers(x, x');
    }
  }

  lemma BatchStays(n: nat, s: State, l: Loop, move: Move)
    requires MoveEnabled(n, s, l, move) && !move.Fetch? && !move.Launch? && !move.Leave?
    ensures BatchOf(NextPc(n, s, l, move)) == BatchOf(l.pc)
  {
    hide PlacedAt, DepthIsZero, Distinct;
  }

  lemma LaunchCarries(n: nat, s: State, d: nat, w: nat)
    requires d in s.pool.loops && MoveEnabled(n, s, s.pool.loops[d], Launch(w))
    requires forall e :: e in s.pool.loops ==> e == d
    ensures forall m :: HasCarrier(s.pool, m) ==> HasCarrier(MovePool(n, s, d, Launch(w)), m)
  {
    var x, x' := s.pool, MovePool(n, s, d, Launch(w));
    var batch := x.loops[d].pc.batch;
    assert batch == [batch[0]] + batch[1..];
    forall m | HasCarrier(x, m) ensures HasCarrier(x', m) {
      if m in batch {
        assert m == batch[0] ==> x'.workers[w].msg == m;
        assert m in batch[1..] ==> m in BatchOf(x'.loops[d].pc);
      } else {
        var v :| v in x.workers && x.workers[v].stage == Handling && x.workers[v].msg == m;
        assert x'.workers[v] == x.workers[v];
      }
    }
  }

  /** A loop claims what it fetches and lands acks it flushes. */
  lemma MoveMoves(n: nat, s: State, d: nat, move: Move)
    requires d in s.pool.loops && MoveEnabled(n, s, s.pool.loops[d], move) && s.msgs.own <= s.msgs.place.Keys
    ensures var y, y' := s.msgs, MoveMsgs(s.msgs, move);
            && (forall m :: m in y'.place && y'.place[m] == Claimed ==>
                  (m in y.place && y.place[m] == Claimed) || (move.Fetch? && m in move.batch))
            && y'.own <= y'.place.Keys
            && (!move.Fetch? && OwnSettled(y) ==> OwnSettled(y'))
  {
    hide NextPc;
  }

  /** The drain check is passed only by reading depth 0, and once passed the loop only leaves. */
  lemma MovePasses(n: nat, s: State, d: nat, move: Move)
    requires d in s.pool.loops && MoveEnabled(n, s, s.pool.loops[d], move)
    requires forall e :: e in s.pool.loops ==> e == d
    ensures SomePassed(MovePool(n, s, d, move)) ==>
              !move.Fetch? && (SomePassed(s.pool) || (move == ReadStats(true) && DepthIsZero(s)))
  {
    hide PlacedAt, Distinct, DepthIsZero;
    var x' := MovePool(n, s, d, move);
    if e :| e in x'.loops && Passed(x'.loops[e].pc) {
      assert e == d && x'.loops[d].pc == NextPc(n, s, s.pool.loops[d], move);
      assert Passed(s.pool.loops[d].pc) || move == ReadStats(true);
    }
  }

  /** The drain check has not passed while there is a worker. */
  lemma WorkersMeanNotPassed(n: nat, x: Pool, aborted: bool)
    requires SafePool(n, x, aborted) && x.workers != map[]
    ensures !SomePassed(x)
  {
    assert forall d :: d in x.loops ==> LoopOk(n, x, aborted, d);
  }

  /** A worker's step changes no loop's program counter and no other worker; it stops carrying its
      message when it resolves it. */
  lemma WorkCarries(x: Pool, w: nat, work: Work)
    requires w in x.workers && (x.workers[w].stage == Handling ==> work.FollowUp? || work.Resolve?)
    ensures var x' := WorkPool(x, w, work);
            && (forall m :: HasCarrier(x, m) && !(work.Resolve? && m == x.workers[w].msg) ==> HasCarrier(x', m))
            && (SomePassed(x') ==> SomePassed(x))
  {
    var x' := WorkPool(x, w, work);
    assert forall d :: d in x'.loops ==> d in x.loops && x'.loops[d].pc == x.loops[d].pc;
    assert forall d :: d in x.loops ==> d in x'.loops;
    assert forall v :: v in x.workers && v != w ==> v in x'.workers && x'.workers[v] == x.workers[v];
    forall m | HasCarrier(x, m) && !(work.Resolve? && m == x.workers[w].msg) ensures HasCarrier(x', m) {
      if d :| d in x.loops && m in BatchOf(x.loops[d].pc) {
        assert m in BatchOf(x'.loops[d].pc);
      } else {
        var v :| v in x.workers && x.workers[v].stage == Handling && x.workers[v].msg == m;
        assert v in x'.workers && x'.workers[v] == x.workers[v];
      }
    }
  }

  lemma WorkMoves(y: Msgs, held: Id, work: Work)
    requires y.own <= y.place.Keys
    ensures var y' := WorkMsgs(y, held, work);
            && (forall m :: m in y'.place && y'.place[m] == Claimed ==> m in y.place && y.place[m] == Claimed)
            && (work.Resolve? ==> held in y'.place && y'.place[held] != Claimed)
            && y'.own <= y'.place.Keys
  {
  }

  lemma WorkTracks(n: nat, s: State, w: nat, work: Work)
    requires Safe(n, s) && Tracked(s) && w in s.pool.workers && WorkEnabled(s, s.pool.workers[w], work)
    ensures Tracked(WorkStep(s, w, work))
  {
    var s' := WorkStep(s, w, work);
    WorkersMeanNotPassed(n, s.pool, s.ctl.aborted);
    WorkCarries(s.pool, w, work);
    WorkMoves(s.msgs, s.pool.workers[w].msg, work);
    hide SafePool, HasCarrier, SomePassed, WorkMsgs, WorkPool;
    StaysCarried(s.pool, s.msgs, s'.pool, s'.msgs);
  }

  lemma StepTracks(n: nat, s: State, e: Event)
    requires Safe(n, s) && Tracked(s) && Enabled(n, s, e)
    ensures Tracked(Step(n, s, e))
  {
    hide Safe, Tracked, CallStep, MoveStep, WorkStep, CallEnabled, MoveEnabled, WorkEnabled;
    match e
    case Called(c) => CallTracks(n, s, c);
    case Worked(w, work) => WorkTracks(n, s, w, work);
    case Moved(d, move) => MoveTracks(n, s, d, move);
  }

  lemma InitialTracked()
    ensures Tracked(INITIAL)
  {
  }

  lemma {:induction false} RunsTrack(n: nat, trace: seq<State>, events: seq<Event>, i: nat)
    requires IsRun(n, trace, events) && i < |trace|
    ensures Safe(n, trace[i]) && Tracked(trace[i])
  {
    hide Enabled, Step, Safe, Tracked;
    RunsSafe(n, trace, events, i);
    if i == 0 {
      InitialTracked();
    } else {
      RunsTrack(n, trace, events, i - 1);
      assert IsStep(n, trace[i - 1], events[i - 1], trace[i]);
      StepTracks(n, trace[i - 1], events[i - 1]);
    }
  }

  // ----- the instant -----

  /** Step `k` is the passing depth check of loop `d`: the queue is empty, every message ever put
      into it is settled, and from then to moment `i` the queue has no worker at all. */
  ghost predicate QuietSince(trace: seq<State>, events: seq<Event>, d: nat, k: nat, i: nat)
    requires |trace| == |events| + 1 && i < |trace|
  {
    && k < i
    && events[k] == Moved(d, ReadStats(true))
    && DepthIsZero(trace[k]) && AllSettled(trace[k].msgs)
    && forall j :: k <= j <= i ==> trace[j].pool.workers == map[]
  }

  /** How a loop gets past its drain check: by a passing depth check, or it was past it before. */
  lemma HowPassed(n: nat, s: State, e: Event, d: nat)
    requires Safe(n, s) && Tracked(s) && Enabled(n, s, e)
    requires d in Step(n, s, e).pool.loops && Passed(Step(n, s, e).pool.loops[d].pc)
    ensures Step(n, s, e).pool.workers == map[]
    ensures d in s.pool.loops && s.pool.workers == map[]
    ensures Passed(s.pool.loops[d].pc)
            || (e == Moved(d, ReadStats(true)) && DepthIsZero(s) && AllSettled(s.msgs))
  {
    StepKeeps(n, s, e);
    var s' := Step(n, s, e);
    assert LoopOk(n, s'.pool, s'.ctl.aborted, d);
    HowPassedFrom(n, s, e, d);
    assert LoopOk(n, s.pool, s.ctl.aborted, d);
    if !Passed(s.pool.loops[d].pc) {
      hide Step, LoopOk, Tracked, Safe, AllSettled;
      EmptyMeansSettled(n, s, d);
    }
  }

  lemma HowPassedFrom(n: nat, s: State, e: Event, d: nat)
    requires Safe(n, s) && Enabled(n, s, e)
    requires d in Step(n, s, e).pool.loops && Passed(Step(n, s, e).pool.loops[d].pc)
    ensures d in s.pool.loops
    ensures Passed(s.pool.loops[d].pc)
            || (e == Moved(d, ReadStats(true)) && DepthIsZero(s) && s.pool.loops[d].pc.ReadDepth?)
  {
    hide Safe, DepthIsZero, PlacedAt, Distinct, AsSet, WorkPool, CallEnabled, WorkEnabled, Put;
    match e
    case Called(c) =>
    case Worked(w, work) => WorkLoops(s.pool, w, work);
    case Moved(f, move) => MoveLoops(n, s, f, move, d);
  }

  lemma WorkLoops(x: Pool, w: nat, work: Work)
    requires w in x.workers
    ensures forall d :: d in WorkPool(x, w, work).loops ==> d in x.loops && WorkPool(x, w, work).loops[d].pc == x.loops[d].pc
  {
  }

  lemma MoveLoops(n: nat, s: State, f: nat, move: Move, d: nat)
    requires f in s.pool.loops && MoveEnabled(n, s, s.pool.loops[f], move)
    requires d in MovePool(n, s, f, move).loops && Passed(MovePool(n, s, f, move).loops[d].pc)
    ensures d in s.pool.loops
    ensures Passed(s.pool.loops[d].pc)
            || (f == d && move == ReadStats(true) && DepthIsZero(s) && s.pool.loops[d].pc.ReadDepth?)
  {
    hide PlacedAt, Distinct, AsSet, DepthIsZero;
  }

  lemma {:induction false} DrainInstant(n: nat, trace: seq<State>, events: seq<Event>, i: nat, d: nat)
    requires IsRun(n, trace, events) && i < |trace|
    requires d in trace[i].pool.loops && Passed(trace[i].pool.loops[d].pc)
    ensures exists k :: QuietSince(trace, events, d, k, i)
  {
    hide Enabled, Step, Safe, Tracked, AllSettled, DepthIsZero, Passed;
    if i == 0 {
      assert false;
    } else {
      RunsTrack(n, trace, events, i - 1);
      assert IsStep(n, trace[i - 1], events[i - 1], trace[i]);
      HowPassed(n, trace[i - 1], events[i - 1], d);
      if Passed(trace[i - 1].pool.loops[d].pc) {
        DrainInstant(n, trace, events, i - 1, d);
        var k :| QuietSince(trace, events, d, k, i - 1);
        assert QuietSince(trace, events, d, k, i);
      } else {
        assert QuietSince(trace, events, d, i - 1, i);
      }
    }
  }

  /** Drain quiescence: whenever a loop is past its drain check, on its way out, there was an
      instant since which no handler ran and at which the queue was empty, and every follow-up and
      every retry the queue's own handlers put in has been settled. */
  lemma DrainedMeansQuiescent(n: nat, trace: seq<State>, events: seq<Event>, i: nat, d: nat)
    requires IsRun(n, trace, events) && i < |trace|
    requires d in trace[i].pool.loops && Passed(trace[i].pool.loops[d].pc)
    ensures exists k :: QuietSince(trace, events, d, k, i)
    ensures trace[i].pool.workers == map[] && OwnSettled(trace[i].msgs)
  {
    hide Enabled, Step, Safe, AllSettled, DepthIsZero, OwnSettled, IsRun;
    DrainInstant(n, trace, events, i, d);
    RunsTrack(n, trace, events, i);
  }

  /** Every store transition of the first `i` steps succeeded. */
  ghost predicate NoneFailed(events: seq<Event>, i: nat)
    requires i <= |events|
  {
    forall k :: 0 <= k < i && events[k].Worked? ==> events[k].work != Resolve(Failed)
  }

  /** Only a failed transition makes a message stuck. */
  ghost predicate NoNewStuck(y: Msgs, y': Msgs) {
    forall m :: m in y'.place && y'.place[m] == Stuck ==> m in y.place && y.place[m] == Stuck
  }

  lemma CallSticksNone(y: Msgs, c: Call)
    ensures NoNewStuck(y, MsgsAfter(y, c))
  {
  }

  lemma MoveSticksNone(y: Msgs, move: Move)
    ensures NoNewStuck(y, MoveMsgs(y, move))
  {
  }

  lemma WorkSticksNone(y: Msgs, held: Id, work: Work)
    requires work != Resolve(Failed)
    ensures NoNewStuck(y, WorkMsgs(y, held, work))
  {
  }

  lemma StepSticksNone(n: nat, s: State, e: Event)
    requires Enabled(n, s, e) && (e.Worked? ==> e.work != Resolve(Failed))
    ensures NoNewStuck(s.msgs, Step(n, s, e).msgs)
  {
    hide NoNewStuck, MsgsAfter, MoveMsgs, WorkMsgs, CallEnabled, MoveEnabled, WorkEnabled;
    match e
    case Called(c) => CallSticksNone(s.msgs, c);
    case Moved(d, move) => MoveSticksNone(s.msgs, move);
    case Worked(w, work) => WorkSticksNone(s.msgs, s.pool.workers[w].msg, work);
  }

  lemma {:induction false} NoneStuck(n: nat, trace: seq<State>, events: seq<Event>, i: nat, m: Id)
    requires IsRun(n, trace, events) && i < |trace| && NoneFailed(events, i)
    ensures m in trace[i].msgs.place ==> trace[i].msgs.place[m] != Stuck
  {
    hide Enabled, Step;
    if i > 0 {
      NoneStuck(n, trace, events, i - 1, m);
      assert IsStep(n, trace[i - 1], events[i - 1], trace[i]);
      StepSticksNone(n, trace[i - 1], events[i - 1]);
    }
  }

  /** If all store transitions succeeded, that means: acked, in the ack buffer, or dead-lettered. */
  lemma DrainedWithoutFailures(n: nat, trace: seq<State>, events: seq<Event>, i: nat, d: nat, m: Id)
    requires IsRun(n, trace, events) && i < |trace| && NoneFailed(events, i)
    requires d in trace[i].pool.loops && Passed(trace[i].pool.loops[d].pc)
    requires m in trace[i].msgs.own
    ensures m in trace[i].msgs.place && trace[i].msgs.place[m] in {Acked, Buffered, Dead}
  {
    DrainedMeansQuiescent(n, trace, events, i, d);
    NoneStuck(n, trace, events, i, m);
    hide IsRun;
  }

  // ----- what a returning Drain knows -----

  lemma HowClosed(n: nat, s: State, e: Event, c: nat)
    requires Enabled(n, s, e) && Closes(Step(n, s, e).drain, c) != Closes(s.drain, c)
    ensures e.Moved? && e.move == SignalDone && s.drain.channel == Some(c)
    ensures e.d in s.pool.loops && s.pool.loops[e.d].pc == Signal
    ensures Closes(Step(n, s, e).drain, c) == Closes(s.drain, c) + 1
  {
    hide CallEnabled, WorkEnabled, WorkPool, WorkMsgs, MsgsAfter, MoveMsgs, MovePool;
    match e
    case Called(call) => CallClosesNone(s.drain, call);
    case Worked(w, work) =>
    case Moved(d, move) =>
  }

  lemma CallClosesNone(x: Drains, c: Call)
    ensures DrainsAfter(x, c).closes == x.closes
  {
  }

  /** Step `j` closed channel `c` for a loop that had found the queue quiet at step `k`. */
  ghost predicate ClosedAfter(trace: seq<State>, events: seq<Event>, c: nat, k: nat, j: nat)
    requires |trace| == |events| + 1
  {
    && j < |events| && events[j].Moved? && events[j].move == SignalDone && trace[j].drain.channel == Some(c)
    && QuietSince(trace, events, events[j].d, k, j)
    && OwnSettled(trace[j].msgs)
  }

  /** A Drain call returns without error when its channel is closed. Behind every closed channel
      is a loop that had found the queue empty and idle, with all its handlers had put in settled. */
  lemma {:induction false} ClosedMeansQuiescent(n: nat, trace: seq<State>, events: seq<Event>, i: nat, c: nat)
    requires IsRun(n, trace, events) && i < |trace| && Closes(trace[i].drain, c) > 0
    ensures exists k: nat, j: nat :: j < i && ClosedAfter(trace, events, c, k, j)
  {
    hide Enabled, Step, Closes, AllSettled, DepthIsZero, OwnSettled;
    if i == 0 {
      NothingClosed(c);
      assert false;
    } else {
      var s, e := trace[i - 1], events[i - 1];
      assert IsStep(n, s, e, trace[i]);
      if Closes(s.drain, c) > 0 {
        ClosedMeansQuiescent(n, trace, events, i - 1, c);
      } else {
        HowClosed(n, s, e, c);
        DrainedMeansQuiescent(n, trace, events, i - 1, e.d);
        var k :| QuietSince(trace, events, e.d, k, i - 1);
        assert ClosedAfter(trace, events, c, k, i - 1);
      }
    }
  }

  lemma NothingClosed(c: nat)
    ensures Closes(INITIAL.drain, c) == 0
  {
  }
}
