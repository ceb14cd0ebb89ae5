/** What a loop that starts dirty leads to: whatever is pending is handled, the drain check passes, and
    the closed channel is closed again. With the other half, that clean starts never do, this is the
    exact condition for a channel to be closed twice. */
module DrainRaces {
  import opened Messages
  import opened Arithmetic
  import opened Dispatcher
  import opened DispatcherSafety
  import opened DrainQuiescence
  import opened DrainChannel

  /** One loop, at this program counter, with this many slots taken. */
  ghost predicate Sole(s: State, d: nat, pc: Pc, sem: int) {
    s.pool.loops == map[d := Loop(pc, sem)]
  }

  /** The loop is at `Top` with nothing running, and nothing holds it up. */
  ghost predicate Ready(s: State, d: nat) {
    Sole(s, d, Top, 0) && s.pool.workers == map[] && s.pool.inflight == 0 && !s.ctl.aborted && !s.ctl.paused
  }

  function PoolWith(x: Pool, d: nat, pc: Pc, sem: int, workers: map<nat, Worker>, inflight: int): Pool {
    x.(loops := map[d := Loop(pc, sem)], workers := workers, inflight := inflight)
  }

  function MsgsWith(y: Msgs, m: Id, p: Place): Msgs {
    y.(place := y.place[m := p])
  }

  function Pendings(y: Msgs): set<Id> {
    set m | m in y.place && y.place[m] == Pending
  }

  /** Neither call nor outcome but a success: a loop's move, or a worker's step that acks. */
  predicate Internal(e: Event) {
    e.Moved? || (e.Worked? && (e.work.Resolve? ==> e.work.outcome == AckStored) && !e.work.FollowUp?)
  }

  ghost predicate OnlyInternal(events: seq<Event>, from: nat) {
    forall i :: from <= i < |events| ==> Internal(events[i])
  }

  lemma PutOne(y: Msgs, m: Id, p: Place)
    requires m in y.place
    ensures Put(y, {m}, p) == MsgsWith(y, m, p)
  {
  }

  /** A pending message is fetched and given to a worker. */
  lemma TakesUp(n: nat, trace: seq<State>, events: seq<Event>, d: nat, m: Id)
    returns (trace': seq<State>, events': seq<Event>)
    requires n > 0 && IsRun(n, trace, events) && Ready(trace[|events|], d) && m in Pendings(trace[|events|].msgs)
    ensures GoesOn(n, trace, events, trace', events') && OnlyInternal(events', |events|)
    ensures var s := trace[|events|];
            trace'[|events'|] == s.(pool := PoolWith(s.pool, d, Top, 1, map[0 := Worker(m, d, Handling)], 1),
                                    msgs := MsgsWith(s.msgs, m, Claimed))
  {
    var s := trace[|events|];
    var x := s.pool;
    hide IsRun, GoesOn;
    var t1, e1 := Then(n, trace, events, Moved(d, CheckAbort));
    assert t1[|e1|] == s.(pool := PoolWith(x, d, PauseCheck, 0, map[], 0));
    var t2, e2 := Then(n, t1, e1, Moved(d, CheckPaused));
    assert t2[|e2|] == s.(pool := PoolWith(x, d, Fetching, 0, map[], 0));
    assert AsSet([m]) == {m};
    PutOne(s.msgs, m, Claimed);
    var t3, e3 := Then(n, t2, e2, Moved(d, Fetch([m])));
    var y := MsgsWith(s.msgs, m, Claimed);
    assert t3[|e3|] == s.(pool := PoolWith(x, d, Spawning([m]), 0, map[], 0), msgs := y);
    var t4, e4 := Then(n, t3, e3, Moved(d, Acquire));
    assert t4[|e4|] == s.(pool := PoolWith(x, d, Acquired([m]), 1, map[], 0), msgs := y);
    trace', events' := Then(n, t4, e4, Moved(d, Launch(0)));
    assert GoesOn(n, trace, events, trace', events') by {
      Chain(n, trace, events, t1, e1, t2, e2);
      Chain(n, trace, events, t2, e2, t3, e3);
      Chain(n, trace, events, t3, e3, t4, e4);
      Chain(n, trace, events, t4, e4, trace', events');
    }
  }

  lemma Chain(n: nat, t0: seq<State>, e0: seq<Event>, t1: seq<State>, e1: seq<Event>, t2: seq<State>, e2: seq<Event>)
    requires GoesOn(n, t0, e0, t1, e1) && GoesOn(n, t1, e1, t2, e2)
    ensures GoesOn(n, t0, e0, t2, e2)
  {
    hide IsRun;
  }

  /** The worker's handler succeeds and the worker ends. */
  lemma Completes(n: nat, trace: seq<State>, events: seq<Event>, d: nat, m: Id)
    returns (trace': seq<State>, events': seq<Event>)
    requires IsRun(n, trace, events)
    requires var s := trace[|events|];
             && s.pool == PoolWith(s.pool, d, Top, 1, map[0 := Worker(m, d, Handling)], 1)
             && m in s.msgs.place
    ensures GoesOn(n, trace, events, trace', events') && OnlyInternal(events', |events|)
    ensures var s := trace[|events|];
            trace'[|events'|] == s.(pool := PoolWith(s.pool, d, Top, 0, map[], 0), msgs := MsgsWith(s.msgs, m, Acked))
  {
    var s := trace[|events|];
    var x, y := s.pool, MsgsWith(s.msgs, m, Acked);
    hide IsRun, GoesOn;
    PutOne(s.msgs, m, Acked);
    var t1, e1 := Then(n, trace, events, Worked(0, Resolve(AckStored)));
    assert t1[|e1|] == s.(pool := PoolWith(x, d, Top, 1, map[0 := Worker(m, d, Returned)], 1), msgs := y);
    var t2, e2 := Then(n, t1, e1, Worked(0, Release));
    assert t2[|e2|] == s.(pool := PoolWith(x, d, Top, 0, map[0 := Worker(m, d, Released)], 1), msgs := y);
    trace', events' := Then(n, t2, e2, Worked(0, Finish));
    Chain(n, trace, events, t1, e1, t2, e2);
    Chain(n, trace, events, t2, e2, trace', events');
  }

  /** Whatever is pending can be handled, one message after another, until the queue is empty. */
  lemma {:induction false} Empties(n: nat, trace: seq<State>, events: seq<Event>, d: nat)
    returns (trace': seq<State>, events': seq<Event>)
    requires n > 0 && IsRun(n, trace, events) && Ready(trace[|events|], d)
    ensures GoesOn(n, trace, events, trace', events') && OnlyInternal(events', |events|)
    ensures var s, s' := trace[|events|], trace'[|events'|];
            s' == s.(msgs := s'.msgs) && DepthIsZero(s')
    decreases Pendings(trace[|events|].msgs)
  {
    var s := trace[|events|];
    assert |trace| == |events| + 1;
    hide IsRun;
    if m :| m in Pendings(s.msgs) {
      var t1, e1 := TakesUp(n, trace, events, d, m);
      var t2, e2 := Completes(n, t1, e1, d, m);
      Chain(n, trace, events, t1, e1, t2, e2);
      assert Pendings(t2[|e2|].msgs) == Pendings(s.msgs) - {m};
      assert PoolWith(s.pool, d, Top, 0, map[], 0) == s.pool;
      hide Pendings;
      assert t2[|e2|] == s.(msgs := t2[|e2|].msgs);
      var t3, e3 := Empties(n, t2, e2, d);
      Chain(n, trace, events, t2, e2, t3, e3);
      trace', events' := t3, e3;
    } else {
      assert forall m :: m in s.msgs.place && s.msgs.place[m] == Pending ==> m in Pendings(s.msgs);
      trace', events' := trace, events;
    }
  }

  // ----- the way to the close -----

  /** The queue is idle and a drain is requested. */
  ghost predicate Idle(s: State) {
    && s.drain.draining && s.drain.channel.Some? && !s.ctl.aborted && !s.ctl.paused
    && s.pool.workers == map[] && s.pool.inflight == 0 && DepthIsZero(s)
  }

  const TO_STOP_CHECK: seq<(Pc, Move)> :=
    [(Top, CheckAbort), (PauseCheck, CheckPaused), (Fetching, Fetch([])), (EmptyCheck, CheckAbortIdle), (StopCheck, CheckStop)]

  /** A stop has been requested: its own drain check is tried first, and fails at the ack flush. */
  const PAST_STOP: seq<(Pc, Move)> := [(Quiesce(ForStop), CheckQuiescent), (Flush(ForStop), FlushOwn({}, false))]

  const TO_SIGNAL: seq<(Pc, Move)> :=
    [(DrainCheck, CheckDrain), (Quiesce(ForDrain), CheckQuiescent), (Flush(ForDrain), FlushOwn({}, true)),
     (ReadDepth(ForDrain), ReadStats(true)), (Signal, SignalDone)]

  /** The loop's moves from `Top` to the close. */
  function Path(stopping: bool): (p: seq<(Pc, Move)>)
    ensures p != [] && p[|p| - 1] == (Signal, SignalDone)
  {
    TO_STOP_CHECK + (if stopping then PAST_STOP else []) + TO_SIGNAL
  }

  /** Only the loop's program counter moves. */
  ghost predicate OnlyMoved(s: State, s': State, d: nat, pc: Pc) {
    d in s.pool.loops && s' == s.(pool := s.pool.(loops := s.pool.loops[d := Loop(pc, s.pool.loops[d].sem)]))
  }

  predicate At(s: State, d: nat, pc: Pc) {
    d in s.pool.loops && s.pool.loops[d].pc == pc
  }

  lemma IdleMove(n: nat, s: State, d: nat, k: nat)
    requires k < |Path(s.ctl.stopping)| - 1 && Idle(s) && At(s, d, Path(s.ctl.stopping)[k].0)
    ensures Enabled(n, s, Moved(d, Path(s.ctl.stopping)[k].1))
    ensures OnlyMoved(s, Step(n, s, Moved(d, Path(s.ctl.stopping)[k].1)), d, Path(s.ctl.stopping)[k + 1].0)
  {
    var move := Path(s.ctl.stopping)[k].1;
    assert Put(s.msgs, {}, Acked) == s.msgs && Put(s.msgs, AsSet([]), Claimed) == s.msgs;
    assert NextPc(n, s, s.pool.loops[d], move) == Path(s.ctl.stopping)[k + 1].0;
    hide Path, NextPc, DepthIsZero, Put;
  }

  /** From `Top`, the loop goes straight to the close. */
  lemma {:induction false} IdleRun(n: nat, trace: seq<State>, events: seq<Event>, d: nat, k: nat)
    returns (trace': seq<State>, events': seq<Event>)
    requires IsRun(n, trace, events)
    requires var s := trace[|events|];
             k < |Path(s.ctl.stopping)| && Idle(s) && At(s, d, Path(s.ctl.stopping)[k].0)
    ensures GoesOn(n, trace, events, trace', events') && OnlyInternal(events', |events|)
    ensures OnlyMoved(trace[|events|], trace'[|events'|], d, Signal)
    decreases |Path(trace[|events|].ctl.stopping)| - k
  {
    var s := trace[|events|];
    assert |trace| == |events| + 1;
    hide Step, Enabled, IsRun, DepthIsZero, Path;
    if k == |Path(s.ctl.stopping)| - 1 {
      trace', events' := trace, events;
    } else {
      IdleMove(n, s, d, k);
      var t1, e1 := Then(n, trace, events, Moved(d, Path(s.ctl.stopping)[k].1));
      SameDepth(s, t1[|e1|]);
      var t2, e2 := IdleRun(n, t1, e1, d, k + 1);
      Chain(n, trace, events, t1, e1, t2, e2);
      trace', events' := t2, e2;
    }
  }

  lemma SameDepth(s: State, s': State)
    requires DepthIsZero(s) && s'.msgs.place == s.msgs.place
    ensures DepthIsZero(s')
  {
  }

  /** From `Top` on an idle queue to just after the close. */
  lemma DrainOnce(n: nat, trace: seq<State>, events: seq<Event>, d: nat)
    returns (trace': seq<State>, events': seq<Event>)
    requires IsRun(n, trace, events)
    requires var s := trace[|events|]; Idle(s) && At(s, d, Top)
    ensures GoesOn(n, trace, events, trace', events') && OnlyInternal(events', |events|)
    ensures var s, s' := trace[|events|], trace'[|events'|];
            && s' == s.(pool := s.pool.(loops := s.pool.loops[d := Loop(Leaving(true), s.pool.loops[d].sem)]),
                        drain := MoveDrains(s.drain, SignalDone))
  {
    assert Path(trace[|events|].ctl.stopping)[0].0 == Top;
    hide IsRun, GoesOn, DepthIsZero;
    var t, es := IdleRun(n, trace, events, d, 0);
    trace', events' := Then(n, t, es, Moved(d, SignalDone));
    Chain(n, trace, events, t, es, trace', events');
  }

  // ----- dirty starts -----

  lemma StartsReady(n: nat, s: State, c: Call)
    requires Safe(n, s) && Starts(s, c) && Dirty(s.drain) && !s.ctl.aborted
    ensures var s' := CallStep(CallStep(s, c), Pause(false));
            && Ready(s', s.pool.nextLoop) && s'.drain.draining && s'.drain.channel == s.drain.channel
            && s'.drain.closes == s.drain.closes
  {
    assert forall d :: d in s.pool.loops ==> LoopOk(n, s.pool, s.ctl.aborted, d);
    assert s.pool.loops == map[];
  }

  /** What follows a start: no call but that the queue is not paused, only moves and successes. */
  ghost predicate OnItsOwn(events: seq<Event>, events': seq<Event>, c: Call) {
    && events + [Called(c), Called(Pause(false))] <= events'
    && OnlyInternal(events', |events| + 2)
  }

  /** A loop that starts dirty can close the channel once more, whatever is pending and whether or not
      a stop has been requested: without any further call it handles what is there and drains. */
  lemma DirtyStartClosesAgain(n: nat, trace: seq<State>, events: seq<Event>, c: Call)
    returns (trace': seq<State>, events': seq<Event>)
    requires n > 0 && IsRun(n, trace, events)
    requires var s := trace[|events|]; CallEnabled(s, c) && Starts(s, c) && Dirty(s.drain) && !s.ctl.aborted
    ensures GoesOn(n, trace, events, trace', events') && OnItsOwn(events, events', c)
    ensures var ch := trace[|events|].drain.channel.value;
            Closes(trace'[|events'|].drain, ch) == Closes(trace[|events|].drain, ch) + 1 > 1
  {
    var s := trace[|events|];
    RunsSafe(n, trace, events, |events|);
    StartsReady(n, s, c);
    var d := s.pool.nextLoop;
    hide IsRun, GoesOn, DepthIsZero, Safe, Starts, CallStep;
    var t1, e1 := Then(n, trace, events, Called(c));
    var t2, e2 := Then(n, t1, e1, Called(Pause(false)));
    var t3, e3 := Empties(n, t2, e2, d);
    var t4, e4 := DrainOnce(n, t3, e3, d);
    Chain(n, trace, events, t1, e1, t2, e2);
    Chain(n, trace, events, t2, e2, t3, e3);
    Chain(n, trace, events, t3, e3, t4, e4);
    Prefixes(events, c, e2, e3, e4, n, t2, t3, t4);
    trace', events' := t4, e4;
  }

  lemma Prefixes(events: seq<Event>, c: Call, e2: seq<Event>, e3: seq<Event>, e4: seq<Event>,
                 n: nat, t2: seq<State>, t3: seq<State>, t4: seq<State>)
    requires e2 == events + [Called(c)] + [Called(Pause(false))]
    requires GoesOn(n, t2, e2, t3, e3) && GoesOn(n, t3, e3, t4, e4)
    requires OnlyInternal(e3, |e2|) && OnlyInternal(e4, |e3|)
    ensures OnItsOwn(events, e4, c)
  {
    hide IsRun;
    assert e2 == events + [Called(c), Called(Pause(false))];
    forall i | |e2| <= i < |e4| ensures Internal(e4[i]) {
      if i < |e3| {
        assert e4[i] == e3[i];
      }
    }
  }

  // ----- the exact condition -----

  /** Goes on with the call `c`, and starts no other loop after it. */
  ghost predicate Continues(n: nat, trace: seq<State>, events: seq<Event>, c: Call, trace': seq<State>, events': seq<Event>) {
    && GoesOn(n, trace, events, trace', events') && events + [Called(c)] <= events'
    && forall i :: |events| < i < |events'| && events'[i].Called? ==> !Starts(trace'[i], events'[i].call)
  }

  ghost predicate ClosedTwice(s: State) {
    exists c: nat :: Closes(s.drain, c) > 1
  }

  /** An abort has begun, and no loop is on its way anywhere but out. */
  ghost predicate AllLeaving(s: State) {
    s.ctl.aborted && forall d :: d in s.pool.loops ==> s.pool.loops[d].pc == Top || s.pool.loops[d].pc.Leaving?
  }

  lemma AllGoOnLeaving(n: nat, s: State, e: Event)
    requires AllLeaving(s) && Enabled(n, s, e) && (e.Called? ==> !Starts(s, e.call))
    ensures AllLeaving(Step(n, s, e)) && Step(n, s, e).drain.closes == s.drain.closes
  {
    hide PlacedAt, DepthIsZero, Distinct, MsgsAfter, MoveMsgs, WorkMsgs;
    match e
    case Called(c) => CallClosesNone(s.drain, c);
    case Worked(w, work) => WorkLoops(s.pool, w, work);
    case Moved(d, move) =>
  }

  lemma {:induction false} AbortedClosesNone(n: nat, trace: seq<State>, events: seq<Event>, i: nat, j: nat)
    requires IsRun(n, trace, events) && i <= j < |trace| && AllLeaving(trace[i])
    requires forall k :: i <= k < j && events[k].Called? ==> !Starts(trace[k], events[k].call)
    ensures AllLeaving(trace[j]) && trace[j].drain.closes == trace[i].drain.closes
  {
    hide Enabled, Step, AllLeaving, Starts;
    if i < j {
      AbortedClosesNone(n, trace, events, i, j - 1);
      assert IsStep(n, trace[j - 1], events[j - 1], trace[j]);
      AllGoOnLeaving(n, trace[j - 1], events[j - 1]);
    }
  }

  lemma StartsLeaving(n: nat, s: State, c: Call)
    requires Safe(n, s) && Starts(s, c) && s.ctl.aborted
    ensures AllLeaving(CallStep(s, c)) && CallStep(s, c).drain.closes == s.drain.closes
  {
    assert forall d :: d in s.pool.loops ==> LoopOk(n, s.pool, s.ctl.aborted, d);
    CallClosesNone(s.drain, c);
  }

  lemma HarmlessStart(n: nat, trace: seq<State>, events: seq<Event>, c: Call, trace': seq<State>, events': seq<Event>)
    requires IsRun(n, trace, events) && (forall k :: 0 <= k < |events| ==> CleanStart(trace[k], events[k]))
    requires Continues(n, trace, events, c, trace', events')
    requires var s := trace[|events|]; Starts(s, c) && (!Dirty(s.drain) || s.ctl.aborted)
    ensures !ClosedTwice(trace'[|events'|])
  {
    var m, s := |events|, trace[|events|];
    assert trace'[m] == s && events'[m] == Called(c);
    if !Dirty(s.drain) {
      forall k | 0 <= k < |events'| ensures CleanStart(trace'[k], events'[k]) {
        if k < m {
          assert CleanStart(trace[k], events[k]);
        }
      }
      forall ch: nat ensures Closes(trace'[|events'|].drain, ch) <= 1 {
        hide IsRun, CleanStart;
        CleanRunsCloseOnce(n, trace', events', |events'|, ch);
      }
    } else {
      RunsSafe(n, trace, events, m);
      assert IsStep(n, trace'[m], events'[m], trace'[m + 1]);
      StartsLeaving(n, s, c);
      hide Step, Enabled, Starts, AllLeaving, CleanStart, Safe;
      AbortedClosesNone(n, trace', events', m + 1, |events'|);
      forall ch: nat ensures Closes(trace'[|events'|].drain, ch) <= 1 {
        CleanRunsCloseOnce(n, trace, events, m, ch);
      }
    }
  }

  lemma ItsOwnContinues(n: nat, trace: seq<State>, events: seq<Event>, c: Call, trace': seq<State>, events': seq<Event>)
    requires GoesOn(n, trace, events, trace', events') && OnItsOwn(events, events', c)
    ensures Continues(n, trace, events, c, trace', events')
  {
    assert |trace'| == |events'| + 1;
    hide IsRun, Starts;
    forall i | |events| < i < |events'| && events'[i].Called? ensures !Starts(trace'[i], events'[i].call) {
      assert events'[i] == (events + [Called(c), Called(Pause(false))])[i];
      assert !Starts(trace'[i], Pause(false)) by {
        PauseStartsNone(trace'[i]);
      }
    }
  }

  lemma PauseStartsNone(s: State)
    ensures !Starts(s, Pause(false))
  {
  }

  /** The exact condition. Take any run whose loops all started clean, and one call more that starts a
      loop: a channel can come to be closed twice, with no further start, if and only if that start is
      dirty and no abort has begun. */
  lemma ClosesTwiceIffDirty(n: nat, trace: seq<State>, events: seq<Event>, c: Call)
    requires n > 0 && IsRun(n, trace, events) && (forall k :: 0 <= k < |events| ==> CleanStart(trace[k], events[k]))
    requires CallEnabled(trace[|events|], c) && Starts(trace[|events|], c)
    ensures (exists trace', events' :: Continues(n, trace, events, c, trace', events') && ClosedTwice(trace'[|events'|]))
            <==> Dirty(trace[|events|].drain) && !trace[|events|].ctl.aborted
  {
    var s := trace[|events|];
    hide CallEnabled, Starts, GoesOn;
    if Dirty(s.drain) && !s.ctl.aborted {
      var trace', events' := DirtyStartClosesAgain(n, trace, events, c);
      ItsOwnContinues(n, trace, events, c, trace', events');
      assert Closes(trace'[|events'|].drain, s.drain.channel.value) > 1;
      assert ClosedTwice(trace'[|events'|]);
    } else {
      forall trace', events' | Continues(n, trace, events, c, trace', events') ensures !ClosedTwice(trace'[|events'|]) {
        HarmlessStart(n, trace, events, c, trace', events');
      }
    }
  }

  // ----- two ways there -----

  /** The start of the runs below: a registered queue, for `resuming` half a Resume, and a Drain that
      completes. */
  lemma FirstDrain(n: nat, resuming: bool) returns (trace: seq<State>, events: seq<Event>)
    ensures IsRun(n, trace, events) && |trace| == |events| + 1
    ensures |events| > 0 && events[0] == Called(Register)
    ensures forall i :: 0 < i < |events| ==> (Internal(events[i]) || events[i] == Called(DrainBegin)
                                              || (resuming && events[i] == Called(ResumeBegin(0))))
    ensures var s := trace[|events|];
            s == State(INITIAL.ctl.(registered := true),
                       Drains(true, Some(0), 1, map[0 := 1], if resuming then map[0 := true] else map[]),
                       Pool(true, map[0 := Loop(Leaving(true), 0)], 1, map[], 0),
                       INITIAL.msgs)
  {
    assert IsRun(n, [INITIAL], []);
    hide IsRun, DepthIsZero, Path, OnlyInternal;
    var t, es := Then(n, [INITIAL], [], Called(Register));
    if resuming {
      t, es := Then(n, t, es, Called(ResumeBegin(0)));
    }
    t, es := Then(n, t, es, Called(DrainBegin));
    assert t[|es|] == State(INITIAL.ctl.(registered := true),
                            Drains(true, Some(0), 1, map[], if resuming then map[0 := true] else map[]),
                            Pool(true, map[0 := Loop(Top, 0)], 1, map[], 0),
                            INITIAL.msgs);
    EmptyDepth();
    SameDepth(INITIAL, t[|es|]);
    trace, events := DrainOnce(n, t, es, 0);
    FirstEvents(es, events, resuming);
  }

  lemma FirstEvents(es: seq<Event>, events: seq<Event>, resuming: bool)
    requires es == [Called(Register)] + (if resuming then [Called(ResumeBegin(0))] else []) + [Called(DrainBegin)]
    requires es <= events && OnlyInternal(events, |es|)
    ensures events[0] == Called(Register)
    ensures forall i :: 0 < i < |events| ==> (Internal(events[i]) || events[i] == Called(DrainBegin)
                                              || (resuming && events[i] == Called(ResumeBegin(0))))
  {
    forall i | 0 < i < |es| ensures events[i] == es[i] {
    }
  }

  lemma EmptyDepth()
    ensures DepthIsZero(INITIAL)
  {
  }

  predicate OnlyCalls(events: seq<Event>, calls: set<Call>) {
    forall i :: 0 <= i < |events| && events[i].Called? ==> events[i].call in calls
  }

  lemma CallsOf(es: seq<Event>, c: Call, events: seq<Event>, calls: set<Call>)
    requires OnlyCalls(es, calls) && OnItsOwn(es, events, c)
    ensures OnlyCalls(events, calls + {c, Pause(false)})
  {
    forall i | 0 <= i < |es| + 2 ensures events[i] == (es + [Called(c), Called(Pause(false))])[i] {
    }
  }

  /** Drain and then Register, with no Resume: the channel is closed twice. */
  lemma RegisterAfterDrainClosesTwice()
    ensures exists trace: seq<State>, events: seq<Event> ::
              && IsRun(1, trace, events) && OnlyCalls(events, {Register, DrainBegin, Pause(false)})
              && Closes(trace[|events|].drain, 0) == 2
  {
    var t, es := FirstDrain(1, false);
    hide IsRun, OnItsOwn;
    t, es := Then(1, t, es, Moved(0, Leave));
    assert OnlyCalls(es, {Register, DrainBegin});
    var t', es' := DirtyStartClosesAgain(1, t, es, Register);
    CallsOf(es, Register, es', {Register, DrainBegin});
    assert {Register, DrainBegin} + {Register, Pause(false)} == {Register, DrainBegin, Pause(false)};
  }

  /** A Resume whose two halves a Drain falls between starts a loop dirty, and the channel is closed
      twice, with no Register but the first. */
  lemma ResumeRaceClosesTwice()
    ensures exists trace: seq<State>, events: seq<Event> ::
              && IsRun(1, trace, events) && |events| > 0 && events[0] == Called(Register)
              && OnlyCalls(events[1..], {ResumeBegin(0), DrainBegin, ResumeEnd(0), Pause(false)})
              && Closes(trace[|events|].drain, 0) == 2
  {
    var t, es := FirstDrain(1, true);
    hide IsRun, OnItsOwn;
    t, es := Then(1, t, es, Moved(0, Leave));
    assert OnlyCalls(es[1..], {ResumeBegin(0), DrainBegin});
    var t', es' := DirtyStartClosesAgain(1, t, es, ResumeEnd(0));
    TailOnItsOwn(es, ResumeEnd(0), es');
    CallsOf(es[1..], ResumeEnd(0), es'[1..], {ResumeBegin(0), DrainBegin});
    assert {ResumeBegin(0), DrainBegin} + {ResumeEnd(0), Pause(false)} == {ResumeBegin(0), DrainBegin, ResumeEnd(0), Pause(false)};
  }

  lemma TailOnItsOwn(es: seq<Event>, c: Call, events: seq<Event>)
    requires es != [] && OnItsOwn(es, events, c)
    ensures OnItsOwn(es[1..], events[1..], c) && events[0] == es[0]
  {
    assert es[1..] + [Called(c), Called(Pause(false))] == (es + [Called(c), Called(Pause(false))])[1..];
    forall i | |es[1..]| + 2 <= i < |events[1..]| ensures Internal(events[1..][i]) {
      assert events[1..][i] == events[i + 1];
    }
  }
}
