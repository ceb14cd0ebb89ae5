/** At most one dispatcher loop per queue is live, and at most `n` handlers of the queue run at any
    moment, over every run of the dispatcher machine. */
module DispatcherSafety {
  import opened Dispatcher

  function Holders(workers: map<nat, Worker>): set<nat> {
    set w | w in workers && workers[w].stage != Released
  }

  /** Workers that hold a semaphore slot. */
  function Slots(workers: map<nat, Worker>): nat {
    |Holders(workers)|
  }

  function Running(workers: map<nat, Worker>): set<nat> {
    set w | w in workers && workers[w].stage == Handling
  }

  /** The loop has all the workers: its semaphore counts exactly the slots they hold. */
  ghost predicate Owns(x: Pool, d: nat)
    requires d in x.loops
  {
    && x.loops[d].sem == Slots(x.workers) + (if x.loops[d].pc.Acquired? then 1 else 0)
    && forall w :: w in x.workers && x.workers[w].stage != Released ==> x.workers[w].owner == d
  }

  /** A loop started after an abort: it finds the abort before it does anything, while workers of
      the loop before it may still run. */
  ghost predicate Doomed(x: Pool, aborted: bool, d: nat)
    requires d in x.loops
  {
    && aborted && x.loops[d].sem == 0 && (x.loops[d].pc == Top || x.loops[d].pc.Leaving?)
    && forall w :: w in x.workers ==> x.workers[w].owner != d
  }

  /** Between the drain check and the exit no worker exists. */
  predicate Quiet(pc: Pc) {
    pc.Flush? || pc.ReadDepth? || pc.Signal? || pc == Leaving(true)
  }

  ghost predicate LoopOk(n: nat, x: Pool, aborted: bool, d: nat)
    requires d in x.loops
  {
    var l := x.loops[d];
    && x.dispatching && d < x.nextLoop && l.sem <= n
    && (Owns(x, d) || Doomed(x, aborted, d))
    && (Quiet(l.pc) ==> x.workers == map[])
    && (l.pc == Leaving(false) ==> aborted)
    && (l.pc.Spawning? || l.pc.Acquired? ==> l.pc.batch != [])
  }

  ghost predicate SafePool(n: nat, x: Pool, aborted: bool) {
    && (forall d, e :: d in x.loops && e in x.loops ==> d == e)
    && (x.dispatching ==> x.loops != map[])
    && (forall d :: d in x.loops ==> LoopOk(n, x, aborted, d))
    && (x.loops == map[] ==> x.workers == map[] || aborted)
    && x.inflight == |x.workers| && Slots(x.workers) <= n
    && (forall w :: w in x.workers ==> x.workers[w].owner < x.nextLoop)
  }

  ghost predicate Safe(n: nat, s: State) {
    SafePool(n, s.pool, s.ctl.aborted)
  }

  // ----- counting workers -----

  lemma Joining(workers: map<nat, Worker>, w: nat, x: Worker)
    requires w !in workers && x.stage != Released
    ensures Slots(workers[w := x]) == Slots(workers) + 1
  {
    assert Holders(workers[w := x]) == Holders(workers) + {w};
  }

  lemma Moving(workers: map<nat, Worker>, w: nat, x: Worker)
    requires w in workers && workers[w].stage != Released
    ensures Slots(workers[w := x]) == Slots(workers) - if x.stage == Released then 1 else 0
    ensures |workers[w := x]| == |workers|
  {
    var after := Holders(workers[w := x]);
    if x.stage == Released {
      assert Holders(workers) == after + {w};
    } else {
      assert Holders(workers) == after;
    }
  }

  lemma Ending(workers: map<nat, Worker>, w: nat)
    requires w in workers && workers[w].stage == Released
    ensures Slots(workers - {w}) == Slots(workers) && |workers - {w}| == |workers| - 1
  {
    assert Holders(workers - {w}) == Holders(workers);
    assert (workers - {w})[w := workers[w]] == workers;
  }

  // ----- the steps -----

  lemma StartKeeps(n: nat, x: Pool, aborted: bool)
    requires SafePool(n, x, aborted) && !x.dispatching
    ensures SafePool(n, StartLoop(x), aborted)
  {
    assert forall d :: d in x.loops ==> LoopOk(n, x, aborted, d);
    assert x.loops == map[];
    if x.workers == map[] {
      assert Holders(x.workers) == {};
    }
    hide Slots, Holders;
    assert LoopOk(n, StartLoop(x), aborted, x.nextLoop);
  }

  lemma AbortKeeps(n: nat, x: Pool, aborted: bool)
    requires SafePool(n, x, aborted)
    ensures SafePool(n, x, true)
  {
    hide Slots, Holders;
    forall d | d in x.loops ensures LoopOk(n, x, true, d) {
      assert LoopOk(n, x, aborted, d);
    }
  }

  lemma CallKeeps(n: nat, s: State, c: Call)
    requires Safe(n, s) && CallEnabled(s, c)
    ensures Safe(n, CallStep(s, c))
  {
    hide SafePool, PlacedAt;
    if Starts(s, c) {
      StartKeeps(n, s.pool, s.ctl.aborted);
    } else if c.Abort? {
      AbortKeeps(n, s.pool, s.ctl.aborted);
    }
  }

  /** A worker that keeps its slot, or had none, changes or ends. */
  lemma SlotsKeep(n: nat, x: Pool, x': Pool, aborted: bool)
    requires SafePool(n, x, aborted) && x.workers != map[]
    requires x' == x.(workers := x'.workers, inflight := |x'.workers|)
    requires Slots(x'.workers) == Slots(x.workers)
    requires forall w :: w in x'.workers ==> w in x.workers && x'.workers[w].owner == x.workers[w].owner
    requires forall w :: w in x'.workers && x'.workers[w].stage != Released ==> x.workers[w].stage != Released
    ensures SafePool(n, x', aborted)
  {
    hide Slots, Holders;
    forall d | d in x'.loops ensures LoopOk(n, x', aborted, d) {
      assert LoopOk(n, x, aborted, d);
    }
  }

  /** A worker gives its slot back to the semaphore it took it from. */
  lemma ReleaseKeeps(n: nat, x: Pool, aborted: bool, w: nat)
    requires SafePool(n, x, aborted) && w in x.workers && x.workers[w].stage == Returned
    ensures SafePool(n, WorkPool(x, w, Release), aborted)
  {
    var x' := WorkPool(x, w, Release);
    Moving(x.workers, w, x'.workers[w]);
    hide Slots, Holders;
    forall d | d in x'.loops ensures LoopOk(n, x', aborted, d) {
      assert LoopOk(n, x, aborted, d);
    }
  }

  lemma WorkKeeps(n: nat, s: State, w: nat, work: Work)
    requires Safe(n, s) && w in s.pool.workers && WorkEnabled(s, s.pool.workers[w], work)
    ensures Safe(n, WorkStep(s, w, work))
  {
    var x := s.pool;
    var x' := WorkPool(x, w, work);
    assert x.inflight == |x.workers|;
    hide SafePool;
    match work
    case FollowUp(_) =>
    case Resolve(_) =>
      Moving(x.workers, w, x'.workers[w]);
      SlotsKeep(n, x, x', s.ctl.aborted);
    case Release => ReleaseKeeps(n, x, s.ctl.aborted, w);
    case Finish =>
      Ending(x.workers, w);
      SlotsKeep(n, x, x', s.ctl.aborted);
  }

  /** What the next program counter of a loop must satisfy. */
  ghost predicate GoodMove(x: Pool, aborted: bool, d: nat, pc: Pc)
    requires d in x.loops
  {
    && (x.loops[d].pc == Top && aborted ==> pc.Leaving?)
    && !x.loops[d].pc.Leaving?
    && (Quiet(pc) ==> x.workers == map[])
    && (pc == Leaving(false) ==> aborted)
    && (pc.Spawning? || pc.Acquired? ==> pc.batch != [])
  }

  lemma MoveKeeps(n: nat, x: Pool, aborted: bool, d: nat, l: Loop)
    requires SafePool(n, x, aborted) && d in x.loops && GoodMove(x, aborted, d, l.pc)
    requires l.sem <= n
    requires l.sem - (if l.pc.Acquired? then 1 else 0) == x.loops[d].sem - (if x.loops[d].pc.Acquired? then 1 else 0)
    ensures SafePool(n, x.(loops := x.loops[d := l]), aborted)
  {
    hide Slots, Holders;
    assert LoopOk(n, x, aborted, d);
    assert LoopOk(n, x.(loops := x.loops[d := l]), aborted, d);
  }

  lemma NextIsGood(n: nat, s: State, d: nat, move: Move)
    requires Safe(n, s) && d in s.pool.loops && MoveEnabled(n, s, s.pool.loops[d], move) && !move.Launch? && !move.Leave?
    ensures GoodMove(s.pool, s.ctl.aborted, d, NextPc(n, s, s.pool.loops[d], move))
    ensures NextPc(n, s, s.pool.loops[d], move).Acquired? <==> move.Acquire?
    ensures !s.pool.loops[d].pc.Acquired?
  {
    assert LoopOk(n, s.pool, s.ctl.aborted, d) && s.pool.inflight == |s.pool.workers|;
    hide Safe, SafePool, PlacedAt, DepthIsZero, AsSet, Distinct, Owns, Doomed;
  }

  /** The loop moves on and spawns nothing. */
  lemma LoopKeeps(n: nat, s: State, d: nat, move: Move)
    requires Safe(n, s) && d in s.pool.loops && MoveEnabled(n, s, s.pool.loops[d], move) && !move.Launch? && !move.Leave?
    ensures Safe(n, MoveStep(n, s, d, move))
  {
    NextIsGood(n, s, d, move);
    assert LoopOk(n, s.pool, s.ctl.aborted, d);
    var l := s.pool.loops[d];
    var l' := Loop(NextPc(n, s, l, move), if move.Acquire? then l.sem + 1 else l.sem);
    assert l'.sem <= n;
    hide SafePool, NextPc, GoodMove, MoveEnabled, LoopOk;
    MoveKeeps(n, s.pool, s.ctl.aborted, d, l');
  }

  lemma LeaveKeeps(n: nat, s: State, d: nat)
    requires Safe(n, s) && d in s.pool.loops && MoveEnabled(n, s, s.pool.loops[d], Leave)
    ensures Safe(n, MoveStep(n, s, d, Leave))
  {
    hide Slots, Holders;
    assert LoopOk(n, s.pool, s.ctl.aborted, d);
    assert MovePool(n, s, d, Leave).loops == map[];
  }

  lemma LaunchKeeps(n: nat, s: State, d: nat, w: nat)
    requires Safe(n, s) && d in s.pool.loops && MoveEnabled(n, s, s.pool.loops[d], Launch(w))
    ensures Safe(n, MoveStep(n, s, d, Launch(w)))
  {
    var x' := MovePool(n, s, d, Launch(w));
    assert LoopOk(n, s.pool, s.ctl.aborted, d);
    Joining(s.pool.workers, w, x'.workers[w]);
    hide Slots, Holders;
    assert LoopOk(n, x', s.ctl.aborted, d);
  }

  lemma StepKeeps(n: nat, s: State, e: Event)
    requires Safe(n, s) && Enabled(n, s, e)
    ensures Safe(n, Step(n, s, e))
  {
    hide Safe, CallStep, MoveStep, WorkStep, CallEnabled, MoveEnabled, WorkEnabled;
    match e
    case Called(c) => CallKeeps(n, s, c);
    case Worked(w, work) => WorkKeeps(n, s, w, work);
    case Moved(d, x) =>
      if x.Leave? {
        LeaveKeeps(n, s, d);
      } else if x.Launch? {
        LaunchKeeps(n, s, d, x.w);
      } else {
        LoopKeeps(n, s, d, x);
      }
  }

  lemma InitialSafe(n: nat)
    ensures Safe(n, INITIAL)
  {
    assert Holders(map[]) == {};
  }

  lemma {:induction false} RunsSafe(n: nat, trace: seq<State>, events: seq<Event>, i: nat)
    requires IsRun(n, trace, events) && i < |trace|
    ensures Safe(n, trace[i])
  {
    hide Enabled, Step, Safe;
    if i == 0 {
      InitialSafe(n);
    } else {
      RunsSafe(n, trace, events, i - 1);
      assert IsStep(n, trace[i - 1], events[i - 1], trace[i]);
      StepKeeps(n, trace[i - 1], events[i - 1]);
    }
  }

  /** At every moment of every run, through drains, restarts, re-registration and abort: one loop
      at most is live, the dispatching flag says whether there is one, the in-flight count is the
      number of workers, and at most `n` handlers run. */
  lemma OneLoopAndFewHandlers(n: nat, trace: seq<State>, events: seq<Event>, i: nat)
    requires IsRun(n, trace, events) && i < |trace|
    ensures var s := trace[i];
            && (forall d, e :: d in s.pool.loops && e in s.pool.loops ==> d == e)
            && (s.pool.dispatching <==> s.pool.loops != map[])
            && s.pool.inflight == |s.pool.workers|
            && |Running(s.pool.workers)| <= n
  {
    RunsSafe(n, trace, events, i);
    var s := trace[i];
    hide IsRun;
    var running, holding := Running(s.pool.workers), Holders(s.pool.workers);
    assert holding == running + (holding - running);
    assert forall d :: d in s.pool.loops ==> LoopOk(n, s.pool, s.ctl.aborted, d);
  }

  // ----- a paused loop -----

  predicate Parked(pc: Pc) {
    pc == Top || pc == PauseCheck || pc == PauseWait
  }

  lemma ParkedStays(n: nat, s: State, e: Event, d: nat)
    requires Safe(n, s) && Enabled(n, s, e) && s.ctl.paused && !s.ctl.aborted
    requires d in s.pool.loops && Parked(s.pool.loops[d].pc)
    ensures d in Step(n, s, e).pool.loops && Parked(Step(n, s, e).pool.loops[d].pc)
  {
    assert LoopOk(n, s.pool, s.ctl.aborted, d);
    hide Safe, LoopOk, PlacedAt, DepthIsZero, Distinct, MsgsAfter, MoveMsgs, WorkMsgs;
  }

  /** A paused loop watches nothing but the abort: as long as the queue stays paused and no abort
      comes, the loop stays, whatever drain or shutdown has been requested. So a graceful shutdown
      ends only for queues that are not paused. */
  lemma {:induction false} PausedLoopWaits(n: nat, trace: seq<State>, events: seq<Event>, i: nat, j: nat, d: nat)
    requires IsRun(n, trace, events) && i <= j < |trace|
    requires forall k :: i <= k < j ==> trace[k].ctl.paused && !trace[k].ctl.aborted
    requires d in trace[i].pool.loops && Parked(trace[i].pool.loops[d].pc)
    ensures d in trace[j].pool.loops && Parked(trace[j].pool.loops[d].pc)
  {
    hide Enabled, Step, Safe, Parked;
    if i < j {
      PausedLoopWaits(n, trace, events, i, j - 1, d);
      RunsSafe(n, trace, events, j - 1);
      assert IsStep(n, trace[j - 1], events[j - 1], trace[j]);
      ParkedStays(n, trace[j - 1], events[j - 1], d);
    }
  }
}
