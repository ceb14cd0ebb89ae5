/** Shutdown of the whole broker as a machine: the tasks counted by the wait group (dispatchers,
    workers, the schedule loop), the ack loop, and the one Shutdown call that gets past the closed
    flag, on its graceful path or, after its context expired, through the goroutine it leaves
    behind. The last steps are the same on both paths. */
module Shutdown {
  import opened Messages

  /** Who can be in the middle of an ack flush. */
  datatype Holder = Task(t: nat) | AckTicker | Closer

  datatype Batch = Batch(queue: string, ids: set<Id>)

  /** The Shutdown call. `Flushing` still has the queues `left` to flush; `failed` are those whose
      final flush failed. */
  datatype Pc =
    | Absent
    | Entered
    | Selecting
    | Expired
    | JoiningAcks
    | Flushing(left: set<string>, failed: set<string>)
    | Finished(failed: set<string>)

  datatype State = State(
    tasks: set<nat>,
    wg: int,
    ackRunning: bool,
    ackStop: bool,
    closed: bool,
    stop: bool,
    abort: bool,
    done: bool,
    pc: Pc,
    pending: map<string, set<Id>>,
    taken: map<Holder, Batch>,
    storeCloses: nat)

  /** A new broker, with or without batched acknowledgements. */
  function Initial(batching: bool): State {
    State({}, 0, batching, false, false, false, false, false, Absent, map[], map[], 0)
  }

  datatype Event =
    // the Shutdown call
    | Enter
    | CloseStop
    | Expire
    | WaiterFires
    | Proceed
    | AcksJoined
    | FlushNext(q: string)
    | CloseStore
    // the wait group's tasks: `StartRoot` is a new broker, Register or Resume
    | StartRoot(t: nat)
    | Spawn(parent: nat, t: nat)
    | End(t: nat)
    | BufferAck(t: nat, q: string, id: Id)
    // flushes
    | Take(h: Holder, q: string)
    | Land(h: Holder, ok: bool)
    | AckLoopEnds

  function PendingAt(s: State, q: string): set<Id> {
    if q in s.pending then s.pending[q] else {}
  }

  predicate Alive(s: State, h: Holder) {
    match h
    case Task(t) => t in s.tasks
    case AckTicker => s.ackRunning
    case Closer => false
  }

  predicate Enabled(s: State, e: Event) {
    match e
    case Enter => true
    case CloseStop => s.pc == Entered
    case Expire => s.pc == Selecting
    case WaiterFires => s.stop && s.wg == 0
    case Proceed => (s.pc == Selecting || s.pc == Expired) && s.done
    case AcksJoined => s.pc == JoiningAcks && !s.ackRunning
    case FlushNext(q) => s.pc.Flushing? && q in s.pc.left && Closer !in s.taken
    case CloseStore => s.pc.Flushing? && s.pc.left == {} && Closer !in s.taken
    case StartRoot(t) => t !in s.tasks
    case Spawn(parent, t) => parent in s.tasks && t !in s.tasks
    case End(t) => t in s.tasks && Task(t) !in s.taken
    case BufferAck(t, _, _) => t in s.tasks
    case Take(h, _) => Alive(s, h) && h !in s.taken
    case Land(h, _) => h in s.taken
    case AckLoopEnds => s.ackRunning && s.ackStop && AckTicker !in s.taken
  }

  /** Takes a queue's buffered ids out for one AckBatch call; nothing is in flight for none. */
  function TakeFor(s: State, h: Holder, q: string): State {
    if q !in s.pending then s
    else s.(pending := s.pending - {q}, taken := s.taken[h := Batch(q, s.pending[q])])
  }

  function PutBack(s: State, b: Batch): map<string, set<Id>> {
    s.pending[b.queue := b.ids + PendingAt(s, b.queue)]
  }

  /** A second Shutdown call returns at once. */
  function Step(s: State, e: Event): State
    requires Enabled(s, e)
  {
    match e
    case Enter => if s.closed then s else s.(closed := true, pc := Entered)
    case CloseStop => s.(stop := true, pc := Selecting)
    case Expire => s.(abort := true, pc := Expired)
    case WaiterFires => s.(done := true)
    case Proceed => s.(ackStop := true, pc := JoiningAcks)
    case AcksJoined => s.(pc := Flushing(s.pending.Keys, {}))
    case FlushNext(q) => TakeFor(s.(pc := Flushing(s.pc.left - {q}, s.pc.failed)), Closer, q)
    case CloseStore => s.(storeCloses := s.storeCloses + 1, pc := Finished(s.pc.failed))
    case StartRoot(t) => s.(tasks := s.tasks + {t}, wg := s.wg + 1)
    case Spawn(_, t) => s.(tasks := s.tasks + {t}, wg := s.wg + 1)
    case End(t) => s.(tasks := s.tasks - {t}, wg := s.wg - 1)
    case BufferAck(_, q, id) => s.(pending := s.pending[q := PendingAt(s, q) + {id}])
    case Take(h, q) => TakeFor(s, h, q)
    case Land(h, ok) =>
      var b := s.taken[h];
      var s' := s.(taken := s.taken - {h});
      if ok then s'
      else s'.(pending := PutBack(s, b),
               pc := if h == Closer && s.pc.Flushing? then Flushing(s.pc.left, s.pc.failed + {b.queue}) else s.pc)
    case AckLoopEnds => s.(ackRunning := false)
  }

  ghost predicate IsRun(trace: seq<State>, events: seq<Event>) {
    && |trace| == |events| + 1
    && (trace[0] == Initial(true) || trace[0] == Initial(false))
    && forall i :: 0 <= i < |events| ==> IsStep(trace[i], events[i], trace[i + 1])
  }

  ghost predicate IsStep(s: State, e: Event, s': State) {
    Enabled(s, e) && s' == Step(s, e)
  }

  /** No dispatcher or schedule loop is started from outside once the wait group has been seen at
      zero. `Register` does not check for that; callers must not register during a shutdown. */
  predicate NoLateStart(s: State, e: Event) {
    e.StartRoot? ==> !s.done
  }

  // ----- the store is closed at most once -----

  ghost predicate Once(s: State) {
    && s.storeCloses == (if s.pc.Finished? then 1 else 0)
    && (s.closed <==> s.pc != Absent)
    && s.wg == |s.tasks|
    && (s.pc == Absent || s.pc == Entered ==> !s.stop)
    && (Closer in s.taken ==> s.pc.Flushing?)
    && (s.done ==> s.stop)
    && (s.pc == JoiningAcks ==> s.ackStop)
  }

  lemma StepOnce(s: State, e: Event)
    requires Once(s) && Enabled(s, e)
    ensures Once(Step(s, e))
  {
    if e.StartRoot? || e.Spawn? || e.End? {
      StepCounts(s, e);
      hide Enabled;
    } else {
      hide Once, Step, Enabled;
      if e.FlushNext? || e.Take? || e.Land? {
        FlushOnce(s, e);
      } else {
        FlagsOnce(s, e);
      }
    }
  }

  lemma FlushOnce(s: State, e: Event)
    requires Once(s) && Enabled(s, e) && (e.FlushNext? || e.Take? || e.Land?)
    ensures Once(Step(s, e))
  {
    hide PutBack;
  }

  lemma FlagsOnce(s: State, e: Event)
    requires Once(s) && Enabled(s, e)
    requires !e.FlushNext? && !e.Take? && !e.Land? && !e.StartRoot? && !e.Spawn? && !e.End?
    ensures Once(Step(s, e))
  {
    assert Step(s, e).tasks == s.tasks && Step(s, e).wg == s.wg && Step(s, e).taken == s.taken;
  }

  lemma StepCounts(s: State, e: Event)
    requires s.wg == |s.tasks| && Enabled(s, e) && (e.StartRoot? || e.Spawn? || e.End?)
    ensures Step(s, e).wg == |Step(s, e).tasks|
  {
    if e.End? {
      assert s.tasks == (s.tasks - {e.t}) + {e.t};
    }
  }

  lemma {:induction false} StoreClosedAtMostOnce(trace: seq<State>, events: seq<Event>, i: nat)
    requires IsRun(trace, events) && i < |trace|
    ensures Once(trace[i]) && trace[i].storeCloses <= 1
  {
    if i > 0 {
      hide Enabled, Step;
      StoreClosedAtMostOnce(trace, events, i - 1);
      assert IsStep(trace[i - 1], events[i - 1], trace[i]);
      StepOnce(trace[i - 1], events[i - 1]);
    }
  }

  // ----- and last -----

  predicate PastWait(pc: Pc) {
    pc == JoiningAcks || pc.Flushing? || pc.Finished?
  }

  predicate PastJoin(pc: Pc) {
    pc.Flushing? || pc.Finished?
  }

  /** Once the waiter has fired no task is left; the closer goes on only after that, and flushes
      only after joining the ack loop; flushes belong to someone alive; and a queue that still has
      buffered ids is one the closer has yet to flush or failed to. */
  ghost predicate Orderly(s: State) {
    && (s.done ==> s.tasks == {})
    && (PastWait(s.pc) ==> s.done)
    && (PastJoin(s.pc) ==> !s.ackRunning)
    && (forall h :: h in s.taken && h != Closer ==> Alive(s, h))
    && (s.pc.Flushing? ==> s.pending.Keys <= s.pc.left + s.pc.failed)
    && (s.pc.Finished? ==> s.pending.Keys <= s.pc.failed)
  }

  lemma StepOrderly(s: State, e: Event)
    requires Once(s) && Orderly(s) && Enabled(s, e) && NoLateStart(s, e)
    ensures Orderly(Step(s, e))
  {
    if e.WaiterFires? {
      assert s.tasks == {};
    } else if e.FlushNext? || e.Take? || e.Land? || e.BufferAck? {
      FlushingOrderly(s, e);
    }
  }

  /** Ids that go back into the buffer come from someone alive, or from the closer, which notes
      the queue as failed. */
  lemma FlushingOrderly(s: State, e: Event)
    requires Once(s) && Orderly(s) && Enabled(s, e)
    requires e.FlushNext? || e.Take? || e.Land? || e.BufferAck?
    ensures Orderly(Step(s, e))
  {
    if e.Land? {
      LandOrderly(s, e.h, e.ok);
    } else {
      var s' := Step(s, e);
      assert s'.tasks == s.tasks && s'.ackRunning == s.ackRunning && s'.done == s.done;
    }
  }

  lemma LandOrderly(s: State, h: Holder, ok: bool)
    requires Once(s) && Orderly(s) && h in s.taken
    ensures Orderly(Step(s, Land(h, ok)))
  {
    var s' := Step(s, Land(h, ok));
    assert s'.tasks == s.tasks && s'.ackRunning == s.ackRunning && s'.done == s.done;
    assert ok || s'.pending.Keys == s.pending.Keys + {s.taken[h].queue};
  }

  lemma {:induction false} RunsOrderly(trace: seq<State>, events: seq<Event>, i: nat)
    requires IsRun(trace, events) && i < |trace|
    requires forall k :: 0 <= k < i ==> NoLateStart(trace[k], events[k])
    ensures Orderly(trace[i])
  {
    if i > 0 {
      hide Enabled, Step, Once;
      RunsOrderly(trace, events, i - 1);
      StoreClosedAtMostOnce(trace, events, i - 1);
      assert IsStep(trace[i - 1], events[i - 1], trace[i]);
      StepOrderly(trace[i - 1], events[i - 1]);
    }
  }

  /** Everything that must be over before the store may be closed. */
  ghost predicate AllEnded(s: State) {
    s.tasks == {} && s.wg == 0 && !s.ackRunning && s.taken == map[]
  }

  /** On both paths: if the store is closed, every dispatcher, worker, schedule loop and the ack
      loop have ended, no flush is in flight, and every queue with acks left in the buffer is one
      whose final flush failed. */
  lemma ClosedLast(trace: seq<State>, events: seq<Event>, i: nat)
    requires IsRun(trace, events) && i < |trace|
    requires forall k :: 0 <= k < i ==> NoLateStart(trace[k], events[k])
    requires trace[i].storeCloses > 0
    ensures AllEnded(trace[i])
    ensures trace[i].pc.Finished? && trace[i].pending.Keys <= trace[i].pc.failed
    ensures trace[i].pc.failed == {} ==> trace[i].pending == map[]
  {
    StoreClosedAtMostOnce(trace, events, i);
    RunsOrderly(trace, events, i);
    hide IsRun;
    var s := trace[i];
    forall h ensures h !in s.taken {
    }
  }

  /** A store closed under a running task means that a dispatcher or schedule loop was started after
      the wait group had been seen at zero. */
  lemma ClosedEarlyMeansLateStart(trace: seq<State>, events: seq<Event>, i: nat)
    requires IsRun(trace, events) && i < |trace| && trace[i].storeCloses > 0 && trace[i].tasks != {}
    ensures exists k :: 0 <= k < i && events[k].StartRoot? && trace[k].done
  {
    if forall k :: 0 <= k < i ==> NoLateStart(trace[k], events[k]) {
      ClosedLast(trace, events, i);
    }
  }

  // ----- a late start always can -----

  /** What the Shutdown call, or a flush it waits for, does next. Its queues are flushed in any order. */
  ghost function NextOfClose(s: State): Event
    requires s.pc != Absent && s.pc != Entered && !s.pc.Finished?
  {
    if s.pc == Selecting || s.pc == Expired then Proceed
    else if s.pc == JoiningAcks then
      if !s.ackRunning then AcksJoined else if AckTicker in s.taken then Land(AckTicker, true) else AckLoopEnds
    else if Closer in s.taken then Land(Closer, true)
    else if s.pc.left == {} then CloseStore
    else
      var q :| q in s.pc.left;
      FlushNext(q)
  }

  function Rank(pc: Pc): nat {
    match pc
    case Absent => 5
    case Entered => 4
    case Selecting => 3
    case Expired => 3
    case JoiningAcks => 2
    case Flushing(_, _) => 1
    case Finished(_) => 0
  }

  function LeftOf(pc: Pc): set<string> {
    if pc.Flushing? then pc.left else {}
  }

  /** Closer to the close: a later point of it, fewer queues to flush, or less to wait for. */
  ghost predicate Nearer(s: State, s': State) {
    || Rank(s'.pc) < Rank(s.pc)
    || (Rank(s'.pc) == Rank(s.pc)
        && (LeftOf(s'.pc) < LeftOf(s.pc)
            || (LeftOf(s'.pc) == LeftOf(s.pc)
                && ((s.ackRunning && !s'.ackRunning)
                    || (s'.ackRunning == s.ackRunning && |s'.taken| < |s.taken|)))))
  }

  /** Nothing the close still has to do waits for a task, or touches one. */
  lemma CloseGoesOn(s: State, t: nat)
    requires Once(s) && s.done && t in s.tasks && !s.pc.Finished?
    ensures s.pc != Absent && s.pc != Entered
    ensures var e := NextOfClose(s);
            Enabled(s, e) && !e.StartRoot?
            && var s' := Step(s, e); Once(s') && s'.done && t in s'.tasks && Nearer(s, s')
  {
    CloseNears(s);
    hide Nearer, NextOfClose, Once, Step, Enabled;
    StepOnce(s, NextOfClose(s));
  }

  lemma CloseNears(s: State)
    requires Once(s) && s.done && !s.pc.Finished?
    ensures s.pc != Absent && s.pc != Entered
    ensures var e := NextOfClose(s);
            Enabled(s, e) && !e.StartRoot? && var s' := Step(s, e); s'.done == s.done && s'.tasks == s.tasks && Nearer(s, s')
  {
    hide Step, Nearer;
    var e := NextOfClose(s);
    if e.Land? {
      LandNears(s, e.h);
    } else if e.FlushNext? {
      FlushNears(s, e.q);
    } else {
      hide Once;
      FlagNears(s, e);
    }
  }

  lemma LandNears(s: State, h: Holder)
    requires h in s.taken
    ensures var s' := Step(s, Land(h, true)); s'.done == s.done && s'.tasks == s.tasks && Nearer(s, s')
  {
    assert (s.taken - {h})[h := s.taken[h]] == s.taken;
  }

  lemma FlushNears(s: State, q: string)
    requires Enabled(s, FlushNext(q))
    ensures var s' := Step(s, FlushNext(q)); s'.done == s.done && s'.tasks == s.tasks && Nearer(s, s')
  {
  }

  lemma FlagNears(s: State, e: Event)
    requires Enabled(s, e) && (e.Proceed? || e.AcksJoined? || e.CloseStore? || e.AckLoopEnds?)
    ensures var s' := Step(s, e); s'.done == s.done && s'.tasks == s.tasks && Nearer(s, s')
  {
  }

  lemma Extend(trace: seq<State>, events: seq<Event>, e: Event)
    requires IsRun(trace, events) && Enabled(trace[|events|], e)
    ensures IsRun(trace + [Step(trace[|events|], e)], events + [e])
  {
    hide Enabled, Step;
    var trace', events' := trace + [Step(trace[|events|], e)], events + [e];
    forall i | 0 <= i < |events'| ensures IsStep(trace'[i], events'[i], trace'[i + 1]) {
      if i < |events| {
        assert IsStep(trace[i], events[i], trace[i + 1]);
      }
    }
  }

  /** From wherever the shutdown is, it can go on to close the store with the task still running. */
  lemma {:induction false} CloseUnder(trace: seq<State>, events: seq<Event>, t: nat)
    returns (trace': seq<State>, events': seq<Event>)
    requires IsRun(trace, events) && Once(trace[|events|]) && trace[|events|].done && t in trace[|events|].tasks
    ensures IsRun(trace', events') && trace <= trace' && events <= events'
    ensures forall i :: |events| <= i < |events'| ==> !events'[i].StartRoot?
    ensures trace'[|events'|].storeCloses > 0 && t in trace'[|events'|].tasks
    decreases Rank(trace[|events|].pc), LeftOf(trace[|events|].pc), trace[|events|].ackRunning, |trace[|events|].taken|
  {
    var s := trace[|events|];
    assert |trace| == |events| + 1;
    hide IsRun, Enabled, Step, NextOfClose;
    if s.pc.Finished? {
      trace', events' := trace, events;
    } else {
      CloseGoesOn(s, t);
      hide Once;
      var e := NextOfClose(s);
      Extend(trace, events, e);
      var t1, es1 := trace + [Step(s, e)], events + [e];
      assert t1[|es1|] == Step(s, e);
      trace', events' := CloseUnder(t1, es1, t);
    }
  }

  /** `trace'` goes on from `trace` with no further start from outside. */
  ghost predicate GoesOn(trace: seq<State>, events: seq<Event>, trace': seq<State>, events': seq<Event>) {
    && IsRun(trace', events') && trace <= trace' && events <= events'
    && forall i :: |events| <= i < |events'| ==> !events'[i].StartRoot?
  }

  predicate ClosedUnderTask(s: State) {
    s.storeCloses > 0 && s.tasks != {}
  }

  lemma NeverEarly(trace: seq<State>, events: seq<Event>, trace': seq<State>, events': seq<Event>)
    requires |trace| == |events| + 1 && GoesOn(trace, events, trace', events')
    requires forall k :: 0 <= k < |events| ==> NoLateStart(trace[k], events[k])
    ensures !ClosedUnderTask(trace'[|events'|])
  {
    forall k | 0 <= k < |events'| ensures NoLateStart(trace'[k], events'[k]) {
      if k < |events| {
        assert NoLateStart(trace[k], events[k]);
      }
    }
    hide NoLateStart;
    if trace'[|events'|].storeCloses > 0 {
      ClosedLast(trace', events', |events'|);
    }
  }

  /** Every run that starts `t` after the wait group had been seen at zero, wherever the shutdown then
      is, can go on to close the store under it. */
  lemma LateStartClosesEarly(trace: seq<State>, events: seq<Event>, t: nat)
    requires IsRun(trace, events) && events != [] && events[|events| - 1] == StartRoot(t)
    requires trace[|events| - 1].done
    ensures exists trace': seq<State>, events' ::
              GoesOn(trace, events, trace', events')
              && trace'[|events'|].storeCloses > 0 && t in trace'[|events'|].tasks
  {
    StoreClosedAtMostOnce(trace, events, |events|);
    assert IsStep(trace[|events| - 1], events[|events| - 1], trace[|events|]);
    var trace', events' := CloseUnder(trace, events, t);
    assert GoesOn(trace, events, trace', events');
  }

  /** The condition is exact. Take any run that has started nothing late so far and now starts a
      dispatcher or schedule loop: the store can come to be closed under a running task if and only
      if the wait group had been seen at zero at that start. */
  lemma ClosesEarlyIffLateStart(trace: seq<State>, events: seq<Event>, t: nat)
    requires IsRun(trace, events) && events != [] && events[|events| - 1] == StartRoot(t)
    requires forall k :: 0 <= k < |events| - 1 ==> NoLateStart(trace[k], events[k])
    ensures (exists trace', events' :: GoesOn(trace, events, trace', events') && ClosedUnderTask(trace'[|events'|]))
            <==> trace[|events| - 1].done
  {
    if trace[|events| - 1].done {
      LateStartClosesEarly(trace, events, t);
      var trace': seq<State>, events' :| GoesOn(trace, events, trace', events')
                                         && trace'[|events'|].storeCloses > 0 && t in trace'[|events'|].tasks;
      assert ClosedUnderTask(trace'[|events'|]);
    } else {
      forall trace', events' | GoesOn(trace, events, trace', events') ensures !ClosedUnderTask(trace'[|events'|]) {
        NeverEarly(trace, events, trace', events');
      }
    }
  }
}
