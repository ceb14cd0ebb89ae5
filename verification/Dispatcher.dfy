/** One queue's dispatcher, its workers and the calls that start, pause, drain and stop it, as a
    machine whose steps are the points where goroutines interleave. Other queues do not touch this
    state except by enqueueing. `n` is the broker's concurrency. */
module Dispatcher {
  import opened Messages

  /** Where a message of the queue is: `Claimed` from the dequeue until its handler's outcome is
      recorded, `Buffered` while its ack waits for a flush or is in one, `Stuck` when recording the
      outcome failed and the row stays claimed. */
  datatype Place = Pending | Claimed | Buffered | Acked | Dead | Stuck

  predicate Settled(p: Place) {
    p == Buffered || p == Acked || p == Dead || p == Stuck
  }

  /** Which request made the dispatcher check for quiescence. */
  datatype Mode = ForStop | ForDrain

  /** The program counter of a dispatcher loop. In `Signal` the drain check has passed and the
      channel is not yet closed; in `Leaving` the loop has returned and its deferred clearing of the
      dispatching flag is still to come. */
  datatype Pc =
    | Top
    | PauseCheck
    | PauseWait
    | Fetching
    | Spawning(batch: seq<Id>)
    | Acquired(batch: seq<Id>)
    | EmptyCheck
    | StopCheck
    | DrainCheck
    | Quiesce(mode: Mode)
    | Flush(mode: Mode)
    | ReadDepth(mode: Mode)
    | Signal
    | Waiting
    | Leaving(drained: bool)

  /** A dispatcher loop and how many slots of its own semaphore are taken. */
  datatype Loop = Loop(pc: Pc, sem: int)

  /** A worker goroutine. It gives its slot back before it leaves the in-flight count. */
  datatype Stage = Handling | Returned | Released

  datatype Worker = Worker(msg: Id, owner: nat, stage: Stage)

  /** Flags that calls set and loops read. */
  datatype Flags = Flags(registered: bool, paused: bool, closed: bool, stopping: bool, aborted: bool)

  /** The drain flag, the current done channel, how often each channel was closed, and the Resume
      calls between their two halves (true once a Drain has begun since). */
  datatype Drains = Drains(draining: bool, channel: Option<nat>, nextChannel: nat,
                           closes: map<nat, nat>, resumes: map<nat, bool>)

  datatype Pool = Pool(dispatching: bool, loops: map<nat, Loop>, nextLoop: nat, workers: map<nat, Worker>, inflight: int)

  /** Where each message is, and those the queue's own handlers were the last to put into it. */
  datatype Msgs = Msgs(place: map<Id, Place>, own: set<Id>)

  datatype State = State(ctl: Flags, drain: Drains, pool: Pool, msgs: Msgs)

  const INITIAL := State(Flags(false, false, false, false, false),
                         Drains(false, None, 0, map[], map[]),
                         Pool(false, map[], 0, map[], 0),
                         Msgs(map[], {}))

  /** What recording a handler's outcome did. */
  datatype Outcome = AckBuffered | AckStored | RetryStored | DeadLettered | Failed

  /** Calls from outside. A Resume clears the drain flag first and starts a loop in a later step. */
  datatype Call =
    | Register
    | ResumeBegin(r: nat)
    | ResumeEnd(r: nat)
    | DrainBegin
    | DrainTimeout
    | Pause(on: bool)
    | Close
    | Stop
    | Abort
    | Arrive(m: Id)
    | Replay(m: Id)
    | AcksLand(ids: set<Id>)

  /** Steps of a dispatcher loop. */
  datatype Move =
    | CheckAbort
    | CheckPaused
    | PauseEnds(quit: bool)
    | Fetch(batch: seq<Id>)
    | Acquire
    | Launch(w: nat)
    | CheckAbortIdle
    | CheckStop
    | CheckDrain
    | CheckQuiescent
    | FlushOwn(ids: set<Id>, ok: bool)
    | ReadStats(ok: bool)
    | SignalDone
    | WaitEnds(quit: bool)
    | Leave

  /** Steps of a worker. */
  datatype Work =
    | FollowUp(m: Id)
    | Resolve(outcome: Outcome)
    | Release
    | Finish

  datatype Event = Called(call: Call) | Moved(d: nat, move: Move) | Worked(w: nat, work: Work)

  // ----- what may happen -----

  predicate PlacedAt(s: State, ids: set<Id>, p: Place) {
    forall m :: m in ids ==> m in s.msgs.place && s.msgs.place[m] == p
  }

  predicate Distinct(ids: seq<Id>) {
    forall i, j :: 0 <= i < j < |ids| ==> ids[i] != ids[j]
  }

  function AsSet(ids: seq<Id>): set<Id> {
    set m | m in ids
  }

  predicate DepthIsZero(s: State) {
    forall m :: m in s.msgs.place ==> s.msgs.place[m] != Pending
  }

  predicate CallEnabled(s: State, c: Call) {
    match c
    case Register => true
    case ResumeBegin(r) => r !in s.drain.resumes
    case ResumeEnd(r) => r in s.drain.resumes
    case DrainBegin => s.ctl.registered
    case DrainTimeout => s.drain.channel.Some?
    case Pause(_) => true
    case Close => !s.ctl.closed
    case Stop => s.ctl.closed
    case Abort => s.ctl.stopping
    case Arrive(m) => m !in s.msgs.place
    case Replay(m) => PlacedAt(s, {m}, Dead)
    case AcksLand(ids) => PlacedAt(s, ids, Buffered)
  }

  predicate MoveEnabled(n: nat, s: State, l: Loop, x: Move) {
    match x
    case CheckAbort => l.pc == Top
    case CheckPaused => l.pc == PauseCheck
    case PauseEnds(quit) => l.pc == PauseWait && (quit ==> s.ctl.aborted)
    case Fetch(batch) => l.pc == Fetching && |batch| <= n && Distinct(batch) && PlacedAt(s, AsSet(batch), Pending)
    case Acquire => l.pc.Spawning? && l.sem < n
    case Launch(w) => l.pc.Acquired? && l.pc.batch != [] && w !in s.pool.workers
    case CheckAbortIdle => l.pc == EmptyCheck
    case CheckStop => l.pc == StopCheck
    case CheckDrain => l.pc == DrainCheck
    case CheckQuiescent => l.pc.Quiesce?
    case FlushOwn(ids, _) => l.pc.Flush? && PlacedAt(s, ids, Buffered)
    case ReadStats(_) => l.pc.ReadDepth?
    case SignalDone => l.pc == Signal
    case WaitEnds(quit) => l.pc == Waiting && (quit ==> s.ctl.aborted)
    case Leave => l.pc.Leaving?
  }

  predicate WorkEnabled(s: State, x: Worker, work: Work) {
    match work
    case FollowUp(m) => x.stage == Handling && m !in s.msgs.place
    case Resolve(_) => x.stage == Handling
    case Release => x.stage == Returned
    case Finish => x.stage == Released
  }

  predicate Enabled(n: nat, s: State, e: Event) {
    match e
    case Called(c) => CallEnabled(s, c)
    case Moved(d, x) => d in s.pool.loops && MoveEnabled(n, s, s.pool.loops[d], x)
    case Worked(w, work) => w in s.pool.workers && WorkEnabled(s, s.pool.workers[w], work)
  }

  // ----- what then happens -----

  function Put(x: Msgs, ids: set<Id>, p: Place): Msgs {
    x.(place := map m | m in x.place.Keys + ids :: if m in ids then p else x.place[m])
  }

  function StartLoop(x: Pool): Pool {
    x.(dispatching := true, loops := x.loops[x.nextLoop := Loop(Top, 0)], nextLoop := x.nextLoop + 1)
  }

  predicate ResumeStarts(s: State) {
    s.ctl.registered && !s.pool.dispatching && !s.ctl.closed
  }

  /** The call starts a loop. */
  predicate Starts(s: State, c: Call) {
    (c.Register? && !s.pool.dispatching) || (c.ResumeEnd? && ResumeStarts(s))
  }

  function FlagsAfter(x: Flags, c: Call): Flags {
    match c
    case Register => x.(registered := true)
    case Pause(on) => x.(paused := on)
    case Close => x.(closed := true)
    case Stop => x.(stopping := true)
    case Abort => x.(aborted := true)
    case _ => x
  }

  function DrainsAfter(x: Drains, c: Call): Drains {
    match c
    case ResumeBegin(r) => x.(draining := false, resumes := x.resumes[r := false])
    case ResumeEnd(r) => x.(resumes := x.resumes - {r})
    case DrainBegin =>
      x.(draining := true, channel := Some(x.nextChannel), nextChannel := x.nextChannel + 1,
         resumes := map r | r in x.resumes :: true)
    case DrainTimeout => x.(draining := false)
    case _ => x
  }

  function MsgsAfter(x: Msgs, c: Call): Msgs {
    match c
    case Arrive(m) => Put(x, {m}, Pending)
    case Replay(m) => Put(x, {m}, Pending).(own := x.own - {m})
    case AcksLand(ids) => Put(x, ids, Acked)
    case _ => x
  }

  function CallStep(s: State, c: Call): State {
    State(FlagsAfter(s.ctl, c),
          DrainsAfter(s.drain, c),
          if Starts(s, c) then StartLoop(s.pool) else s.pool,
          MsgsAfter(s.msgs, c))
  }

  /** Where a failed drain check goes on. */
  function After(mode: Mode): Pc {
    if mode == ForStop then DrainCheck else Waiting
  }

  /** Where the loop goes next. */
  function NextPc(n: nat, s: State, l: Loop, x: Move): Pc
    requires MoveEnabled(n, s, l, x)
  {
    match x
    case CheckAbort => if s.ctl.aborted then Leaving(false) else PauseCheck
    case CheckPaused => if s.ctl.paused then PauseWait else Fetching
    case PauseEnds(quit) => if quit then Leaving(false) else Top
    case Fetch(batch) => if batch == [] then EmptyCheck else Spawning(batch)
    case Acquire => Acquired(l.pc.batch)
    case Launch(_) => if |l.pc.batch| == 1 then Top else Spawning(l.pc.batch[1..])
    case CheckAbortIdle => if s.ctl.aborted then Leaving(false) else StopCheck
    case CheckStop => if s.ctl.stopping then Quiesce(ForStop) else DrainCheck
    case CheckDrain => if s.drain.draining then Quiesce(ForDrain) else Waiting
    case CheckQuiescent => if s.pool.inflight == 0 then Flush(l.pc.mode) else After(l.pc.mode)
    case FlushOwn(_, ok) => if ok then ReadDepth(l.pc.mode) else After(l.pc.mode)
    case ReadStats(ok) =>
      if !ok || !DepthIsZero(s) then After(l.pc.mode) else if l.pc.mode == ForStop then Leaving(true) else Signal
    case SignalDone => Leaving(true)
    case WaitEnds(quit) => if quit then Leaving(false) else Top
    case Leave => l.pc
  }

  /** How often channel `c` has been closed. */
  function Closes(x: Drains, c: nat): nat {
    if c in x.closes then x.closes[c] else 0
  }

  function MoveMsgs(x: Msgs, move: Move): Msgs {
    match move
    case Fetch(batch) => Put(x, AsSet(batch), Claimed)
    case FlushOwn(ids, ok) => if ok then Put(x, ids, Acked) else x
    case _ => x
  }

  function MoveDrains(x: Drains, move: Move): Drains {
    if move != SignalDone || x.channel.None? then x
    else
      x.(closes := x.closes[x.channel.value := Closes(x, x.channel.value) + 1])
  }

  function MovePool(n: nat, s: State, d: nat, move: Move): Pool
    requires d in s.pool.loops && MoveEnabled(n, s, s.pool.loops[d], move)
  {
    var x, l := s.pool, s.pool.loops[d];
    if move.Leave? then x.(loops := x.loops - {d}, dispatching := false)
    else
      var l' := Loop(NextPc(n, s, l, move), if move.Acquire? then l.sem + 1 else l.sem);
      if move.Launch?
      then x.(loops := x.loops[d := l'], workers := x.workers[move.w := Worker(l.pc.batch[0], d, Handling)],
              inflight := x.inflight + 1)
      else x.(loops := x.loops[d := l'])
  }

  function MoveStep(n: nat, s: State, d: nat, move: Move): State
    requires d in s.pool.loops && MoveEnabled(n, s, s.pool.loops[d], move)
  {
    State(s.ctl, MoveDrains(s.drain, move), MovePool(n, s, d, move), MoveMsgs(s.msgs, move))
  }

  function PlaceAfter(o: Outcome): Place {
    match o
    case AckBuffered => Buffered
    case AckStored => Acked
    case RetryStored => Pending
    case DeadLettered => Dead
    case Failed => Stuck
  }

  function WorkMsgs(x: Msgs, held: Id, work: Work): Msgs {
    match work
    case FollowUp(m) => Put(x, {m}, Pending).(own := x.own + {m})
    case Resolve(outcome) =>
      Put(x, {held}, PlaceAfter(outcome)).(own := if outcome == RetryStored then x.own + {held} else x.own)
    case _ => x
  }

  function WorkPool(x: Pool, w: nat, work: Work): Pool
    requires w in x.workers
  {
    var v := x.workers[w];
    match work
    case FollowUp(_) => x
    case Resolve(_) => x.(workers := x.workers[w := v.(stage := Returned)])
    case Release =>
      x.(workers := x.workers[w := v.(stage := Released)],
         loops := if v.owner in x.loops then x.loops[v.owner := x.loops[v.owner].(sem := x.loops[v.owner].sem - 1)]
                  else x.loops)
    case Finish => x.(workers := x.workers - {w}, inflight := x.inflight - 1)
  }

  function WorkStep(s: State, w: nat, work: Work): State
    requires w in s.pool.workers && WorkEnabled(s, s.pool.workers[w], work)
  {
    State(s.ctl, s.drain, WorkPool(s.pool, w, work), WorkMsgs(s.msgs, s.pool.workers[w].msg, work))
  }

  function Step(n: nat, s: State, e: Event): State
    requires Enabled(n, s, e)
  {
    match e
    case Called(c) => CallStep(s, c)
    case Moved(d, x) => MoveStep(n, s, d, x)
    case Worked(w, work) => WorkStep(s, w, work)
  }

  ghost predicate IsRun(n: nat, trace: seq<State>, events: seq<Event>) {
    && |trace| == |events| + 1
    && trace[0] == INITIAL
    && forall i :: 0 <= i < |events| ==> IsStep(n, trace[i], events[i], trace[i + 1])
  }

  ghost predicate IsStep(n: nat, s: State, e: Event, s': State) {
    Enabled(n, s, e) && s' == Step(n, s, e)
  }

  lemma Extend(n: nat, trace: seq<State>, events: seq<Event>, e: Event)
    requires IsRun(n, trace, events) && Enabled(n, trace[|events|], e)
    ensures IsRun(n, trace + [Step(n, trace[|events|], e)], events + [e])
  {
    hide Enabled, Step;
    var trace', events' := trace + [Step(n, trace[|events|], e)], events + [e];
    forall i | 0 <= i < |events'| ensures IsStep(n, trace'[i], events'[i], trace'[i + 1]) {
      if i < |events| {
        assert IsStep(n, trace[i], events[i], trace[i + 1]);
      }
    }
  }

  /** `trace'` goes on from where `trace` ends. */
  ghost predicate GoesOn(n: nat, trace: seq<State>, events: seq<Event>, trace': seq<State>, events': seq<Event>) {
    IsRun(n, trace', events') && trace <= trace' && events <= events'
  }

  /** One step more. */
  lemma Then(n: nat, trace: seq<State>, events: seq<Event>, e: Event) returns (trace': seq<State>, events': seq<Event>)
    requires IsRun(n, trace, events) && Enabled(n, trace[|events|], e)
    ensures events' == events + [e] && trace' == trace + [Step(n, trace[|events|], e)]
    ensures GoesOn(n, trace, events, trace', events')
    ensures |trace'| == |events'| + 1 && trace'[|events'|] == Step(n, trace[|events|], e)
  {
    Extend(n, trace, events, e);
    trace', events' := trace + [Step(n, trace[|events|], e)], events + [e];
  }
}
