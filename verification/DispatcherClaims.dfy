/** A message is with one handler at a time: in every run of the dispatcher machine each message in a
    loop's batch or with a running handler is claimed, and no two of them have the same one. */
module DispatcherClaims {
  import opened Messages
  import opened Dispatcher
  import opened DispatcherSafety
  import opened DrainQuiescence

  ghost predicate ClaimedAt(y: Msgs, m: Id) {
    m in y.place && y.place[m] == Claimed
  }

  ghost predicate HandlersApart(workers: map<nat, Worker>) {
    forall v, w :: v in workers && w in workers && v != w && workers[v].stage == Handling && workers[w].stage == Handling ==>
      workers[v].msg != workers[w].msg
  }

  /** The batch of a loop: claimed, each message once, and none of them with a handler. */
  ghost predicate BatchApart(batch: seq<Id>, workers: map<nat, Worker>, y: Msgs) {
    && Distinct(batch)
    && (forall m :: m in batch ==> ClaimedAt(y, m))
    && (forall w :: w in workers && workers[w].stage == Handling ==> workers[w].msg !in batch)
  }

  ghost predicate HandlersClaim(workers: map<nat, Worker>, y: Msgs) {
    forall w :: w in workers && workers[w].stage == Handling ==> ClaimedAt(y, workers[w].msg)
  }

  ghost predicate Exclusive(s: State) {
    && HandlersApart(s.pool.workers) && HandlersClaim(s.pool.workers, s.msgs)
    && forall d :: d in s.pool.loops ==> BatchApart(BatchOf(s.pool.loops[d].pc), s.pool.workers, s.msgs)
  }

  /** No claimed message of a batch or a handler is moved. */
  lemma ClaimsStay(s: State, y': Msgs)
    requires Exclusive(s) && forall m :: ClaimedAt(s.msgs, m) ==> ClaimedAt(y', m)
    ensures Exclusive(s.(msgs := y'))
  {
  }

  lemma CallExclusive(n: nat, s: State, c: Call)
    requires Safe(n, s) && Exclusive(s) && CallEnabled(s, c)
    ensures Exclusive(CallStep(s, c))
  {
    ClaimsStay(s, MsgsAfter(s.msgs, c));
    hide Safe, HandlersApart, HandlersClaim, MsgsAfter;
    assert BatchApart(BatchOf(Top), s.pool.workers, MsgsAfter(s.msgs, c));
  }

  /** The loop moves without fetching or launching. */
  lemma MoveExclusive(n: nat, s: State, d: nat, move: Move)
    requires Exclusive(s) && d in s.pool.loops && MoveEnabled(n, s, s.pool.loops[d], move)
    requires !move.Fetch? && !move.Launch?
    ensures Exclusive(MoveStep(n, s, d, move))
  {
    ClaimsStay(s, MoveMsgs(s.msgs, move));
    if !move.Leave? {
      BatchStays(n, s, s.pool.loops[d], move);
    }
    hide HandlersApart, HandlersClaim, BatchApart, MoveMsgs, NextPc, MoveEnabled;
  }

  lemma FetchExclusive(n: nat, s: State, d: nat, batch: seq<Id>)
    requires Safe(n, s) && Exclusive(s) && d in s.pool.loops && MoveEnabled(n, s, s.pool.loops[d], Fetch(batch))
    ensures Exclusive(MoveStep(n, s, d, Fetch(batch)))
  {
    assert forall e :: e in s.pool.loops ==> e == d;
    var s' := MoveStep(n, s, d, Fetch(batch));
    assert BatchOf(s'.pool.loops[d].pc) == batch && s'.pool.workers == s.pool.workers && s'.pool.loops.Keys == {d};
    BatchClaimed(s, batch);
    hide Safe, Exclusive, MoveStep, MoveEnabled, ClaimedAt, BatchOf;
    TakenOver(s, s', d, batch);
  }

  /** The one loop has a fresh batch. */
  lemma TakenOver(s: State, s': State, d: nat, batch: seq<Id>)
    requires Exclusive(s) && s'.pool.workers == s.pool.workers && s'.pool.loops.Keys == {d}
    requires BatchOf(s'.pool.loops[d].pc) == batch && Distinct(batch) && forall m :: m in batch ==> ClaimedAt(s'.msgs, m)
    requires forall m :: ClaimedAt(s.msgs, m) ==> ClaimedAt(s'.msgs, m) && m !in batch
    ensures Exclusive(s')
  {
    hide ClaimedAt, BatchOf, Distinct;
  }

  /** A claim moves only what was pending. */
  lemma BatchClaimed(s: State, batch: seq<Id>)
    requires PlacedAt(s, AsSet(batch), Pending)
    ensures var y := MoveMsgs(s.msgs, Fetch(batch));
            && (forall m :: m in batch ==> ClaimedAt(y, m))
            && (forall m :: ClaimedAt(s.msgs, m) ==> ClaimedAt(y, m) && m !in batch)
  {
    assert forall m :: m in batch ==> m in AsSet(batch);
  }

  lemma LaunchExclusive(n: nat, s: State, d: nat, w: nat)
    requires Safe(n, s) && Exclusive(s) && d in s.pool.loops && MoveEnabled(n, s, s.pool.loops[d], Launch(w))
    ensures Exclusive(MoveStep(n, s, d, Launch(w)))
  {
    assert forall e :: e in s.pool.loops ==> e == d;
    hide Safe;
    var s' := MoveStep(n, s, d, Launch(w));
    var batch := s.pool.loops[d].pc.batch;
    assert BatchApart(batch, s.pool.workers, s.msgs);
    assert batch[0] in batch;
    assert s'.msgs == s.msgs;
    var rest := BatchOf(s'.pool.loops[d].pc);
    assert rest == batch[1..];
    assert forall m :: m in rest ==> m in batch && m != batch[0];
  }

  lemma WorkExclusive(s: State, w: nat, work: Work)
    requires Exclusive(s) && w in s.pool.workers && WorkEnabled(s, s.pool.workers[w], work)
    ensures Exclusive(WorkStep(s, w, work))
  {
    var s' := WorkStep(s, w, work);
    var held := s.pool.workers[w].msg;
    assert forall m :: ClaimedAt(s.msgs, m) && !(work.Resolve? && m == held) ==> ClaimedAt(s'.msgs, m);
    assert forall v :: v in s'.pool.workers && s'.pool.workers[v].stage == Handling ==>
      v in s.pool.workers && s.pool.workers[v] == s'.pool.workers[v] && (work.Resolve? ==> v != w);
    WorkLoops(s.pool, w, work);
    hide WorkStep;
    forall d | d in s'.pool.loops ensures BatchApart(BatchOf(s'.pool.loops[d].pc), s'.pool.workers, s'.msgs) {
      assert BatchApart(BatchOf(s.pool.loops[d].pc), s.pool.workers, s.msgs);
    }
  }

  lemma StepExclusive(n: nat, s: State, e: Event)
    requires Safe(n, s) && Exclusive(s) && Enabled(n, s, e)
    ensures Exclusive(Step(n, s, e))
  {
    hide Safe, Exclusive, CallStep, MoveStep, WorkStep, CallEnabled, MoveEnabled, WorkEnabled;
    match e
    case Called(c) => CallExclusive(n, s, c);
    case Worked(w, work) => WorkExclusive(s, w, work);
    case Moved(d, move) =>
      if move.Fetch? {
        FetchExclusive(n, s, d, move.batch);
      } else if move.Launch? {
        LaunchExclusive(n, s, d, move.w);
      } else {
        MoveExclusive(n, s, d, move);
      }
  }

  lemma InitialExclusive()
    ensures Exclusive(INITIAL)
  {
  }

  /** In every run, at every moment. */
  lemma {:induction false} RunsExclusive(n: nat, trace: seq<State>, events: seq<Event>, i: nat)
    requires IsRun(n, trace, events) && i < |trace|
    ensures Exclusive(trace[i])
  {
    hide Enabled, Step, Safe, Exclusive;
    if i == 0 {
      InitialExclusive();
    } else {
      RunsExclusive(n, trace, events, i - 1);
      RunsSafe(n, trace, events, i - 1);
      assert IsStep(n, trace[i - 1], events[i - 1], trace[i]);
      StepExclusive(n, trace[i - 1], events[i - 1]);
    }
  }
}
