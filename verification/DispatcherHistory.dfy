/** Where a queue's loops and messages come from: which calls start a loop, who brings a message in, and
    whose a message is. */
module DispatcherHistory {
  import opened Messages
  import opened Dispatcher
  import opened DispatcherSafety
  import opened DispatcherClaims

  /** A call starts a loop exactly if there is none and it is a Register, or the second half of a Resume of
      a registered queue on a broker that is not closed. */
  lemma StartsIff(n: nat, s: State, c: Call)
    requires Safe(n, s) && CallEnabled(s, c)
    ensures CallStep(s, c).pool.loops != s.pool.loops <==>
              s.pool.loops == map[] && (c.Register? || (c.ResumeEnd? && s.ctl.registered && !s.ctl.closed))
    ensures CallStep(s, c).pool.loops != s.pool.loops ==>
              exists d :: CallStep(s, c).pool.loops == map[d := Loop(Top, 0)]
  {
    assert forall d :: d in s.pool.loops ==> LoopOk(n, s.pool, s.ctl.aborted, d);
    var loops' := CallStep(s, c).pool.loops;
    if Starts(s, c) {
      assert s.pool.loops == map[];
      assert loops' == map[s.pool.nextLoop := Loop(Top, 0)];
      assert s.pool.nextLoop in loops';
    }
  }

  /** A message that is new to the queue comes from outside, or from a handler while it runs; and it may
      come at any such moment. */
  lemma NewMessagesCome(n: nat, s: State, e: Event, m: Id)
    requires Exclusive(s) && m !in s.msgs.place
    ensures Enabled(n, s, e) && m in Step(n, s, e).msgs.place ==>
              e == Called(Arrive(m))
              || (e.Worked? && e.work == FollowUp(m) && e.w in s.pool.workers && s.pool.workers[e.w].stage == Handling)
    ensures Enabled(n, s, Called(Arrive(m)))
    ensures forall w :: w in s.pool.workers && s.pool.workers[w].stage == Handling ==> Enabled(n, s, Worked(w, FollowUp(m)))
  {
    if Enabled(n, s, e) {
      match e
      case Called(c) => assert m in MsgsAfter(s.msgs, c).place ==> c == Arrive(m);
      case Moved(d, move) => assert m !in MoveMsgs(s.msgs, move).place;
      case Worked(w, work) =>
        assert s.pool.workers[w].stage == Handling ==> ClaimedAt(s.msgs, s.pool.workers[w].msg);
    }
  }

  /** A loop's flush of its queue lands exactly if it goes through. */
  lemma OwnFlushLands(n: nat, s: State, d: nat, ids: set<Id>, ok: bool)
    requires Enabled(n, s, Moved(d, FlushOwn(ids, ok)))
    ensures var place, place' := s.msgs.place, Step(n, s, Moved(d, FlushOwn(ids, ok))).msgs.place;
            && place'.Keys == place.Keys
            && forall m :: m in place ==> place'[m] == if ok && m in ids then Acked else place[m]
  {
  }

  /** The places where a loop looks for an abort: at its top, before it looks at a drain, and in both
      waits. Once an abort has begun, the loop is on its way out when it has looked. */
  lemma AbortIsSeen(n: nat, s: State, d: nat, move: Move)
    requires Enabled(n, s, Moved(d, move)) && s.ctl.aborted
    requires move == CheckAbort || move == CheckAbortIdle || move == PauseEnds(true) || move == WaitEnds(true)
    ensures var s' := Step(n, s, Moved(d, move));
            && s'.pool.loops[d].pc == Leaving(false) && Enabled(n, s', Moved(d, Leave))
            && d !in Step(n, s', Moved(d, Leave)).pool.loops
  {
  }

  // ----- own messages -----

  /** A handler of the queue puts the message into it: as a follow-up, or by a retry. */
  ghost predicate PutsOwn(s: State, e: Event, m: Id) {
    e.Worked? && (e.work == FollowUp(m)
                  || (e.work == Resolve(RetryStored) && e.w in s.pool.workers && s.pool.workers[e.w].msg == m))
  }

  lemma StepOwns(n: nat, s: State, e: Event, m: Id)
    requires Enabled(n, s, e)
    ensures m in Step(n, s, e).msgs.own <==> PutsOwn(s, e, m) || (m in s.msgs.own && e != Called(Replay(m)))
  {
    hide MovePool, WorkPool, NextPc;
  }

  /** In every run: a message counts as the handlers' own exactly if one of them put it into the queue and
      no replay has since. */
  lemma {:induction false} OwnIff(n: nat, trace: seq<State>, events: seq<Event>, i: nat, m: Id)
    requires IsRun(n, trace, events) && i < |trace|
    ensures m in trace[i].msgs.own <==>
              exists k :: 0 <= k < i && PutsOwn(trace[k], events[k], m) && forall j :: k < j < i ==> events[j] != Called(Replay(m))
  {
    if i > 0 {
      hide Enabled, Step, PutsOwn;
      OwnIff(n, trace, events, i - 1, m);
      var s, e := trace[i - 1], events[i - 1];
      assert IsStep(n, s, e, trace[i]);
      StepOwns(n, s, e, m);
      if k :| 0 <= k < i - 1 && PutsOwn(trace[k], events[k], m) && forall j :: k < j < i - 1 ==> events[j] != Called(Replay(m)) {
        if e != Called(Replay(m)) {
          assert forall j :: k < j < i ==> events[j] != Called(Replay(m));
        }
      }
    }
  }
}
