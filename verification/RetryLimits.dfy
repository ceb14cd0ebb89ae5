/** The retry budget needs a positive MaxRetries: with MaxRetries 0 there is none. */
module RetryLimits {
  import opened Naming
  import opened Messages
  import opened SqlMachine
  import opened Delivery
  import opened RetryBudget

  const Q := "q"
  const FIRST := Message(Id(0), Q, [], 0, 0, 1, 1, "", 0, "", ZERO_TIME)

  /** The queue name is valid and has a shadow queue of its own. */
  lemma QIsValid()
    ensures ValidQueueName(Q) && !IsDlq(Q) && IsDlq(Dlq(Q)) && Dlq(Q) != Q
  {
    ShadowNames(Q);
  }

  /** After k failures: message 0 lies in the shadow queue as row k, nothing else is going on. */
  ghost predicate Parked(s: Sys, k: nat) {
    && Is(s.db.rows, Id(k), Dlq(Q), Dead)
    && s.db.rows[Id(k)].msg.id == Id(k) && s.db.rows[Id(k)].msg.attempts >= 0 && s.db.rows[Id(k)].msg.dedupeKey == ""
    && Id(k) in s.lineage.origin && s.lineage.origin[Id(k)] == Id(0)
    && (forall j :: j > k ==> s.lineage.Fresh(Id(j)) && Id(j) !in s.db.rows)
    && s.workers == map[]
    && FailuresOf(s, Id(0)) == k
  }

  /** Message 0 is row k, its handler has failed, and the store does not know yet. */
  ghost predicate Failing(s: Sys, k: nat) {
    && Is(s.db.rows, Id(k), Q, Processing)
    && s.workers.Keys == {0} && s.workers[0].queue == Q && s.workers[0].phase == Failed
    && s.workers[0].msg.id == Id(k) && s.workers[0].msg.attempts >= 0 && s.workers[0].msg.dedupeKey == ""
    && Id(k) in s.lineage.origin && s.lineage.origin[Id(k)] == Id(0)
    && (forall j :: j > k ==> s.lineage.Fresh(Id(j)) && Id(j) !in s.db.rows)
    && FailuresOf(s, Id(0)) == k
  }

  lemma LapReplays(indexed: bool, s: Sys, k: nat) returns (s1: Sys)
    requires Parked(s, k)
    ensures s1 == Step(indexed, s, ReplayDead(Q, Id(k), 1))
    ensures s1 == s.(db := s1.db) && s1.db.rows.Keys == s.db.rows.Keys
    ensures Is(s1.db.rows, Id(k), Q, Pending)
    ensures var msg := s1.db.rows[Id(k)].msg;
            msg.scheduledAt == 1 && msg.id == Id(k) && msg.attempts >= 0 && msg.dedupeKey == ""
  {
    QIsValid();
    hide IsDlq, Dlq, ValidQueueName;
    s1 := Step(indexed, s, ReplayDead(Q, Id(k), 1));
  }

  lemma LapDelivers(indexed: bool, s: Sys, k: nat) returns (s1: Sys, s2: Sys, s3: Sys)
    requires Parked(s, k)
    ensures Enabled(s, ReplayDead(Q, Id(k), 1)) && s1 == Step(indexed, s, ReplayDead(Q, Id(k), 1))
    ensures Enabled(s1, Fetch(Q, Id(k), 0, 1)) && s2 == Step(indexed, s1, Fetch(Q, Id(k), 0, 1))
    ensures Enabled(s2, Invoke(0, 0, false)) && s3 == Step(indexed, s2, Invoke(0, 0, false))
    ensures Failing(s3, k)
  {
    QIsValid();
    hide IsDlq, Dlq, ValidQueueName;
    s1 := LapReplays(indexed, s, k);
    hide Replay;
    s2 := Step(indexed, s1, Fetch(Q, Id(k), 0, 1));
    assert s2.workers == map[0 := Worker(Q, s1.db.rows[Id(k)].msg, Fetched)];
    s3 := Step(indexed, s2, Invoke(0, 0, false));
  }

  lemma LapBuries(indexed: bool, s: Sys, k: nat) returns (s': Sys)
    requires Failing(s, k)
    ensures Enabled(s, Resolve(0, 0, 1, Id(k + 1), 1, true)) && s' == Step(indexed, s, Resolve(0, 0, 1, Id(k + 1), 1, true))
    ensures Parked(s', k + 1)
  {
    QIsValid();
    hide IsDlq, Dlq, ValidQueueName;
    s' := Step(indexed, s, Resolve(0, 0, 1, Id(k + 1), 1, true));
    assert s'.workers == map[];
  }

  /** One more lap: replay, fetch, fail, dead-letter. */
  lemma Lap(indexed: bool, s: Sys, k: nat) returns (s1: Sys, s2: Sys, s3: Sys, s4: Sys)
    requires Parked(s, k)
    ensures Enabled(s, ReplayDead(Q, Id(k), 1)) && s1 == Step(indexed, s, ReplayDead(Q, Id(k), 1))
    ensures Enabled(s1, Fetch(Q, Id(k), 0, 1)) && s2 == Step(indexed, s1, Fetch(Q, Id(k), 0, 1))
    ensures Enabled(s2, Invoke(0, 0, false)) && s3 == Step(indexed, s2, Invoke(0, 0, false))
    ensures Enabled(s3, Resolve(0, 0, 1, Id(k + 1), 1, true)) && s4 == Step(indexed, s3, Resolve(0, 0, 1, Id(k + 1), 1, true))
    ensures Parked(s4, k + 1)
  {
    hide Parked, Failing, Step, Enabled;
    s1, s2, s3 := LapDelivers(indexed, s, k);
    s4 := LapBuries(indexed, s3, k);
  }

  lemma FirstDelivers(indexed: bool) returns (s1: Sys, s2: Sys, s3: Sys)
    ensures Enabled(START, Accept(Q, FIRST, 1)) && s1 == Step(indexed, START, Accept(Q, FIRST, 1))
    ensures Enabled(s1, Fetch(Q, Id(0), 0, 1)) && s2 == Step(indexed, s1, Fetch(Q, Id(0), 0, 1))
    ensures Enabled(s2, Invoke(0, 0, false)) && s3 == Step(indexed, s2, Invoke(0, 0, false))
    ensures Failing(s3, 0)
  {
    QIsValid();
    hide IsDlq, Dlq, ValidQueueName;
    s1 := Step(indexed, START, Accept(Q, FIRST, 1));
    assert s1.db.rows == map[Id(0) := Row(FIRST, Pending)];
    s2 := Step(indexed, s1, Fetch(Q, Id(0), 0, 1));
    assert s2.db.rows == map[Id(0) := Row(FIRST, Processing)] && s2.workers == map[0 := Worker(Q, FIRST, Fetched)];
    s3 := Step(indexed, s2, Invoke(0, 0, false));
  }

  /** Accept, fetch, fail, dead-letter. */
  lemma FirstLap(indexed: bool) returns (s1: Sys, s2: Sys, s3: Sys, s4: Sys)
    ensures Enabled(START, Accept(Q, FIRST, 1)) && s1 == Step(indexed, START, Accept(Q, FIRST, 1))
    ensures Enabled(s1, Fetch(Q, Id(0), 0, 1)) && s2 == Step(indexed, s1, Fetch(Q, Id(0), 0, 1))
    ensures Enabled(s2, Invoke(0, 0, false)) && s3 == Step(indexed, s2, Invoke(0, 0, false))
    ensures Enabled(s3, Resolve(0, 0, 1, Id(1), 1, true)) && s4 == Step(indexed, s3, Resolve(0, 0, 1, Id(1), 1, true))
    ensures Parked(s4, 1)
  {
    hide Parked, Failing, Step, Enabled;
    s1, s2, s3 := FirstDelivers(indexed);
    s4 := LapBuries(indexed, s3, 0);
  }

  /** With MaxRetries 0 there is no cap on a replayed message: for every k some run, without any
      reclaim, records k failures of one message. */
  lemma {:induction false} NoBoundWithoutRetries(indexed: bool, k: nat) returns (trace: seq<Sys>, events: seq<Event>)
    requires k > 0
    ensures IsSteadyRun(indexed, 0, trace, events) && Parked(trace[|events|], k)
    ensures forall i :: 0 <= i < |events| ==> !events[i].ReclaimQueue?
  {
    hide Step, Enabled, Parked;
    if k == 1 {
      var s1, s2, s3, s4 := FirstLap(indexed);
      trace, events := [START], [];
      RunThen(indexed, trace, events, Accept(Q, FIRST, 1));
      trace, events := trace + [s1], events + [Accept(Q, FIRST, 1)];
      RunThen(indexed, trace, events, Fetch(Q, Id(0), 0, 1));
      trace, events := trace + [s2], events + [Fetch(Q, Id(0), 0, 1)];
      RunThen(indexed, trace, events, Invoke(0, 0, false));
      trace, events := trace + [s3], events + [Invoke(0, 0, false)];
      RunThen(indexed, trace, events, Resolve(0, 0, 1, Id(1), 1, true));
      trace, events := trace + [s4], events + [Resolve(0, 0, 1, Id(1), 1, true)];
    } else {
      trace, events := NoBoundWithoutRetries(indexed, k - 1);
      var s1, s2, s3, s4 := Lap(indexed, trace[|events|], k - 1);
      RunThen(indexed, trace, events, ReplayDead(Q, Id(k - 1), 1));
      trace, events := trace + [s1], events + [ReplayDead(Q, Id(k - 1), 1)];
      RunThen(indexed, trace, events, Fetch(Q, Id(k - 1), 0, 1));
      trace, events := trace + [s2], events + [Fetch(Q, Id(k - 1), 0, 1)];
      RunThen(indexed, trace, events, Invoke(0, 0, false));
      trace, events := trace + [s3], events + [Invoke(0, 0, false)];
      RunThen(indexed, trace, events, Resolve(0, 0, 1, Id(k), 1, true));
      trace, events := trace + [s4], events + [Resolve(0, 0, 1, Id(k), 1, true)];
    }
  }

  /** The bound of n + 1 failures holds in every run exactly when n is positive, with the index or
      without; for n = 0 no bound does. */
  lemma BoundedIffPositive(indexed: bool, n: nat)
    ensures n > 0 <==> exists bound: nat :: BoundedBy(indexed, n, bound)
    ensures n > 0 ==> BoundedBy(indexed, n, n + 1)
  {
    if n > 0 {
      forall trace: seq<Sys>, events: seq<Event>, l | IsSteadyRun(indexed, n, trace, events) ensures FailuresOf(trace[|events|], l) <= n + 1 {
        FailuresBounded(indexed, n, trace, events, |events|, l);
      }
      assert BoundedBy(indexed, n, n + 1);
    } else {
      forall bound: nat ensures !BoundedBy(indexed, n, bound) {
        var trace, events := NoBoundWithoutRetries(indexed, bound + 1);
        assert FailuresOf(trace[|events|], Id(0)) == bound + 1;
      }
    }
  }

  ghost predicate BoundedBy(indexed: bool, n: nat, bound: nat) {
    forall trace: seq<Sys>, events: seq<Event>, l :: IsSteadyRun(indexed, n, trace, events) ==> FailuresOf(trace[|events|], l) <= bound
  }
}
