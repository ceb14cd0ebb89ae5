/** Handler runs run out: without new messages, replays, reclaims and crashes, the attempts that the
    pending rows and the deliveries in progress still have bound every further handler invocation. */
module RetryTermination {
  import opened Naming
  import opened Messages
  import opened SqlMachine
  import opened Delivery
  import A = AckBuffer
  import opened AtLeastOnce
  import opened RetryBudget

  /** Nothing brings a message in or back, and every handler that runs is registered with a positive
      MaxRetries of at most n. */
  predicate Quiet(e: Event, n: nat) {
    match e
    case Accept(_, _, _) => false
    case ReplayDead(_, _, _) => false
    case ReclaimQueue(_) => false
    case Crash => false
    case Invoke(_, k, _) => 0 < k <= n
    case _ => true
  }

  /** Handler runs a message with this attempt count still has. */
  function Slack(n: nat, attempts: int): nat {
    if attempts <= n then n + 1 - attempts else 0
  }

  /** What a row can still cause by itself: nothing unless it is up for delivery. */
  ghost function RowSlack(row: Row, n: nat, ids: iset<Id>): nat {
    if row.status == Pending && row.msg.id in ids then Slack(n, row.msg.attempts) else 0
  }

  /** What a delivery can still cause: with its handler ahead all its message has left, after a
      failure one less, after a success nothing. */
  ghost function WorkerSlack(w: Worker, n: nat, ids: iset<Id>): nat {
    if w.msg.id !in ids then 0
    else
      match w.phase
      case Fetched => Slack(n, w.msg.attempts)
      case Failed => Slack(n, w.msg.attempts + 1)
      case Succeeded => 0
  }

  ghost function RowSlacks(s: Sys, n: nat, ids: iset<Id>): map<Id, nat> {
    map id | id in s.db.rows :: RowSlack(s.db.rows[id], n, ids)
  }

  ghost function WorkerSlacks(s: Sys, n: nat, ids: iset<Id>): map<nat, nat> {
    map w | w in s.workers :: WorkerSlack(s.workers[w], n, ids)
  }

  /** Handler runs still to come for the messages `ids`. */
  ghost function Remaining(s: Sys, n: nat, ids: iset<Id>): nat {
    Total(RowSlacks(s, n, ids)) + Total(WorkerSlacks(s, n, ids))
  }

  // ----- sums -----

  ghost function Total<K>(m: map<K, nat>): nat
    decreases |m|
  {
    if m == map[] then 0
    else
      var k :| k in m;
      m[k] + Total(m - {k})
  }

  lemma {:induction false} TotalDrop<K>(m: map<K, nat>, k: K)
    requires k in m
    ensures Total(m) == m[k] + Total(m - {k})
    decreases |m|
  {
    var x :| x in m && Total(m) == m[x] + Total(m - {x});
    if x != k {
      TotalDrop(m - {x}, k);
      TotalDrop(m - {k}, x);
      assert m - {x} - {k} == m - {k} - {x};
    }
  }

  lemma TotalSet<K>(m: map<K, nat>, k: K, v: nat)
    ensures Total(m[k := v]) + (if k in m then m[k] else 0) == Total(m) + v
  {
    TotalDrop(m[k := v], k);
    assert m[k := v] - {k} == m - {k};
    if k in m {
      TotalDrop(m, k);
    } else {
      assert m - {k} == m;
    }
  }

  lemma {:induction false} TotalFalls<K>(m: map<K, nat>, m': map<K, nat>)
    requires m'.Keys <= m.Keys && forall k :: k in m' ==> m'[k] <= m[k]
    ensures Total(m') <= Total(m)
    decreases |m|
  {
    if m' != map[] {
      var k :| k in m';
      TotalDrop(m, k);
      TotalDrop(m', k);
      TotalFalls(m - {k}, m' - {k});
    }
  }

  // ----- each step -----

  /** A worker ends, and no row comes up for delivery. */
  lemma EndFalls(s: Sys, s': Sys, w: nat, n: nat, ids: iset<Id>)
    requires w in s.workers && s'.workers == s.workers - {w}
    requires forall id :: id in s'.db.rows && s'.db.rows[id].status == Pending ==> id in s.db.rows && s'.db.rows[id] == s.db.rows[id]
    ensures Remaining(s', n, ids) + WorkerSlack(s.workers[w], n, ids) <= Remaining(s, n, ids)
  {
    RowsFall(s, s', n, ids);
    TotalDrop(WorkerSlacks(s, n, ids), w);
    assert WorkerSlacks(s', n, ids) == WorkerSlacks(s, n, ids) - {w};
  }

  lemma RowsFall(s: Sys, s': Sys, n: nat, ids: iset<Id>)
    requires forall id :: id in s'.db.rows && s'.db.rows[id].status == Pending ==> id in s.db.rows && s'.db.rows[id] == s.db.rows[id]
    ensures Total(RowSlacks(s', n, ids)) <= Total(RowSlacks(s, n, ids))
  {
    var m, m' := RowSlacks(s, n, ids), RowSlacks(s', n, ids);
    var live := map id | id in m' && id in m :: m'[id];
    TotalFalls(m, live);
    SpareZeros(m', live);
  }

  /** Zeros do not add to a total. */
  lemma {:induction false} SpareZeros<K>(m: map<K, nat>, part: map<K, nat>)
    requires part.Keys <= m.Keys && forall k :: k in m ==> m[k] == if k in part then part[k] else 0
    ensures Total(m) == Total(part)
    decreases |m|
  {
    if m == map[] {
      assert part == map[];
    } else {
      var k :| k in m;
      TotalDrop(m, k);
      if k in part {
        TotalDrop(part, k);
      } else {
        assert part - {k} == part;
      }
      SpareZeros(m - {k}, part - {k});
    }
  }

  lemma FetchFalls(indexed: bool, s: Sys, e: Event, n: nat, ids: iset<Id>)
    requires e.Fetch? && Enabled(s, e)
    ensures Remaining(Step(indexed, s, e), n, ids) == Remaining(s, n, ids)
  {
    var s', row := Step(indexed, s, e), s.db.rows[e.id];
    assert row.status == Pending && s'.db.rows == s.db.rows[e.id := row.(status := Processing)];
    assert e.w !in s.workers && s'.workers == s.workers[e.w := Worker(e.q, row.msg, Fetched)];
    hide Step, Enabled, Total, Slack;
    var left := RowSlack(row, n, ids);
    assert RowSlacks(s', n, ids) == RowSlacks(s, n, ids)[e.id := 0];
    TotalSet(RowSlacks(s, n, ids), e.id, 0);
    assert WorkerSlacks(s', n, ids) == WorkerSlacks(s, n, ids)[e.w := left];
    TotalSet(WorkerSlacks(s, n, ids), e.w, left);
  }

  lemma InvokeFalls(indexed: bool, s: Sys, e: Event, n: nat, ids: iset<Id>)
    requires e.Invoke? && Quiet(e, n) && Enabled(s, e)
    ensures Remaining(Step(indexed, s, e), n, ids) + (if s.workers[e.w].msg.id in ids then 1 else 0) <= Remaining(s, n, ids)
  {
    var s' := Step(indexed, s, e);
    var left := WorkerSlack(s'.workers[e.w], n, ids);
    assert RowSlacks(s', n, ids) == RowSlacks(s, n, ids);
    assert WorkerSlacks(s', n, ids) == WorkerSlacks(s, n, ids)[e.w := left];
    TotalSet(WorkerSlacks(s, n, ids), e.w, left);
  }

  lemma AckFalls(indexed: bool, s: Sys, e: Event, n: nat, ids: iset<Id>)
    requires e.AckNow? || e.AckLater?
    requires Enabled(s, e)
    ensures Remaining(Step(indexed, s, e), n, ids) <= Remaining(s, n, ids)
  {
    hide A.Step, Remaining;
    EndFalls(s, Step(indexed, s, e), e.w, n, ids);
  }

  lemma FlushFalls(indexed: bool, s: Sys, e: Event, n: nat, ids: iset<Id>)
    requires e.TakeAcks? || e.FlushOk? || e.FlushFailed?
    requires Enabled(s, e)
    ensures Remaining(Step(indexed, s, e), n, ids) <= Remaining(s, n, ids)
  {
    hide A.Step, A.Enabled;
    var s' := Step(indexed, s, e);
    RowsFall(s, s', n, ids);
    assert WorkerSlacks(s', n, ids) == WorkerSlacks(s, n, ids);
  }

  /** A dead-letter transaction brings no row up for delivery. */
  lemma BuryAddsNone(indexed: bool, s: Sys, w: Worker, msg: Message, newId: Id, now: Time)
    ensures var t := Bury(indexed, s, w, msg, newId, now);
            && t.workers == s.workers
            && forall id :: id in t.db.rows && t.db.rows[id].status == Pending ==> id in s.db.rows && t.db.rows[id] == s.db.rows[id]
  {
    ShadowNames(w.queue);
    hide IsDlq, Dlq, KeyTaken;
  }

  lemma GiveUpFalls(indexed: bool, s: Sys, e: Event, n: nat, ids: iset<Id>)
    requires e.GiveUp? && Enabled(s, e)
    ensures Remaining(Step(indexed, s, e), n, ids) <= Remaining(s, n, ids)
  {
    BuryAddsNone(indexed, s, s.workers[e.w], s.workers[e.w].msg, e.newId, e.now);
    hide Bury, Remaining;
    EndFalls(s, Step(indexed, s, e), e.w, n, ids);
  }

  lemma ResolveFalls(indexed: bool, s: Sys, e: Event, n: nat, ids: iset<Id>)
    requires e.Resolve? && Enabled(s, e)
    ensures Remaining(Step(indexed, s, e), n, ids) <= Remaining(s, n, ids)
  {
    hide DeadLetter, Retry, Bury, Remaining;
    var s', w := Step(indexed, s, e), s.workers[e.w];
    var msg := w.msg.(attempts := w.msg.attempts + 1);
    BuryAddsNone(indexed, s, w, msg, e.newId, e.now);
    if e.up && msg.attempts <= e.n && Retry(indexed, s.db, w.queue, msg.(scheduledAt := e.due), e.now).outcome == Done {
      RetryFalls(indexed, s, s', e, n, ids);
    } else {
      EndFalls(s, s', e.w, n, ids);
    }
  }

  /** What the delivery had left goes over to the row. */
  lemma RetryFalls(indexed: bool, s: Sys, s': Sys, e: Event, n: nat, ids: iset<Id>)
    requires e.Resolve? && InPhase(s, e.w, Failed)
    requires var w := s.workers[e.w];
             var tx := Retry(indexed, s.db, w.queue, w.msg.(attempts := w.msg.attempts + 1, scheduledAt := e.due), e.now);
             tx.outcome == Done && s'.db == tx.db && s'.workers == s.workers - {e.w}
    ensures Remaining(s', n, ids) <= Remaining(s, n, ids)
  {
    var w := s.workers[e.w];
    var row := s'.db.rows[w.msg.id];
    hide IsDlq, KeyTaken;
    assert s'.db.rows == s.db.rows[w.msg.id := row];
    hide Retry;
    assert RowSlacks(s', n, ids) == RowSlacks(s, n, ids)[w.msg.id := RowSlack(row, n, ids)];
    TotalSet(RowSlacks(s, n, ids), w.msg.id, RowSlack(row, n, ids));
    assert WorkerSlacks(s', n, ids) == WorkerSlacks(s, n, ids) - {e.w};
    TotalDrop(WorkerSlacks(s, n, ids), e.w);
  }

  /** A quiet step uses up what is left, by one for every handler run. */
  lemma StepFalls(indexed: bool, s: Sys, e: Event, n: nat, ids: iset<Id>)
    requires Quiet(e, n) && Enabled(s, e)
    ensures Remaining(Step(indexed, s, e), n, ids) + Runs(s, e, ids) <= Remaining(s, n, ids)
  {
    hide Step, Enabled, Remaining;
    match e
    case Fetch(_, _, _, _) => FetchFalls(indexed, s, e, n, ids);
    case Invoke(_, _, _) => InvokeFalls(indexed, s, e, n, ids);
    case AckNow(_, _) => AckFalls(indexed, s, e, n, ids);
    case AckLater(_) => AckFalls(indexed, s, e, n, ids);
    case TakeAcks(_) => FlushFalls(indexed, s, e, n, ids);
    case FlushOk(_) => FlushFalls(indexed, s, e, n, ids);
    case FlushFailed(_) => FlushFalls(indexed, s, e, n, ids);
    case GiveUp(_, _, _, _, _) => GiveUpFalls(indexed, s, e, n, ids);
    case Resolve(_, _, _, _, _, _) => ResolveFalls(indexed, s, e, n, ids);
  }

  // ----- stretches of a run -----

  /** The event runs a handler on one of these messages. */
  ghost function Runs(s: Sys, e: Event, ids: iset<Id>): nat {
    if e.Invoke? && e.w in s.workers && s.workers[e.w].msg.id in ids then 1 else 0
  }

  ghost function Invocations(trace: seq<Sys>, events: seq<Event>, ids: iset<Id>, i: nat, j: nat): nat
    requires i <= j <= |events| < |trace|
    decreases j
  {
    if i == j then 0 else Invocations(trace, events, ids, i, j - 1) + Runs(trace[j - 1], events[j - 1], ids)
  }

  /** From any state on, a quiet stretch runs handlers on any chosen messages at most as often as that
      state leaves them, whatever happened before: one message or all of them, with or without
      reclaims in the past. */
  lemma {:induction false} InvocationsBounded(indexed: bool, n: nat, ids: iset<Id>, trace: seq<Sys>, events: seq<Event>, i: nat, j: nat)
    requires IsPath(indexed, trace, events) && i <= j < |trace|
    requires forall k :: i <= k < j ==> Quiet(events[k], n)
    ensures Invocations(trace, events, ids, i, j) + Remaining(trace[j], n, ids) <= Remaining(trace[i], n, ids)
    decreases j
  {
    if i < j {
      hide Step, Enabled, Remaining, Quiet, Runs;
      var s, e, s' := trace[j - 1], events[j - 1], trace[j];
      assert Enabled(s, e) && s' == Step(indexed, s, e);
      InvocationsBounded(indexed, n, ids, trace, events, i, j - 1);
      StepFalls(indexed, s, e, n, ids);
    }
  }

  /** A pending row that no delivery has is all that is left of its message. */
  lemma OnlyRow(s: Sys, n: nat, id: Id)
    requires id in s.db.rows && s.db.rows[id].status == Pending && (forall x :: x in s.db.rows ==> s.db.rows[x].msg.id == x)
    requires forall w :: w in s.workers ==> s.workers[w].msg.id != id
    ensures Remaining(s, n, iset{id}) == Slack(n, s.db.rows[id].msg.attempts)
  {
    var only := map[id := Slack(n, s.db.rows[id].msg.attempts)];
    SpareZeros(RowSlacks(s, n, iset{id}), only);
    TotalDrop(only, id);
    assert only - {id} == map[];
    SpareZeros(WorkerSlacks(s, n, iset{id}), map[]);
  }

  /** At any moment of a run that keeps the budget, a pending row that no delivery has can cause at most
      n + 1 handler runs less the failures its message has on record, until something brings it back. */
  lemma RunsLeft(indexed: bool, n: nat, id: Id, trace: seq<Sys>, events: seq<Event>, i: nat, j: nat)
    requires n > 0 && IsSteadyRun(indexed, n, trace, events) && i <= j < |trace|
    requires forall k :: i <= k < j ==> Quiet(events[k], n)
    requires id in trace[i].db.rows && trace[i].db.rows[id].status == Pending
    requires forall w :: w in trace[i].workers ==> trace[i].workers[w].msg.id != id
    ensures Invocations(trace, events, iset{id}, i, j) <= n + 1 - FailuresOf(trace[i], Origin(trace[i], id))
  {
    RunsKeepBudget(indexed, n, trace, events, i);
    RowsKnown(trace[i]);
    assert !Tombstone(trace[i].lineage, trace[i].db.rows[id], id);
    hide Inv, Step, Enabled, Quiet, Steady, Remaining, Invocations, AllFollow, Apart;
    OnlyRow(trace[i], n, id);
    InvocationsBounded(indexed, n, iset{id}, trace, events, i, j);
  }
}
