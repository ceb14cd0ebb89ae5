/** Periodic jobs across any number of brokers sharing one store. Every broker polls with a clock of
    its own, keeps the snapshots it read for any length of time, and runs each through the store's
    compare-and-set. */
module Periodic {
  import opened Messages
  import opened Cadence
  import opened Arithmetic
  import Naming
  import Sql = SqlMachine
  import Mem = MemoryStore
  import opened SqlEffects
  import opened MemoryEffects

  /** One poll's snapshot of a schedule, with that broker's clock reading. */
  datatype Poll = Poll(snapshot: Schedule, now: Time)

  /** One message enqueued by a run: its schedule and queue, the slot it was for and the clock reading
      that ran it. */
  datatype Sent = Sent(id: string, queue: string, slot: Time, at: Time)

  datatype State = State(schedules: Schedules, polls: map<nat, Poll>, sent: seq<Sent>)

  const INITIAL := State(map[], map[], [])

  datatype Event =
    | Create(s: Schedule)
    | Delete(id: string)
    | Enable(id: string, on: bool)
    | PollAt(p: nat, id: string, now: Time)
    | Run(p: nat)

  predicate Enabled(s: State, e: Event) {
    match e
    case Create(c) => c.id !in s.schedules
    case Delete(_) => true
    case Enable(id, _) => id in s.schedules
    case PollAt(p, id, now) => id in s.schedules && Due(s.schedules[id], now)
    case Run(p) => p in s.polls
  }

  /** The slot a broker asks for: the next one after its own clock. */
  function Asked(p: Poll): Time
    requires p.snapshot.interval > 0
  {
    NextSlot(p.snapshot.nextRunAt, p.snapshot.interval, p.now)
  }

  function Step(s: State, e: Event): State
    requires Enabled(s, e)
  {
    match e
    case Create(c) => s.(schedules := s.schedules[c.id := c])
    case Delete(id) => s.(schedules := s.schedules - {id})
    case Enable(id, on) => s.(schedules := s.schedules[id := s.schedules[id].(enabled := on)])
    case PollAt(p, id, now) => s.(polls := s.polls[p := Poll(s.schedules[id], now)])
    case Run(p) =>
      var r := s.polls[p];
      if r.snapshot.interval <= 0 then s
      else s.(schedules := AfterRun(s.schedules, r.snapshot, r.now, Asked(r)),
              sent := if RunTakes(s.schedules, r.snapshot, r.now)
                      then s.sent + [Sent(r.snapshot.id, r.snapshot.queue, r.snapshot.nextRunAt, r.now)]
                      else s.sent)
  }

  ghost predicate IsStep(s: State, e: Event, s': State) {
    Enabled(s, e) && s' == Step(s, e)
  }

  ghost predicate IsRun(trace: seq<State>, events: seq<Event>) {
    && |trace| == |events| + 1
    && trace[0] == INITIAL
    && forall i :: 0 <= i < |events| ==> IsStep(trace[i], events[i], trace[i + 1])
  }

  ghost predicate Keyed(schedules: Schedules) {
    forall id :: id in schedules ==> schedules[id].id == id
  }

  /** The slots for which schedule `id` has sent a message, in order. */
  function SlotsOf(sent: seq<Sent>, id: string): seq<Time> {
    if sent == [] then []
    else if sent[|sent| - 1].id == id then SlotsOf(sent[..|sent| - 1], id) + [sent[|sent| - 1].slot]
    else SlotsOf(sent[..|sent| - 1], id)
  }

  /** Slots on the cadence, each at least one interval after the one before. */
  ghost predicate Rising(slots: seq<Time>, start: Time, interval: int) {
    && (forall j :: 0 <= j < |slots| ==> OnGrid(start, interval, slots[j]))
    && (forall j :: 0 < j < |slots| ==> slots[j - 1] + interval <= slots[j])
  }

  /** Schedule `c` was created: the slots used so far rise along its cadence; and as long as it is
      there its cadence is unchanged, its next slot is on it and past every slot already used. */
  ghost predicate OnCadence(s: State, c: Schedule) {
    && Keyed(s.schedules) && c.interval > 0
    && (forall p :: p in s.polls && s.polls[p].snapshot.id == c.id ==> s.polls[p].snapshot.interval == c.interval)
    && Rising(SlotsOf(s.sent, c.id), c.nextRunAt, c.interval)
    && (c.id in s.schedules ==> NextIsAhead(s.schedules[c.id], c, SlotsOf(s.sent, c.id)))
  }

  ghost predicate NextIsAhead(current: Schedule, c: Schedule, slots: seq<Time>) {
    && current.interval == c.interval
    && OnGrid(c.nextRunAt, c.interval, current.nextRunAt)
    && (slots != [] ==> slots[|slots| - 1] + c.interval <= current.nextRunAt)
  }

  /** A run that sends nothing for `id` leaves its schedule as it is. */
  lemma RunMovesIfSent(s: State, p: nat, id: string)
    requires Enabled(s, Run(p))
    ensures var s' := Step(s, Run(p));
            SlotsOf(s'.sent, id) == SlotsOf(s.sent, id) && id in s.schedules ==> s'.schedules[id] == s.schedules[id]
  {
    var s' := Step(s, Run(p));
    assert s'.sent != s.sent ==> s'.sent[..|s.sent|] == s.sent;
  }

  lemma RunKeeps(s: State, p: nat, c: Schedule)
    requires OnCadence(s, c) && Enabled(s, Run(p))
    ensures var s' := Step(s, Run(p));
            && OnCadence(s', c)
            && (c.id in s'.schedules <==> c.id in s.schedules)
            && (c.id in s.schedules ==> s'.schedules[c.id].nextRunAt >= s.schedules[c.id].nextRunAt)
            && (|SlotsOf(s'.sent, c.id)| > |SlotsOf(s.sent, c.id)| ==>
                  c.id in s.schedules && s'.schedules[c.id].nextRunAt > s.schedules[c.id].nextRunAt)
            && (SlotsOf(s'.sent, c.id) == SlotsOf(s.sent, c.id) && c.id in s.schedules ==>
                  s'.schedules[c.id] == s.schedules[c.id])
  {
    var s', r := Step(s, Run(p)), s.polls[p];
    RunMovesIfSent(s, p, c.id);
    if r.snapshot.interval > 0 && RunTakes(s.schedules, r.snapshot, r.now) {
      assert s'.sent[..|s.sent|] == s.sent;
      if r.snapshot.id == c.id {
        var slot := s.schedules[c.id].nextRunAt;
        NextSlotIsEarliest(slot, c.interval, r.now);
        GridIsClosed(c.nextRunAt, c.interval, slot, Asked(r));
        assert SlotsOf(s'.sent, c.id) == SlotsOf(s.sent, c.id) + [slot];
      }
    }
  }

  /** Every step but a second creation keeps the cadence, a deletion included. */
  lemma StepKeeps(s: State, e: Event, c: Schedule)
    requires OnCadence(s, c) && Enabled(s, e) && !(e.Create? && e.s.id == c.id)
    ensures var s' := Step(s, e);
            && OnCadence(s', c)
            && (c.id in s'.schedules ==>
                  c.id in s.schedules && s'.schedules[c.id].nextRunAt >= s.schedules[c.id].nextRunAt)
  {
    hide OnGrid, Rising;
    if e.Run? {
      RunKeeps(s, e.p, c);
    }
  }

  /** Nothing is known of an id before it is first created. */
  ghost predicate Unknown(s: State, id: string) {
    && Keyed(s.schedules) && id !in s.schedules && SlotsOf(s.sent, id) == []
    && forall p :: p in s.polls ==> s.polls[p].snapshot.id != id
  }

  lemma StaysUnknown(s: State, e: Event, id: string)
    requires Unknown(s, id) && Enabled(s, e) && !(e.Create? && e.s.id == id)
    ensures Unknown(Step(s, e), id)
  {
    var s' := Step(s, e);
    if e.Run? && s'.sent != s.sent {
      assert s'.sent[..|s.sent|] == s.sent;
    }
  }

  /** Event `k` creates `c`, and no other of the first `i` events creates its id. */
  ghost predicate CreatedOnce(events: seq<Event>, c: Schedule, k: nat, i: nat)
    requires i <= |events|
  {
    && k < i && events[k] == Create(c) && c.interval > 0
    && (forall j :: 0 <= j < i && j != k ==> !(events[j].Create? && events[j].s.id == c.id))
  }

  lemma {:induction false} RunsUnknown(trace: seq<State>, events: seq<Event>, i: nat, id: string)
    requires IsRun(trace, events) && i < |trace|
    requires forall j :: 0 <= j < i ==> !(events[j].Create? && events[j].s.id == id)
    ensures Unknown(trace[i], id)
  {
    if i > 0 {
      hide Enabled, Step, Unknown;
      RunsUnknown(trace, events, i - 1, id);
      assert IsStep(trace[i - 1], events[i - 1], trace[i]);
      StaysUnknown(trace[i - 1], events[i - 1], id);
    }
  }

  lemma CreateStarts(s: State, c: Schedule)
    requires Unknown(s, c.id) && c.interval > 0
    ensures OnCadence(Step(s, Create(c)), c)
  {
    assert c.nextRunAt == c.nextRunAt + 0 * c.interval;
  }

  lemma {:induction false} RunsKeepCadence(trace: seq<State>, events: seq<Event>, c: Schedule, k: nat, i: nat)
    requires IsRun(trace, events) && i < |trace| && CreatedOnce(events, c, k, i)
    ensures OnCadence(trace[i], c)
    ensures i > k + 1 && c.id in trace[i].schedules ==>
              (c.id in trace[i - 1].schedules
               && trace[i].schedules[c.id].nextRunAt >= trace[i - 1].schedules[c.id].nextRunAt)
  {
    hide Enabled, Step, OnGrid, Rising;
    assert IsStep(trace[i - 1], events[i - 1], trace[i]);
    if i == k + 1 {
      RunsUnknown(trace, events, k, c.id);
      hide OnCadence, Unknown;
      CreateStarts(trace[k], c);
    } else {
      RunsKeepCadence(trace, events, c, k, i - 1);
      StepKeeps(trace[i - 1], events[i - 1], c);
    }
  }

  // ----- how many messages -----

  lemma {:induction false} SlotsGrow(slots: seq<Time>, start: Time, interval: int, j: nat)
    requires Rising(slots, start, interval) && interval > 0 && j < |slots|
    ensures slots[j] >= start + j * interval
  {
    if j == 0 {
      var k: nat :| slots[0] == start + k * interval;
      assert k * interval >= 0;
    } else {
      SlotsGrow(slots, start, interval, j - 1);
      assert j * interval == (j - 1) * interval + interval;
    }
  }

  /** A message is sent for a slot only by a clock that has reached it. */
  ghost predicate NotEarly(sent: seq<Sent>) {
    forall j :: 0 <= j < |sent| ==> sent[j].slot <= sent[j].at
  }

  lemma {:induction false} RunsNotEarly(trace: seq<State>, events: seq<Event>, i: nat)
    requires IsRun(trace, events) && i < |trace|
    ensures NotEarly(trace[i].sent)
  {
    if i > 0 {
      RunsNotEarly(trace, events, i - 1);
      assert IsStep(trace[i - 1], events[i - 1], trace[i]);
    }
  }

  lemma {:induction false} SlotIsSent(sent: seq<Sent>, id: string, slot: Time) returns (j: nat)
    requires slot in SlotsOf(sent, id)
    ensures j < |sent| && sent[j].slot == slot && sent[j].id == id
  {
    var last := |sent| - 1;
    if sent[last].id == id && sent[last].slot == slot {
      j := last;
    } else {
      j := SlotIsSent(sent[..last], id, slot);
    }
  }

  /** Each slot of the cadence yields at most one message, in order of the slots; and with clocks
      that never show more than `T`, at most floor((T - start) / interval) + 1 messages are sent,
      whatever the brokers, their clocks and their snapshots, and also after the job was removed. */
  lemma CadenceIsKept(trace: seq<State>, events: seq<Event>, c: Schedule, k: nat, i: nat, T: Time)
    requires IsRun(trace, events) && i < |trace| && CreatedOnce(events, c, k, i)
    requires forall j :: 0 <= j < |trace[i].sent| && trace[i].sent[j].id == c.id ==> trace[i].sent[j].at <= T
    ensures var slots := SlotsOf(trace[i].sent, c.id);
            && Rising(slots, c.nextRunAt, c.interval)
            && (slots != [] ==> T >= c.nextRunAt && |slots| <= (T - c.nextRunAt) / c.interval + 1)
  {
    hide Enabled, Step;
    RunsKeepCadence(trace, events, c, k, i);
    RunsNotEarly(trace, events, i);
    hide IsRun, OnGrid;
    var slots := SlotsOf(trace[i].sent, c.id);
    if slots != [] {
      var n := |slots| - 1;
      SlotsGrow(slots, c.nextRunAt, c.interval, n);
      var j := SlotIsSent(trace[i].sent, c.id, slots[n]);
      hide Rising;
      assert n * c.interval <= T - c.nextRunAt;
      AtLeastQuotient(T - c.nextRunAt, c.interval, n);
    }
  }

  lemma AtLeastQuotient(a: int, b: int, n: nat)
    requires b > 0 && n * b <= a
    ensures a >= 0 && n <= a / b
  {
    assert n * b >= 0;
    var d, r := a / b, a % b;
    assert a == d * b + r;
    if d < n {
      TimesGrows(d + 1, n, b);
    }
  }

  // ----- one tick of a broker's schedule loop -----

  /** A store and what a tick has sent. */
  datatype Ticks = Ticks(schedules: Schedules, mem: Mem.Mem, sent: seq<Sent>)

  /** The first `n` due snapshots run one after another. */
  function Ticked(t: Ticks, due: seq<Schedule>, ids: seq<Id>, n: nat, now: Time): Ticks
    requires n <= |due| == |ids|
  {
    if n == 0 then t
    else
      var before, s := Ticked(t, due, ids, n - 1, now), due[n - 1];
      if s.interval <= 0 || !RunTakes(before.schedules, s, now) then before
      else Ticks(AfterRun(before.schedules, s, now, NextSlot(s.nextRunAt, s.interval, now)),
                 Mem.Append(before.mem, s.queue, [PeriodicMessage(s, ids[n - 1], now)]),
                 before.sent + [Sent(s.id, s.queue, s.nextRunAt, now)])
  }

  /** Every run that takes moves its schedule's slot and appends its one message; no other does
      either. */
  method Tick(store: Mem.Memory, due: seq<Schedule>, now: Time, newIds: seq<Id>)
    requires store.Valid() && |newIds| == |due|
    modifies store
    ensures store.Valid()
    ensures var t := Ticked(Ticks(old(store.schedules), old(store.Abs()), []), due, newIds, |due|, now);
            store.schedules == t.schedules && store.Abs() == t.mem
  {
    ghost var start := Ticks(store.schedules, store.Abs(), []);
    for i := 0 to |due|
      invariant store.Valid()
      invariant store.schedules == Ticked(start, due, newIds, i, now).schedules
      invariant store.Abs() == Ticked(start, due, newIds, i, now).mem
    {
      var s := due[i];
      if s.interval > 0 {
        var next := CatchUp(s.nextRunAt, s.interval, now);
        var _ := store.RunSchedule(s, now, next, newIds[i]);
      }
    }
  }

  /** The machine runs its polls 0 to n - 1. */
  function RunFirst(s: State, n: nat): State
    requires forall p :: 0 <= p < n ==> p in s.polls
    ensures RunFirst(s, n).polls == s.polls
  {
    if n == 0 then s else Step(RunFirst(s, n - 1), Run(n - 1))
  }

  // ----- what a run sends -----

  /** A taken run adds to the job's list in the Memory store just the one new message. */
  lemma RunAppends(m: Mem.Mem, s: Schedule, newId: Id, now: Time)
    ensures var m' := Mem.Append(m, s.queue, [PeriodicMessage(s, newId, now)]);
            && Adds(m, m', s.queue) && IsOccurrence(Last(m', s.queue), s, newId, now)
            && m'.inflight == m.inflight && m'.counters == m.counters
  {
  }

  /** In the table it is one new row, which no dedupe key can hold back. */
  lemma RunInserts(indexed: bool, db: Sql.Db, s: Schedule, newId: Id, now: Time)
    requires newId !in db.rows
    ensures var tx := Sql.Enqueue(indexed, db, s.queue, PeriodicMessage(s, newId, now), now);
            && tx.outcome == Sql.Done && OneRow(db.rows, tx.db.rows, newId) && tx.db.stats == db.stats
            && IsOccurrence(tx.db.rows[newId].msg, s, newId, now) && (!IsShadow(s.queue) ==> tx.db.rows[newId].status == Sql.Pending)
  {
    ShadowIsDlq(s.queue);
    hide Naming.IsDlq, IsShadow;
  }

  /** Every message a tick has added to queue `q` is an occurrence of one of its due jobs of that queue,
      and what was there before is there still. */
  lemma {:induction false} TickSendsOccurrences(t: Ticks, due: seq<Schedule>, ids: seq<Id>, n: nat, now: Time, q: string)
    requires n <= |due| == |ids|
    ensures var before, after := Mem.ListOf(t.mem, q), Mem.ListOf(Ticked(t, due, ids, n, now).mem, q);
            && |before| <= |after| && after[..|before|] == before
            && forall k :: |before| <= k < |after| ==>
                 exists i :: 0 <= i < n && due[i].queue == q && IsOccurrence(after[k], due[i], ids[i], now)
  {
    hide NextSlot, RunTakes, AfterRun;
    if n > 0 {
      TickSendsOccurrences(t, due, ids, n - 1, now, q);
      var before, mid := Mem.ListOf(t.mem, q), Mem.ListOf(Ticked(t, due, ids, n - 1, now).mem, q);
      var after := Mem.ListOf(Ticked(t, due, ids, n, now).mem, q);
      assert after == mid || (due[n - 1].queue == q && |after| == |mid| + 1 && after[..|mid|] == mid
                              && IsOccurrence(after[|mid|], due[n - 1], ids[n - 1], now));
      assert after[..|before|] == after[..|mid|][..|before|];
      forall k | |before| <= k < |after|
        ensures exists i :: 0 <= i < n && due[i].queue == q && IsOccurrence(after[k], due[i], ids[i], now)
      {
        if k < |mid| {
          assert after[k] == after[..|mid|][k] == mid[k];
          var i :| 0 <= i < n - 1 && due[i].queue == q && IsOccurrence(mid[k], due[i], ids[i], now);
          assert IsOccurrence(after[k], due[i], ids[i], now);
        }
      }
    }
  }

  // ----- when a run sends -----

  /** A run sends exactly if its schedule exists, is enabled, has come due, and is still at the slot of
      the snapshot; then it sends for that slot, once. */
  lemma SendsIffDue(s: State, p: nat)
    requires Enabled(s, Run(p)) && s.polls[p].snapshot.interval > 0
    ensures var s', r := Step(s, Run(p)), s.polls[p];
            var id := r.snapshot.id;
            if id in s.schedules && s.schedules[id].enabled && s.schedules[id].nextRunAt <= r.now
               && s.schedules[id].nextRunAt == r.snapshot.nextRunAt
            then s'.sent == s.sent + [Sent(id, r.snapshot.queue, r.snapshot.nextRunAt, r.now)]
                 && s'.schedules.Keys == s.schedules.Keys && s'.schedules[id].nextRunAt > r.now
                 && s'.schedules[id].enabled && s'.schedules[id].payload == s.schedules[id].payload
            else s' == s
  {
    NextSlotIsEarliest(s.polls[p].snapshot.nextRunAt, s.polls[p].snapshot.interval, s.polls[p].now);
    hide NextSlot;
  }

  /** A disabled schedule sends nothing until it is enabled, or created, again: every poll and every run
      of an old snapshot included. */
  ghost predicate Disabled(s: State, id: string) {
    Keyed(s.schedules) && (id in s.schedules ==> !s.schedules[id].enabled)
  }

  predicate Revives(e: Event, id: string) {
    (e.Enable? && e.id == id && e.on) || (e.Create? && e.s.id == id)
  }

  lemma StepDisabled(s: State, e: Event, id: string)
    requires Disabled(s, id) && Enabled(s, e) && !Revives(e, id)
    ensures Disabled(Step(s, e), id) && SlotsOf(Step(s, e).sent, id) == SlotsOf(s.sent, id)
  {
    var s' := Step(s, e);
    assert s'.sent != s.sent ==> s'.sent[..|s.sent|] == s.sent;
  }

  lemma {:induction false} DisabledSendsNothing(trace: seq<State>, events: seq<Event>, i: nat, j: nat, id: string)
    requires IsRun(trace, events) && i <= j < |trace| && Disabled(trace[i], id)
    requires forall k :: i <= k < j ==> !Revives(events[k], id)
    ensures Disabled(trace[j], id) && SlotsOf(trace[j].sent, id) == SlotsOf(trace[i].sent, id)
  {
    if i < j {
      hide Enabled, Step, Disabled, SlotsOf, Revives;
      DisabledSendsNothing(trace, events, i, j - 1, id);
      assert IsStep(trace[j - 1], events[j - 1], trace[j]);
      StepDisabled(trace[j - 1], events[j - 1], id);
    }
  }

  /** How many messages went to queue `q`. */
  function SentTo(sent: seq<Sent>, q: string): nat {
    if sent == [] then 0
    else SentTo(sent[..|sent| - 1], q) + if sent[|sent| - 1].queue == q then 1 else 0
  }

  /** A tick is a stretch of the machine: with the due snapshots as polls, it leaves the same
      schedules and records the same sendings, and every queue of the store has grown by exactly the
      messages sent to it. */
  lemma {:induction false} TickIsRuns(s: State, mem: Mem.Mem, due: seq<Schedule>, ids: seq<Id>, n: nat, now: Time, q: string)
    requires n <= |due| == |ids|
    requires forall p :: 0 <= p < n ==> p in s.polls && s.polls[p] == Poll(due[p], now)
    ensures var t, s' := Ticked(Ticks(s.schedules, mem, s.sent), due, ids, n, now), RunFirst(s, n);
            && s'.schedules == t.schedules && s'.sent == t.sent
            && |Mem.ListOf(t.mem, q)| - |Mem.ListOf(mem, q)| == SentTo(t.sent, q) - SentTo(s.sent, q)
  {
    hide NextSlot, PeriodicMessage, SentTo, Mem.Append, Mem.ListOf;
    if n > 0 {
      TickIsRuns(s, mem, due, ids, n - 1, now, q);
      var start := Ticks(s.schedules, mem, s.sent);
      TickGrows(Ticked(start, due, ids, n - 1, now), Ticked(start, due, ids, n, now), due[n - 1], ids[n - 1], now, q);
    }
  }

  /** One run of a tick grows the queue it sends to, and the record, by one message or by none. */
  lemma TickGrows(t: Ticks, t': Ticks, s: Schedule, id: Id, now: Time, q: string)
    requires (t'.mem == t.mem && t'.sent == t.sent)
             || (t'.mem == Mem.Append(t.mem, s.queue, [PeriodicMessage(s, id, now)])
                 && t'.sent == t.sent + [Sent(s.id, s.queue, s.nextRunAt, now)])
    ensures |Mem.ListOf(t'.mem, q)| - |Mem.ListOf(t.mem, q)| == SentTo(t'.sent, q) - SentTo(t.sent, q)
  {
    hide PeriodicMessage;
    var x := Sent(s.id, s.queue, s.nextRunAt, now);
    assert (t.sent + [x])[..|t.sent|] == t.sent;
  }
}
