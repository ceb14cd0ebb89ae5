/** The in-process store. Its queues are slices that are sorted lazily, when a dequeue finds the
    dirty flag set, and compacted in place; to its callers each queue is the list of waiting
    messages in arrival order, and a dequeue delivers from a fresh stable sort of it. */
module MemoryStore {
  import opened Naming
  import opened Messages
  import opened DeliveryOrder
  import opened Cadence
  import M = SqlMachine

  type Stats = M.Stats

  /** What callers can observe: the waiting messages in arrival order, the ids in flight, and the
      counters. */
  datatype Mem = Mem(
    queues: map<string, seq<Message>>,
    inflight: map<string, set<Id>>,
    counters: map<string, Stats>)

  const EMPTY_MEM := Mem(map[], map[], map[])

  function ListIn(queues: map<string, seq<Message>>, q: string): seq<Message> {
    if q in queues then queues[q] else []
  }

  function ListOf(m: Mem, q: string): seq<Message> {
    ListIn(m.queues, q)
  }

  function InflightOf(m: Mem, q: string): set<Id> {
    if q in m.inflight then m.inflight[q] else {}
  }

  function CountsIn(counters: map<string, Stats>, q: string): Stats {
    if q in counters then counters[q] else M.Stats(0, 0, 0, 0)
  }

  function CountsOf(m: Mem, q: string): Stats {
    CountsIn(m.counters, q)
  }

  function IdsOf(msgs: seq<Message>): set<Id> {
    set m | m in msgs :: m.id
  }

  // ----- the operations, on what callers observe -----

  function Stamp(msg: Message, now: Time): Message {
    var created := if msg.createdAt == ZERO_TIME then now else msg.createdAt;
    msg.(createdAt := created, scheduledAt := if msg.scheduledAt == ZERO_TIME then created else msg.scheduledAt)
  }

  function StampAll(msgs: seq<Message>, n: nat, now: Time): seq<Message>
    requires n <= |msgs|
  {
    if n == 0 then [] else StampAll(msgs, n - 1, now) + [M.BatchStamp(msgs[n - 1], n - 1, now)]
  }

  function Append(m: Mem, q: string, msgs: seq<Message>): Mem {
    m.(queues := m.queues[q := ListOf(m, q) + msgs])
  }

  /** The messages the next dequeue delivers. */
  function NextOut(m: Mem, q: string, limit: nat, now: Time): seq<Message> {
    FirstDue(StableSort(ListOf(m, q)), limit, now)
  }

  function Dequeued(m: Mem, q: string, limit: nat, now: Time): Mem {
    var out := NextOut(m, q, limit, now);
    if ListOf(m, q) == [] then m
    else Mem(m.queues[q := RemoveAll(ListOf(m, q), out)],
             if out == [] then m.inflight else m.inflight[q := InflightOf(m, q) + IdsOf(out)],
             m.counters)
  }

  function BumpIn(counters: map<string, Stats>, q: string, processed: nat, errors: nat, retries: nat, dead: nat)
    : map<string, Stats>
  {
    var s := CountsIn(counters, q);
    counters[q := M.Stats(s.processed + processed, s.errors + errors, s.retries + retries, s.dead + dead)]
  }

  function Bump(m: Mem, q: string, processed: nat, errors: nat, retries: nat, dead: nat): map<string, Stats> {
    BumpIn(m.counters, q, processed, errors, retries, dead)
  }

  function Land(m: Mem, q: string, ids: set<Id>): map<string, set<Id>> {
    if q in m.inflight then m.inflight[q := m.inflight[q] - ids] else m.inflight
  }

  /** The ids of the batch that are in flight. */
  function Flying(m: Mem, q: string, ids: seq<Id>): set<Id> {
    set id | id in ids && id in InflightOf(m, q)
  }

  function Acked(m: Mem, q: string, ids: seq<Id>): Mem {
    var gone := Flying(m, q, ids);
    if gone == {} then m else m.(inflight := Land(m, q, gone), counters := Bump(m, q, |gone|, 0, 0, 0))
  }

  function Retried(m: Mem, q: string, msg: Message): Mem {
    Append(m, q, [msg.(queue := q)]).(inflight := Land(m, q, {msg.id}), counters := Bump(m, q, 0, 1, 1, 0))
  }

  function DeadLettered(m: Mem, q: string, msg: Message, err: Option<string>, newId: Id, now: Time): Mem {
    Append(m, Dlq(q), [DeadLetterMessage(q, msg, err, newId, now)])
    .(inflight := Land(m, q, {msg.id}), counters := Bump(m, q, 0, 0, 0, 1))
  }

  /** `dead` is the dead letter found under the requested id. */
  function Replayed(m: Mem, q: string, dead: Message, now: Time): Mem {
    var m' := Append(m, q, [ReplayMessage(q, dead, now)]);
    m'.(queues := m'.queues[Dlq(q) := Remove(ListOf(m, Dlq(q)), dead)], counters := Bump(m, Dlq(q), 1, 0, 0, 0))
  }

  // ----- the store itself -----

  ghost predicate CoherentAt(slice: seq<Message>, waiting: seq<Message>, clean: bool) {
    SameByKey(slice, waiting) && (clean ==> Sorted(slice))
  }

  /** The slices hold the arrivals up to the order among different keys, and a slice that is not
      marked dirty is sorted. */
  ghost predicate Coherent(queues: map<string, seq<Message>>, arrivals: map<string, seq<Message>>, dirty: set<string>) {
    forall q :: CoherentAt(ListIn(queues, q), ListIn(arrivals, q), q !in dirty)
  }

  /** Replacing one queue. */
  lemma SetQueue(queues: map<string, seq<Message>>, arrivals: map<string, seq<Message>>, dirty: set<string>,
                 q: string, slice: seq<Message>, waiting: seq<Message>, dirty': set<string>)
    requires Coherent(queues, arrivals, dirty) && dirty - {q} == dirty' - {q}
    requires CoherentAt(slice, waiting, q !in dirty')
    ensures Coherent(queues[q := slice], arrivals[q := waiting], dirty')
  {
    hide CoherentAt;
    forall p ensures CoherentAt(ListIn(queues[q := slice], p), ListIn(arrivals[q := waiting], p), p !in dirty') {
      assert CoherentAt(ListIn(queues, p), ListIn(arrivals, p), p !in dirty);
      assert p != q ==> (p in dirty <==> p in dirty - {q}) && (p in dirty' <==> p in dirty' - {q});
    }
  }

  class Memory {
    var queues: map<string, seq<Message>>
    var counters: map<string, Stats>
    var inflight: map<string, set<Id>>
    var dirty: set<string>
    var schedules: Schedules
    ghost var arrivals: map<string, seq<Message>>

    ghost predicate Valid()
      reads this
    {
      Coherent(queues, arrivals, dirty)
    }

    ghost function Abs(): Mem
      reads this
    {
      Mem(arrivals, inflight, counters)
    }

    constructor ()
      ensures Valid() && Abs() == EMPTY_MEM && schedules == map[]
    {
      queues := map[];
      counters := map[];
      inflight := map[];
      dirty := {};
      schedules := map[];
      arrivals := map[];
    }

    method Push(q: string, msg: Message)
      requires Valid()
      modifies `queues, `dirty, `arrivals
      ensures Valid() && Abs() == Append(old(Abs()), q, [msg])
      ensures dirty == old(dirty) + {q}
    {
      hide SameByKey, Sorted;
      assert CoherentAt(ListIn(queues, q), ListIn(arrivals, q), q !in dirty);
      AppendSame(ListIn(queues, q), ListIn(arrivals, q), msg);
      SetQueue(queues, arrivals, dirty, q, ListIn(queues, q) + [msg], ListIn(arrivals, q) + [msg], dirty + {q});
      queues := queues[q := ListIn(queues, q) + [msg]];
      dirty := dirty + {q};
      arrivals := arrivals[q := ListIn(arrivals, q) + [msg]];
    }

    method Enqueue(q: string, msg: Message, now: Time)
      requires Valid()
      modifies `queues, `counters, `inflight, `dirty, `arrivals
      ensures Valid() && Abs() == Append(old(Abs()), q, [Stamp(msg, now)])
    {
      Push(q, Stamp(msg, now));
    }

    method EnqueueBatch(q: string, msgs: seq<Message>, now: Time)
      requires Valid()
      modifies `queues, `counters, `inflight, `dirty, `arrivals
      ensures Valid()
      ensures Abs() == if msgs == [] then old(Abs()) else Append(old(Abs()), q, StampAll(msgs, |msgs|, now))
    {
      if |msgs| == 0 {
        return;
      }
      for i := 0 to |msgs|
        invariant Valid()
        invariant i == 0 ==> Abs() == old(Abs())
        invariant i > 0 ==> Abs() == Append(old(Abs()), q, StampAll(msgs, i, now))
      {
        Push(q, M.BatchStamp(msgs[i], i, now));
        assert ListOf(old(Abs()), q) + [] == ListOf(old(Abs()), q);
        assert ListOf(old(Abs()), q) + StampAll(msgs, i, now) + [M.BatchStamp(msgs[i], i, now)]
            == ListOf(old(Abs()), q) + StampAll(msgs, i + 1, now);
      }
    }

    /** Sorts the slice if it is dirty, scans it, and stores what the scan keeps. */
    method Pop(q: string, limit: nat, now: Time) returns (out: seq<Message>)
      requires Valid() && ListIn(queues, q) != []
      modifies `queues, `dirty, `arrivals
      ensures Valid()
      ensures out == FirstDue(StableSort(ListIn(old(arrivals), q)), limit, now)
      ensures arrivals == old(arrivals)[q := RemoveAll(ListIn(old(arrivals), q), out)]
    {
      ghost var waiting := ListIn(arrivals, q);
      var pending := ListIn(queues, q);
      assert CoherentAt(pending, waiting, q !in dirty);
      SliceSorts(pending, waiting, q !in dirty);
      hide CoherentAt, Coherent, ScanTo, RemoveAll, FirstDue, StableSort;
      ghost var dirty0 := dirty;
      if q in dirty {
        pending := StableSort(pending);
        dirty := dirty - {q};
      }
      var kept;
      out, kept := Sweep(pending, limit, now);
      SweepOutcome(waiting, limit, now, out, kept);
      SetQueue(queues, arrivals, dirty0, q, kept, RemoveAll(waiting, out), dirty);
      queues := queues[q := kept];
      arrivals := arrivals[q := RemoveAll(waiting, out)];
    }

    /** Returns ErrEmpty (an empty result) exactly when nothing is due. */
    method Dequeue(q: string, limit: nat, now: Time) returns (out: seq<Message>)
      requires Valid()
      modifies `queues, `counters, `inflight, `dirty, `arrivals
      ensures Valid()
      ensures out == NextOut(old(Abs()), q, limit, now)
      ensures Abs() == Dequeued(old(Abs()), q, limit, now)
    {
      assert CoherentAt(ListIn(queues, q), ListIn(arrivals, q), q !in dirty);
      SliceSorts(ListIn(queues, q), ListIn(arrivals, q), q !in dirty);
      hide Coherent, CoherentAt, RemoveAll, IdsOf;
      if |ListIn(queues, q)| == 0 {
        return [];
      }
      hide FirstDue, StableSort;
      out := Pop(q, limit, now);
      if |out| > 0 {
        inflight := inflight[q := (if q in inflight then inflight[q] else {}) + IdsOf(out)];
      }
    }

    method Ack(q: string, id: Id)
      requires Valid()
      modifies `queues, `counters, `inflight, `dirty, `arrivals
      ensures Valid() && Abs() == Acked(old(Abs()), q, [id])
    {
      assert Flying(Abs(), q, [id]) == if q in inflight && id in inflight[q] then {id} else {};
      if q !in inflight || id !in inflight[q] {
        return;
      }
      inflight := inflight[q := inflight[q] - {id}];
      counters := BumpIn(counters, q, 1, 0, 0, 0);
    }

    method AckBatch(q: string, ids: seq<Id>)
      requires Valid()
      modifies `queues, `counters, `inflight, `dirty, `arrivals
      ensures Valid() && Abs() == Acked(old(Abs()), q, ids)
    {
      if |ids| == 0 {
        return;
      }
      var processed := 0;
      ghost var before := Abs();
      for i := 0 to |ids|
        invariant queues == old(queues) && arrivals == old(arrivals) && dirty == old(dirty) && counters == old(counters)
        invariant processed == |Flying(before, q, ids[..i])|
        invariant inflight == if processed == 0 then before.inflight else Land(before, q, Flying(before, q, ids[..i]))
      {
        FlyingGrows(before, q, ids, i);
        if q in inflight && ids[i] in inflight[q] {
          inflight := inflight[q := inflight[q] - {ids[i]}];
          processed := processed + 1;
        }
      }
      assert ids[..|ids|] == ids;
      if processed > 0 {
        counters := BumpIn(counters, q, processed, 0, 0, 0);
      }
    }

    method Retry(q: string, msg: Message)
      requires Valid()
      modifies `queues, `counters, `inflight, `dirty, `arrivals
      ensures Valid() && Abs() == Retried(old(Abs()), q, msg)
    {
      if q in inflight {
        inflight := inflight[q := inflight[q] - {msg.id}];
      }
      Push(q, msg.(queue := q));
      counters := BumpIn(counters, q, 0, 1, 1, 0);
    }

    method DeadLetter(q: string, msg: Message, err: Option<string>, newId: Id, now: Time)
      requires Valid()
      modifies `queues, `counters, `inflight, `dirty, `arrivals
      ensures Valid() && Abs() == DeadLettered(old(Abs()), q, msg, err, newId, now)
    {
      if q in inflight {
        inflight := inflight[q := inflight[q] - {msg.id}];
      }
      var dead := DeadLetterMessage(q, msg, err, newId, now);
      Push(dead.queue, dead);
      counters := BumpIn(counters, q, 0, 0, 0, 1);
    }

    /** The first dead letter with the id, in slice order, moves back. */
    method Replay(q: string, id: Id, now: Time) returns (found: bool, ghost dead: Message)
      requires Valid()
      modifies `queues, `counters, `inflight, `dirty, `arrivals
      ensures Valid()
      ensures found <==> exists m :: m in ListOf(old(Abs()), Dlq(q)) && m.id == id
      ensures found ==> dead in ListOf(old(Abs()), Dlq(q)) && dead.id == id
      ensures Abs() == if found then Replayed(old(Abs()), q, dead, now) else old(Abs())
    {
      var dlq := Dlq(q);
      ShadowNames(q);
      var pending := ListIn(queues, dlq);
      ghost var waiting := ListIn(arrivals, dlq);
      assert CoherentAt(pending, waiting, dlq !in dirty);
      SameMembers(pending, waiting);
      hide SameByKey, Sorted, Coherent, Dlq, Remove;
      dead := DeadLetterMessage(q, Message(id, q, [], 0, 0, 0, 0, "", 0, "", 0), None, id, now);
      for i := 0 to |pending|
        invariant unchanged(this)
        invariant forall j :: 0 <= j < i ==> pending[j].id != id
      {
        if pending[i].id == id {
          dead := pending[i];
          ghost var clean := dlq !in dirty;
          Push(q, ReplayMessage(q, pending[i], now));
          counters := BumpIn(counters, dlq, 1, 0, 0, 0);
          CutOut(pending, waiting, clean, i);
          SetQueue(queues, arrivals, dirty, dlq, pending[..i] + pending[i + 1..], Remove(waiting, dead), dirty);
          queues := queues[dlq := pending[..i] + pending[i + 1..]];
          arrivals := arrivals[dlq := Remove(waiting, dead)];
          return true, dead;
        }
      }
      found := false;
    }

    /** Reports false when the id is taken (ErrScheduleExists). */
    method CreateSchedule(s: Schedule) returns (ok: bool)
      modifies `schedules
      ensures ok == (s.id !in old(schedules))
      ensures schedules == if ok then old(schedules)[s.id := s] else old(schedules)
    {
      ok := s.id !in schedules;
      if ok {
        schedules := schedules[s.id := s];
      }
    }

    method DeleteSchedule(id: string)
      modifies `schedules
      ensures schedules == old(schedules) - {id}
    {
      schedules := schedules - {id};
    }

    /** The message and the new slot together, or neither. */
    method RunSchedule(schedule: Schedule, now: Time, next: Time, newId: Id) returns (ran: bool)
      requires Valid()
      modifies `queues, `dirty, `arrivals, `schedules
      ensures Valid()
      ensures ran == RunTakes(old(schedules), schedule, now)
      ensures schedules == AfterRun(old(schedules), schedule, now, next)
      ensures Abs() == if ran then Append(old(Abs()), schedule.queue, [PeriodicMessage(schedule, newId, now)])
                       else old(Abs())
      ensures ran ==> exists x :: IsOccurrence(x, schedule, newId, now)
                                  && ListOf(Abs(), schedule.queue) == ListOf(old(Abs()), schedule.queue) + [x]
    {
      if schedule.id !in schedules {
        return false;
      }
      var current := schedules[schedule.id];
      if !current.enabled || current.nextRunAt > now || current.nextRunAt != schedule.nextRunAt {
        return false;
      }
      Push(schedule.queue, PeriodicMessage(schedule, newId, now));
      schedules := schedules[schedule.id := current.(nextRunAt := next)];
      assert IsOccurrence(PeriodicMessage(schedule, newId, now), schedule, newId, now);
      ran := true;
    }

    method GetStats(q: string) returns (stats: Stats, depth: nat)
      requires Valid()
      ensures stats == CountsOf(Abs(), q) && depth == |ListOf(Abs(), q)|
    {
      assert CoherentAt(ListIn(queues, q), ListIn(arrivals, q), q !in dirty);
      stats := CountsIn(counters, q);
      depth := |ListIn(queues, q)|;
      SameLength(ListIn(queues, q), ListIn(arrivals, q));
    }
  }

  /** Runs the scan over a slice of its own. */
  method Sweep(pending: seq<Message>, limit: nat, now: Time) returns (out: seq<Message>, kept: seq<Message>)
    ensures Scan(out, kept) == ScanTo(pending, |pending|, limit, now)
  {
    var slice := new Message[|pending|](i requires 0 <= i < |pending| => pending[i]);
    assert slice[..] == pending;
    var k;
    out, k := Compact(slice, limit, now);
    kept := slice[..k];
  }

  /** The scan of a dequeue, writing the messages it keeps over the front of the slice it reads. */
  method Compact(a: array<Message>, limit: nat, now: Time) returns (out: seq<Message>, kept: nat)
    modifies a
    ensures kept <= a.Length
    ensures Scan(out, a[..kept]) == ScanTo(old(a[..]), a.Length, limit, now)
  {
    out := [];
    kept := 0;
    for i := 0 to a.Length
      invariant kept <= i
      invariant Scan(out, a[..kept]) == ScanTo(old(a[..]), i, limit, now)
      invariant forall j :: i <= j < a.Length ==> a[j] == old(a[j])
    {
      var msg := a[i];
      if |out| >= limit || msg.scheduledAt > now {
        a[kept] := msg;
        kept := kept + 1;
      } else {
        out := out + [msg];
      }
    }
  }

  lemma AppendSame(a: seq<Message>, b: seq<Message>, m: Message)
    requires SameByKey(a, b)
    ensures SameByKey(a + [m], b + [m])
  {
    forall k ensures ByKey(a + [m], k) == ByKey(b + [m], k) {
      ByKeyLast(a, m, k);
      ByKeyLast(b, m, k);
    }
  }

  /** One scan of the sorted list against the arrivals: what goes out, and that what stays is the
      arrivals without it, up to order among different keys. */
  lemma SweepOutcome(waiting: seq<Message>, limit: nat, now: Time, out: seq<Message>, kept: seq<Message>)
    requires Scan(out, kept) == ScanTo(StableSort(waiting), |StableSort(waiting)|, limit, now)
    ensures out == FirstDue(StableSort(waiting), limit, now)
    ensures CoherentAt(kept, RemoveAll(waiting, out), true)
  {
    var s := StableSort(waiting);
    StableSortSorts(waiting);
    ScanTakesFirstDue(s, |s|, limit, now);
    ScanKeepsOthers(s, |s|, limit, now);
    ScanStaysSorted(s, |s|, limit, now);
    assert s[..|s|] == s;
    RemoveAllSame(s, waiting, out);
  }

  /** What a slice means for the next dequeue: sorted again if dirty, as it is if clean, it is the
      stable sort of the arrivals. */
  lemma SliceSorts(slice: seq<Message>, waiting: seq<Message>, clean: bool)
    requires CoherentAt(slice, waiting, clean)
    ensures StableSort(slice) == StableSort(waiting)
    ensures clean ==> slice == StableSort(waiting)
    ensures slice == [] <==> waiting == []
  {
    SortsAgree(slice, waiting);
    EmptyTogether(slice, waiting);
  }

  /** Cutting the first match out of a slice. */
  lemma CutOut(slice: seq<Message>, waiting: seq<Message>, clean: bool, i: nat)
    requires CoherentAt(slice, waiting, clean) && i < |slice| && slice[i] !in slice[..i]
    ensures CoherentAt(slice[..i] + slice[i + 1..], Remove(waiting, slice[i]), clean)
  {
    RemoveAt(slice, i);
    RemoveSame(slice, waiting, slice[i]);
  }

  lemma {:induction false} SortLength(s: seq<Message>)
    ensures |StableSort(s)| == |s|
  {
    if s != [] {
      SortLength(s[..|s| - 1]);
      InsertLength(StableSort(s[..|s| - 1]), s[|s| - 1]);
    }
  }

  lemma {:induction false} InsertLength(s: seq<Message>, m: Message)
    ensures |InsertLast(s, m)| == |s| + 1
  {
    if s != [] && Less(m, s[|s| - 1]) {
      InsertLength(s[..|s| - 1], m);
    }
  }

  lemma SameLength(a: seq<Message>, b: seq<Message>)
    requires SameByKey(a, b)
    ensures |a| == |b|
  {
    SortsAgree(a, b);
    SortLength(a);
    SortLength(b);
  }

  lemma FlyingGrows(m: Mem, q: string, ids: seq<Id>, i: nat)
    requires i < |ids|
    ensures var gone := Flying(m, q, ids[..i]);
            var more := if ids[i] in InflightOf(m, q) - gone then {ids[i]} else {};
            && Flying(m, q, ids[..i + 1]) == gone + more
            && InflightOf(m, q) - gone - more == InflightOf(m, q) - Flying(m, q, ids[..i + 1])
            && |Flying(m, q, ids[..i + 1])| == |gone| + |more|
  {
    var gone := Flying(m, q, ids[..i]);
    var more := if ids[i] in InflightOf(m, q) - gone then {ids[i]} else {};
    assert ids[..i + 1] == ids[..i] + [ids[i]];
    assert Flying(m, q, ids[..i + 1]) == gone + more && gone !! more;
  }

  lemma {:induction false} ScanIsFair(s: seq<Message>, n: nat, limit: nat, now: Time)
    requires n <= |s| && Sorted(s)
    ensures var r := ScanTo(s, n, limit, now);
            && |r.out| <= limit && Sorted(r.out)
            && (forall x :: x in r.out ==> x in s[..n] && x.scheduledAt <= now)
            && (forall x, m :: x in r.out && m in r.kept && m.scheduledAt <= now ==> !Less(m, x))
  {
    if n > 0 {
      ScanIsFair(s, n - 1, limit, now);
      ScanKeepsOthers(s, n - 1, limit, now);
      OneMoreIsFair(s, n, limit, now);
    }
  }

  /** The next message of the scan is no better than those taken, and nothing due was passed over
      before it is taken. */
  lemma OneMoreIsFair(s: seq<Message>, n: nat, limit: nat, now: Time)
    requires 0 < n <= |s| && Sorted(s)
    requires var r := ScanTo(s, n - 1, limit, now);
             && |r.out| <= limit && Sorted(r.out)
             && (|r.out| < limit ==> forall m :: m in r.kept ==> m.scheduledAt > now)
             && (forall x :: x in r.out ==> x in s[..n - 1] && x.scheduledAt <= now)
             && (forall x, m :: x in r.out && m in r.kept && m.scheduledAt <= now ==> !Less(m, x))
    ensures var r := ScanTo(s, n, limit, now);
            && |r.out| <= limit && Sorted(r.out)
            && (forall x :: x in r.out ==> x in s[..n] && x.scheduledAt <= now)
            && (forall x, m :: x in r.out && m in r.kept && m.scheduledAt <= now ==> !Less(m, x))
  {
    var before := ScanTo(s, n - 1, limit, now);
    forall x | x in before.out ensures !Less(s[n - 1], x) {
      assert x in s[..n - 1];
    }
  }

  /** What a dequeue means to its callers: at most `limit` due messages, the highest priority first and
      the oldest first within a priority; no waiting due message has a higher priority than one that
      went, or the same and an earlier creation; among messages of equal rank the earliest arrivals go;
      and if fewer than `limit` go, nothing due is left. */
  lemma DeliveryIsFair(m: Mem, q: string, limit: nat, now: Time)
    ensures var out, left := NextOut(m, q, limit, now), RemoveAll(ListOf(m, q), NextOut(m, q, limit, now));
            && |out| <= limit
            && (forall i, j :: 0 <= i < j < |out| ==>
                  out[i].priority >= out[j].priority
                  && (out[i].priority == out[j].priority ==> out[i].createdAt <= out[j].createdAt))
            && (forall x :: x in out ==> x in ListOf(m, q) && x.scheduledAt <= now)
            && |out| + |left| == |ListOf(m, q)|
            && (forall x, y :: x in out && y in left && y.scheduledAt <= now ==>
                  x.priority >= y.priority && (x.priority == y.priority ==> x.createdAt <= y.createdAt))
            && (forall k :: ByKey(left, k) == RemoveAll(ByKey(ListOf(m, q), k), ByKey(out, k)))
            && (|out| < limit ==> forall y :: y in left ==> y.scheduledAt > now)
  {
    FairByRank(m, q, limit, now);
    var out, left := NextOut(m, q, limit, now), RemoveAll(ListOf(m, q), NextOut(m, q, limit, now));
    hide NextOut, RemoveAll, ByKey, ListOf;
    forall i, j | 0 <= i < j < |out|
      ensures out[i].priority >= out[j].priority && (out[i].priority == out[j].priority ==> out[i].createdAt <= out[j].createdAt)
    {
      assert !Less(out[j], out[i]);
    }
    forall x, y | x in out && y in left && y.scheduledAt <= now
      ensures x.priority >= y.priority && (x.priority == y.priority ==> x.createdAt <= y.createdAt)
    {
      assert !Less(y, x);
    }
  }

  /** The same, with the sort's own comparison. */
  lemma FairByRank(m: Mem, q: string, limit: nat, now: Time)
    ensures var out, left := NextOut(m, q, limit, now), RemoveAll(ListOf(m, q), NextOut(m, q, limit, now));
            && |out| <= limit && Sorted(out)
            && (forall x :: x in out ==> x in ListOf(m, q) && x.scheduledAt <= now)
            && |out| + |left| == |ListOf(m, q)|
            && (forall x, y :: x in out && y in left && y.scheduledAt <= now ==> !Less(y, x))
            && (forall k :: ByKey(left, k) == RemoveAll(ByKey(ListOf(m, q), k), ByKey(out, k)))
            && (|out| < limit ==> forall y :: y in left ==> y.scheduledAt > now)
  {
    var waiting := ListOf(m, q);
    var s := StableSort(waiting);
    StableSortSorts(waiting);
    SortLength(waiting);
    ScanTakesFirstDue(s, |s|, limit, now);
    ScanIsFair(s, |s|, limit, now);
    ScanKeepsOthers(s, |s|, limit, now);
    assert s[..|s|] == s;
    var r := ScanTo(s, |s|, limit, now);
    RemoveAllSame(s, waiting, r.out);
    SameMembers(s, waiting);
    SameMembers(r.kept, RemoveAll(waiting, r.out));
    SameLength(r.kept, RemoveAll(waiting, r.out));
    forall k ensures ByKey(RemoveAll(waiting, r.out), k) == RemoveAll(ByKey(waiting, k), ByKey(r.out, k)) {
      RemoveAllByKey(waiting, r.out, k);
    }
  }

  lemma {:induction false} RemoveAllByKey(s: seq<Message>, ms: seq<Message>, k: Key)
    ensures ByKey(RemoveAll(s, ms), k) == RemoveAll(ByKey(s, k), ByKey(ms, k))
  {
    if ms != [] {
      RemoveAllByKey(s, ms[..|ms| - 1], k);
      RemoveByKey(RemoveAll(s, ms[..|ms| - 1]), ms[|ms| - 1], k);
      if KeyOf(ms[|ms| - 1]) == k {
        assert ByKey(ms, k)[..|ByKey(ms, k)| - 1] == ByKey(ms[..|ms| - 1], k);
      }
    }
  }
}
