/** The broker's acknowledgement buffer: ids wait in a per-queue slice, a flush takes the whole
    slice, hands it to AckBatch, and puts it back in front if that call fails. Any number of
    flushes (size-triggered, from the ticker, from a drain) may be under way at once. */
module AckBuffer {
  import opened Messages
  import M = SqlMachine

  /** One flush between its take and the outcome of its AckBatch call. */
  datatype Batch = Batch(queue: string, ids: seq<Id>)

  /** The buffer, the flushes under way, and since the process started: the ids passed to `ack`
      and the ids handed to a successful AckBatch. */
  datatype Acks = Acks(
    pending: map<string, seq<Id>>,
    flushing: seq<Batch>,
    passed: map<string, multiset<Id>>,
    handed: map<string, multiset<Id>>)

  const NO_ACKS := Acks(map[], [], map[], map[])

  function IdsOf(pending: map<string, seq<Id>>, q: string): seq<Id> {
    if q in pending then pending[q] else []
  }

  function BagOf(log: map<string, multiset<Id>>, q: string): multiset<Id> {
    if q in log then log[q] else multiset{}
  }

  /** How often `id` occurs in the flushes of queue `q` under way. */
  function Taken(flushing: seq<Batch>, q: string, id: Id): nat {
    if flushing == [] then 0 else CountIn(flushing[0], q, id) + Taken(flushing[1..], q, id)
  }

  function CountIn(b: Batch, q: string, id: Id): nat {
    if b.queue == q then multiset(b.ids)[id] else 0
  }

  datatype Event = Pass(q: string, id: Id) | Take(q: string) | Succeed(i: nat) | Fail(i: nat)

  predicate Enabled(a: Acks, event: Event) {
    match event
    case Pass(_, _) => true
    case Take(q) => IdsOf(a.pending, q) != []
    case Succeed(i) => i < |a.flushing|
    case Fail(i) => i < |a.flushing|
  }

  function Without(flushing: seq<Batch>, i: nat): seq<Batch>
    requires i < |flushing|
  {
    flushing[..i] + flushing[i + 1..]
  }

  function Step(a: Acks, event: Event): Acks
    requires Enabled(a, event)
  {
    match event
    case Pass(q, id) =>
      a.(pending := a.pending[q := IdsOf(a.pending, q) + [id]],
         passed := a.passed[q := BagOf(a.passed, q) + multiset{id}])
    case Take(q) =>
      a.(pending := a.pending - {q}, flushing := a.flushing + [Batch(q, a.pending[q])])
    case Succeed(i) =>
      var b := a.flushing[i];
      a.(flushing := Without(a.flushing, i),
         handed := a.handed[b.queue := BagOf(a.handed, b.queue) + multiset(b.ids)])
    case Fail(i) =>
      var b := a.flushing[i];
      a.(flushing := Without(a.flushing, i),
         pending := a.pending[b.queue := b.ids + IdsOf(a.pending, b.queue)])
  }

  /** Every id passed to `ack` is buffered, being flushed, or was handed to a successful AckBatch,
      each as often as it was passed. */
  ghost predicate Accounted(a: Acks) {
    forall q, id :: AccountedAt(a, q, id)
  }

  ghost predicate AccountedAt(a: Acks, q: string, id: Id) {
    BagOf(a.passed, q)[id] == multiset(IdsOf(a.pending, q))[id] + Taken(a.flushing, q, id) + BagOf(a.handed, q)[id]
  }

  ghost predicate IsRun(trace: seq<Acks>, events: seq<Event>) {
    && |trace| == |events| + 1
    && trace[0] == NO_ACKS
    && forall i :: 0 <= i < |events| ==> Enabled(trace[i], events[i]) && trace[i + 1] == Step(trace[i], events[i])
  }

  lemma {:induction false} TakenAppend(flushing: seq<Batch>, b: Batch, q: string, id: Id)
    ensures Taken(flushing + [b], q, id) == Taken(flushing, q, id) + CountIn(b, q, id)
  {
    hide CountIn;
    if flushing == [] {
      assert flushing + [b] == [b];
    } else {
      TakenAppend(flushing[1..], b, q, id);
      assert (flushing + [b])[1..] == flushing[1..] + [b];
    }
  }

  lemma {:induction false} TakenWithout(flushing: seq<Batch>, i: nat, q: string, id: Id)
    requires i < |flushing|
    ensures Taken(flushing, q, id) == Taken(Without(flushing, i), q, id) + CountIn(flushing[i], q, id)
  {
    hide CountIn;
    if i == 0 {
      assert Without(flushing, 0) == flushing[1..];
    } else {
      TakenWithout(flushing[1..], i - 1, q, id);
      assert Without(flushing, i)[1..] == Without(flushing[1..], i - 1);
    }
  }

  lemma PassAccounts(a: Acks, p: string, x: Id, q: string, id: Id)
    requires AccountedAt(a, q, id)
    ensures AccountedAt(Step(a, Pass(p, x)), q, id)
  {
    hide Taken;
    assert multiset(IdsOf(a.pending, p) + [x]) == multiset(IdsOf(a.pending, p)) + multiset{x};
  }

  lemma FailAccounts(a: Acks, i: nat, q: string, id: Id)
    requires AccountedAt(a, q, id) && i < |a.flushing|
    ensures AccountedAt(Step(a, Fail(i)), q, id)
  {
    hide Taken, Without;
    TakenWithout(a.flushing, i, q, id);
    var b := a.flushing[i];
    var pending' := Step(a, Fail(i)).pending;
    if b.queue == q {
      assert pending'[q] == b.ids + IdsOf(a.pending, q);
      assert multiset(pending'[q])[id] == multiset(b.ids)[id] + multiset(IdsOf(a.pending, q))[id];
    } else {
      assert IdsOf(pending', q) == IdsOf(a.pending, q);
    }
  }

  lemma StepAccountsAt(a: Acks, event: Event, q: string, id: Id)
    requires AccountedAt(a, q, id) && Enabled(a, event)
    ensures AccountedAt(Step(a, event), q, id)
  {
    match event
    case Pass(p, x) => PassAccounts(a, p, x, q, id);
    case Take(p) =>
      TakenAppend(a.flushing, Batch(p, a.pending[p]), q, id);
      hide Taken;
    case Succeed(i) =>
      TakenWithout(a.flushing, i, q, id);
      hide Taken, Without;
    case Fail(i) => FailAccounts(a, i, q, id);
  }

  lemma StepAccounts(a: Acks, event: Event)
    requires Accounted(a) && Enabled(a, event)
    ensures Accounted(Step(a, event))
  {
    hide AccountedAt, Step;
    forall q, id ensures AccountedAt(Step(a, event), q, id) {
      StepAccountsAt(a, event, q, id);
    }
  }

  /** Batching loses and duplicates no acknowledgement, over every interleaving of acks, takes,
      successful flushes and failed flushes. */
  lemma {:induction false} RunsAccount(trace: seq<Acks>, events: seq<Event>, i: nat)
    requires IsRun(trace, events) && i < |trace|
    ensures Accounted(trace[i])
  {
    if i > 0 {
      hide Step, Accounted;
      RunsAccount(trace, events, i - 1);
      StepAccounts(trace[i - 1], events[i - 1]);
    }
  }

  /** The processed counter grows by exactly the number of rows a batch removes; the batch removes
      the claimed rows it names, each once however often it is named, and nothing else. */
  lemma BatchCountsRemovedRows(db: M.Db, q: string, ids: seq<Id>)
    ensures var db' := M.AckBatch(db, q, ids);
            && M.StatsOf(db', q).processed - M.StatsOf(db, q).processed == |db.rows| - |db'.rows|
            && (forall id :: id in db.rows && id !in db'.rows <==> id in ids && M.Is(db.rows, id, q, M.Processing))
            && (forall id :: id in db'.rows ==> id in db.rows && db'.rows[id] == db.rows[id])
            && (forall p :: p != q ==> M.StatsOf(db', p) == M.StatsOf(db, p))
  {
    var gone := M.Ackable(db, q, ids);
    assert forall id :: id in gone <==> id in ids && M.Is(db.rows, id, q, M.Processing);
    hide M.Ackable, M.Is;
    assert (db.rows - gone).Keys == db.rows.Keys - gone;
    assert |db.rows| == |db.rows.Keys| && |db.rows - gone| == |(db.rows - gone).Keys|;
  }
}
