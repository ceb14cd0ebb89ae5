/** Who has a claimed row: at most one delivery, or else the acknowledgements that wait for it, or
    nobody. */
module DeliveryClaims {
  import opened Naming
  import opened Messages
  import opened SqlMachine
  import opened Delivery
  import A = AckBuffer
  import opened AtLeastOnce

  /** An acknowledgement of this row waits in the buffer or in a flush. */
  ghost predicate Waits(a: A.Acks, q: string, id: Id) {
    InBuffer(a, q, id) || InFlush(a, q, id)
  }

  ghost predicate InBuffer(a: A.Acks, q: string, id: Id) {
    id in A.IdsOf(a.pending, q)
  }

  ghost predicate InFlush(a: A.Acks, q: string, id: Id) {
    exists i :: 0 <= i < |a.flushing| && a.flushing[i].queue == q && id in a.flushing[i].ids
  }

  ghost predicate Sole(s: Sys) {
    forall v, w :: v in s.workers && w in s.workers && s.workers[v].msg.id == s.workers[w].msg.id ==> v == w
  }

  ghost predicate AllClaimed(s: Sys) {
    forall w :: w in s.workers ==> Is(s.db.rows, s.workers[w].msg.id, s.workers[w].queue, Processing)
  }

  /** The row is still claimed if it is still there, and no delivery has it. */
  ghost predicate Waiting(s: Sys, q: string, id: Id) {
    && (id in s.db.rows ==> Is(s.db.rows, id, q, Processing))
    && (forall w :: w in s.workers ==> s.workers[w].msg.id != id)
  }

  ghost predicate AllWaiting(s: Sys) {
    forall q, id :: Waits(s.acks, q, id) ==> Waiting(s, q, id)
  }

  ghost predicate ClaimInv(s: Sys) {
    Sole(s) && AllClaimed(s) && AllWaiting(s)
  }

  /** A reclaim takes no row from a delivery or from an acknowledgement that waits. */
  ghost predicate Undisturbed(s: Sys, q: string) {
    && (forall w :: w in s.workers ==> s.workers[w].queue != q)
    && (forall id :: id in s.db.rows && Waits(s.acks, q, id) ==> !Is(s.db.rows, id, q, Processing))
  }

  ghost predicate Orderly(s: Sys, e: Event) {
    e.ReclaimQueue? ==> Undisturbed(s, e.q)
  }

  ghost predicate IsOrderlyRun(indexed: bool, trace: seq<Sys>, events: seq<Event>) {
    Delivery.IsRun(indexed, trace, events) && forall i :: 0 <= i < |events| ==> Orderly(trace[i], events[i])
  }

  // ----- what waits -----

  lemma PassAdds(a: A.Acks, q: string, id: Id, p: string, x: Id)
    ensures Waits(A.Step(a, A.Pass(q, id)), p, x) <==> Waits(a, p, x) || (p == q && x == id)
  {
  }

  /** Taking a batch and putting it back moves acknowledgements between buffer and flushes. */
  lemma MovesKeepWaiting(a: A.Acks, e: A.Event, q: string, id: Id)
    requires A.Enabled(a, e) && (e.Take? || e.Fail?)
    ensures Waits(A.Step(a, e), q, id) <==> Waits(a, q, id)
  {
    var a' := A.Step(a, e);
    if e.Take? {
      TakeMoves(a, e.q, q, id);
    } else {
      WithoutFlush(a, e.i, q, id);
      assert a'.flushing == A.Without(a.flushing, e.i);
      assert InBuffer(a', q, id) <==> InBuffer(a, q, id) || (a.flushing[e.i].queue == q && id in a.flushing[e.i].ids);
    }
  }

  lemma TakeMoves(a: A.Acks, e: string, q: string, id: Id)
    requires A.Enabled(a, A.Take(e))
    ensures Waits(A.Step(a, A.Take(e)), q, id) <==> Waits(a, q, id)
  {
    var a' := A.Step(a, A.Take(e));
    assert a'.flushing[|a.flushing|] == A.Batch(e, a.pending[e]);
    forall i | 0 <= i < |a.flushing| ensures a'.flushing[i] == a.flushing[i] {
    }
    if InFlush(a, q, id) {
      var i :| 0 <= i < |a.flushing| && a.flushing[i].queue == q && id in a.flushing[i].ids;
      assert a'.flushing[i].queue == q && id in a'.flushing[i].ids;
    }
    if InFlush(a', q, id) && !InFlush(a, q, id) {
      var i :| 0 <= i < |a'.flushing| && a'.flushing[i].queue == q && id in a'.flushing[i].ids;
      assert i == |a.flushing|;
    }
  }

  /** A flush that ends takes along just its own acknowledgements. */
  lemma WithoutFlush(a: A.Acks, i: nat, q: string, id: Id)
    requires i < |a.flushing|
    ensures var a' := a.(flushing := A.Without(a.flushing, i));
            InFlush(a, q, id) <==> InFlush(a', q, id) || (a.flushing[i].queue == q && id in a.flushing[i].ids)
  {
    var a' := a.(flushing := A.Without(a.flushing, i));
    forall j | 0 <= j < |a.flushing| && j != i
      ensures a.flushing[j] == a'.flushing[if j < i then j else j - 1]
    {
    }
    if InFlush(a', q, id) {
      var j :| 0 <= j < |a'.flushing| && a'.flushing[j].queue == q && id in a'.flushing[j].ids;
      var k := if j < i then j else j + 1;
      assert a.flushing[k] == a'.flushing[j];
    }
  }

  // ----- each step -----

  /** Rows of the deliveries left are as they were, and so are those that wait. */
  lemma ClaimsStay(s: Sys, s': Sys)
    requires ClaimInv(s)
    requires forall w :: w in s'.workers ==> w in s.workers && s'.workers[w].msg == s.workers[w].msg && s'.workers[w].queue == s.workers[w].queue
    requires forall q, id :: Waits(s'.acks, q, id) ==> Waits(s.acks, q, id)
    requires forall w :: w in s'.workers ==> SameRow(s, s', s'.workers[w].msg.id) && s'.workers[w].msg.id in s'.db.rows
    requires forall q, id :: Waits(s'.acks, q, id) && id in s'.db.rows ==> SameRow(s, s', id)
    ensures ClaimInv(s')
  {
    hide Waits;
    forall q, id | Waits(s'.acks, q, id) ensures Waiting(s', q, id) {
      assert Waiting(s, q, id);
    }
  }

  /** The row is in the queue and the status it was in. */
  ghost predicate SameRow(s: Sys, s': Sys, id: Id) {
    id in s'.db.rows ==>
      id in s.db.rows && s'.db.rows[id].msg.queue == s.db.rows[id].msg.queue && s'.db.rows[id].status == s.db.rows[id].status
  }

  lemma AcksKnown(s: Sys, q: string, id: Id)
    requires Inv(s) && Waits(s.acks, q, id)
    ensures s.lineage.Knows(id)
  {
    hide TableOk, WorkersOk;
  }

  lemma AcceptClaims(indexed: bool, s: Sys, e: Event)
    requires e.Accept? && Inv(s) && ClaimInv(s) && Enabled(s, e)
    ensures ClaimInv(Step(indexed, s, e))
  {
    hide Inv, ClaimInv, ValidQueueName, KeyTaken, IsDlq, Waits;
    var s' := Step(indexed, s, e);
    if s' != s {
      RowsKnown(s);
      ClaimsOf(s);
      forall q, id | Waits(s'.acks, q, id) ensures SameRow(s, s', id) {
        AcksKnown(s, q, id);
      }
      ClaimsStay(s, s');
    }
  }

  lemma ClaimsOf(s: Sys)
    requires ClaimInv(s)
    ensures Sole(s) && AllClaimed(s) && AllWaiting(s)
  {
  }

  lemma FetchClaims(indexed: bool, s: Sys, e: Event)
    requires e.Fetch? && Inv(s) && ClaimInv(s) && Enabled(s, e)
    ensures ClaimInv(Step(indexed, s, e))
  {
    RowsKnown(s);
    hide Inv, Waits;
    var s' := Step(indexed, s, e);
    assert s'.db.rows == s.db.rows[e.id := s.db.rows[e.id].(status := Processing)];
    forall q, id | Waits(s'.acks, q, id) ensures Waiting(s', q, id) {
      assert Waiting(s, q, id);
    }
  }

  lemma AckLaterClaims(indexed: bool, s: Sys, e: Event)
    requires e.AckLater? && ClaimInv(s) && Enabled(s, e)
    ensures ClaimInv(Step(indexed, s, e))
  {
    var s', w := Step(indexed, s, e), s.workers[e.w];
    hide A.Step, Waits;
    forall q, id | Waits(s'.acks, q, id) ensures Waiting(s', q, id) {
      PassAdds(s.acks, w.queue, w.msg.id, q, id);
    }
  }

  /** Invoking, acknowledging directly, and moving acknowledgements about. */
  lemma QuietClaims(indexed: bool, s: Sys, e: Event)
    requires e.Invoke? || e.AckNow? || e.TakeAcks? || e.FlushFailed? || e.Crash?
    requires ClaimInv(s) && Enabled(s, e)
    ensures ClaimInv(Step(indexed, s, e))
  {
    hide A.Step;
    var s' := Step(indexed, s, e);
    forall q, id | Waits(s'.acks, q, id) ensures Waits(s.acks, q, id) {
      if e.TakeAcks? {
        MovesKeepWaiting(s.acks, A.Take(e.q), q, id);
      } else if e.FlushFailed? {
        MovesKeepWaiting(s.acks, A.Fail(e.i), q, id);
      }
    }
    hide Waits;
    ClaimsStay(s, s');
  }

  lemma FlushOkClaims(indexed: bool, s: Sys, e: Event)
    requires e.FlushOk? && ClaimInv(s) && Enabled(s, e)
    ensures ClaimInv(Step(indexed, s, e))
  {
    var s', b := Step(indexed, s, e), s.acks.flushing[e.i];
    forall q, id | Waits(s'.acks, q, id) ensures Waits(s.acks, q, id) {
      WithoutFlush(s.acks, e.i, q, id);
    }
    forall id | id in b.ids ensures Waiting(s, b.queue, id) {
      assert Waits(s.acks, b.queue, id);
    }
    hide Waits, A.Step;
    ClaimsStay(s, s');
  }

  /** A worker ends; its row, and a row with a fresh id, are all that may change. */
  lemma EndClaims(s: Sys, s': Sys, w: nat, newId: Id)
    requires Inv(s) && ClaimInv(s) && w in s.workers && s.lineage.Fresh(newId)
    requires s'.workers == s.workers - {w} && s'.acks == s.acks
    requires forall id :: id in s.db.rows && id != s.workers[w].msg.id ==> id in s'.db.rows && s'.db.rows[id] == s.db.rows[id]
    requires forall id :: id in s'.db.rows ==> id in s.db.rows || id == newId
    ensures ClaimInv(s')
  {
    RowsKnown(s);
    hide Waits;
    forall q, id | Waits(s.acks, q, id) ensures id != newId && id != s.workers[w].msg.id {
      AcksKnown(s, q, id);
      assert Waiting(s, q, id);
    }
    hide Inv;
    ClaimsStay(s, s');
  }

  lemma BuryRows(indexed: bool, s: Sys, w: Worker, msg: Message, newId: Id, now: Time)
    ensures var t := Bury(indexed, s, w, msg, newId, now);
            && t.workers == s.workers && t.acks == s.acks
            && (forall id :: id in s.db.rows ==> id in t.db.rows)
            && (forall id :: id in t.db.rows ==> id in s.db.rows || id == newId)
            && (forall id :: id in s.db.rows && id != msg.id ==> t.db.rows[id] == s.db.rows[id])
  {
    hide IsDlq, Dlq, KeyTaken;
  }

  lemma RetryRows(indexed: bool, db: Db, q: string, msg: Message, now: Time)
    ensures var rows := Retry(indexed, db, q, msg, now).db.rows;
            && (forall id :: id in db.rows && id != msg.id ==> id in rows && rows[id] == db.rows[id])
            && (forall id :: id in rows ==> id in db.rows)
  {
    hide IsDlq, KeyTaken;
  }

  lemma FailureClaims(indexed: bool, s: Sys, e: Event)
    requires (e.GiveUp? || e.Resolve?) && Inv(s) && ClaimInv(s) && Enabled(s, e)
    ensures ClaimInv(Step(indexed, s, e))
  {
    hide Inv, ClaimInv, DeadLetter, Retry, Bury;
    var w := s.workers[e.w];
    var msg := w.msg.(attempts := if e.Resolve? then w.msg.attempts + 1 else w.msg.attempts);
    BuryRows(indexed, s, w, msg, e.newId, e.now);
    if e.Resolve? {
      RetryRows(indexed, s.db, w.queue, msg.(scheduledAt := e.due), e.now);
    }
    EndClaims(s, Step(indexed, s, e), e.w, e.newId);
  }

  lemma ReplayClaims(indexed: bool, s: Sys, e: Event)
    requires e.ReplayDead? && Inv(s) && ClaimInv(s) && Enabled(s, e)
    ensures ClaimInv(Step(indexed, s, e))
  {
    RowsKnown(s);
    ReplayRows(indexed, s.db, e.q, e.id, e.now);
    hide Inv, Replay, Waits;
    var s' := Step(indexed, s, e);
    forall q, id | Waits(s'.acks, q, id) ensures Waiting(s', q, id) {
      assert Waiting(s, q, id);
    }
  }

  lemma ReplayRows(indexed: bool, db: Db, q: string, id: Id, now: Time)
    requires forall x :: x in db.rows ==> db.rows[x].msg.id == x
    ensures var rows := Replay(indexed, db, q, id, now).db.rows;
            && rows.Keys == db.rows.Keys
            && (forall x :: x in db.rows && rows[x] != db.rows[x] ==> x == id && Is(db.rows, id, Dlq(q), Dead))
  {
    hide IsDlq, Dlq, KeyTaken;
  }

  lemma ReclaimClaims(indexed: bool, s: Sys, e: Event)
    requires e.ReclaimQueue? && ClaimInv(s) && Undisturbed(s, e.q)
    ensures ClaimInv(Step(indexed, s, e))
  {
    hide Waits;
    var s' := Step(indexed, s, e);
    forall q, id | Waits(s'.acks, q, id) ensures Waiting(s', q, id) {
      assert Waiting(s, q, id);
    }
  }

  lemma StepKeepsClaims(indexed: bool, s: Sys, e: Event)
    requires Orderly(s, e) && Inv(s) && ClaimInv(s) && Enabled(s, e)
    ensures ClaimInv(Step(indexed, s, e))
  {
    hide Inv, ClaimInv, Step, Enabled, Undisturbed;
    match e
    case Accept(_, _, _) => AcceptClaims(indexed, s, e);
    case Fetch(_, _, _, _) => FetchClaims(indexed, s, e);
    case Invoke(_, _, _) => QuietClaims(indexed, s, e);
    case AckNow(_, _) => QuietClaims(indexed, s, e);
    case AckLater(_) => AckLaterClaims(indexed, s, e);
    case TakeAcks(_) => QuietClaims(indexed, s, e);
    case FlushOk(_) => FlushOkClaims(indexed, s, e);
    case FlushFailed(_) => QuietClaims(indexed, s, e);
    case GiveUp(_, _, _, _, _) => FailureClaims(indexed, s, e);
    case Resolve(_, _, _, _, _, _) => FailureClaims(indexed, s, e);
    case ReplayDead(_, _, _) => ReplayClaims(indexed, s, e);
    case ReclaimQueue(_) => ReclaimClaims(indexed, s, e);
    case Crash => QuietClaims(indexed, s, e);
  }

  /** At every moment of a run without disturbing reclaims, every delivery has its row claimed and to
      itself, and no acknowledgement waits for a row that a delivery has or that is up for delivery. */
  lemma {:induction false} RunsKeepClaims(indexed: bool, trace: seq<Sys>, events: seq<Event>, i: nat)
    requires IsOrderlyRun(indexed, trace, events) && i < |trace|
    ensures Inv(trace[i]) && ClaimInv(trace[i])
  {
    RunsKeep(indexed, trace, events, i);
    if i > 0 {
      hide Inv, ClaimInv, Step, Enabled, Orderly;
      RunsKeepClaims(indexed, trace, events, i - 1);
      StepKeepsClaims(indexed, trace[i - 1], events[i - 1]);
    }
  }
}
