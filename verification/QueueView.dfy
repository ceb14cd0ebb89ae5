/** What one queue's dispatcher sees of the broker behind it. Each message of the queue is at one of
    the dispatcher's places, and every step of the broker moves it as one step of the dispatcher's
    machine does, so that machine's messages are those of the store. */
module QueueView {
  import opened Naming
  import opened Messages
  import opened SqlMachine
  import opened Delivery
  import A = AckBuffer
  import opened AtLeastOnce
  import opened DeliveryClaims
  import D = Dispatcher

  ghost predicate Held(s: Sys, id: Id) {
    exists w :: w in s.workers && s.workers[w].msg.id == id
  }

  ghost function RowPlace(s: Sys, id: Id): D.Place
    requires id in s.db.rows
  {
    match s.db.rows[id].status
    case Pending => D.Pending
    case Dead => D.Dead
    case Processing =>
      if Held(s, id) then D.Claimed
      else if Waits(s.acks, s.db.rows[id].msg.queue, id) then D.Buffered
      else D.Stuck
  }

  /** The place of an accepted message is that of the row that carries it. */
  ghost function PlaceOf(s: Sys, l: Id): D.Place {
    if HasCarrier(s.lineage, s.db.rows, l)
    then
      var id :| Carries(s.lineage, s.db.rows, l, id);
      RowPlace(s, id)
    else D.Acked
  }

  ghost function View(s: Sys, q: string): map<Id, D.Place> {
    map l | l in s.lineage.accepted && s.lineage.accepted[l].queue == q :: PlaceOf(s, l)
  }

  // ----- steps as the dispatcher's machine has them -----

  datatype Seen =
    | Nothing
    | ByCall(call: D.Call)
    | ByFetch(m: Id)
    | ByOutcome(m: Id, outcome: D.Outcome)

  /** What an event of the broker is for the dispatcher of queue q. */
  ghost function SeenOf(indexed: bool, s: Sys, e: Event, q: string): Seen
    requires Enabled(s, e)
  {
    match e
    case Accept(p, msg, now) =>
      if p == q && Enqueue(indexed, s.db, p, msg, now).outcome == Done then ByCall(D.Arrive(msg.id)) else Nothing
    case Fetch(p, id, _, _) => if p == q then ByFetch(Origin(s, id)) else Nothing
    case AckNow(w, up) => OutcomeFor(s, w, q, if up then D.AckStored else D.Failed)
    case AckLater(w) => OutcomeFor(s, w, q, D.AckBuffered)
    case FlushOk(i) =>
      var b := s.acks.flushing[i];
      if b.queue == q then ByCall(D.AcksLand(set id | id in b.ids && id in s.db.rows :: Origin(s, id))) else Nothing
    case GiveUp(w, _, newId, now, up) =>
      OutcomeFor(s, w, q, if up && Buries(indexed, s, s.workers[w], 0, newId, now) then D.DeadLettered else D.Failed)
    case Resolve(w, n, due, newId, now, up) =>
      var worker := s.workers[w];
      OutcomeFor(s, w, q,
                 if !up then D.Failed
                 else if worker.msg.attempts + 1 > n then
                   if Buries(indexed, s, worker, 1, newId, now) then D.DeadLettered else D.Failed
                 else if Retry(indexed, s.db, worker.queue,
                               worker.msg.(attempts := worker.msg.attempts + 1, scheduledAt := due), now).outcome == Done
                 then D.RetryStored else D.Failed)
    case ReplayDead(p, id, now) =>
      if p == q && Replay(indexed, s.db, p, id, now).outcome == Done then ByCall(D.Replay(Origin(s, id))) else Nothing
    case _ => Nothing
  }

  ghost predicate Buries(indexed: bool, s: Sys, w: Worker, more: nat, newId: Id, now: Time) {
    DeadLetter(indexed, s.db, w.queue, w.msg.(attempts := w.msg.attempts + more), Some("failed"), newId, now).outcome == Done
  }

  ghost function OutcomeFor(s: Sys, w: nat, q: string, outcome: D.Outcome): Seen
    requires w in s.workers
  {
    if s.workers[w].queue == q then ByOutcome(Origin(s, s.workers[w].msg.id), outcome) else Nothing
  }

  ghost function Msgs(place: map<Id, D.Place>): D.Msgs {
    D.Msgs(place, {})
  }

  /** The dispatcher's machine allows the step where its messages are at these places. */
  ghost predicate Allowed(place: map<Id, D.Place>, seen: Seen) {
    var s := D.INITIAL.(msgs := Msgs(place));
    match seen
    case Nothing => true
    case ByCall(c) => D.CallEnabled(s, c)
    case ByFetch(m) => D.PlacedAt(s, {m}, D.Pending)
    case ByOutcome(m, _) => D.PlacedAt(s, {m}, D.Claimed)
  }

  /** ... and this is where it puts them. */
  ghost function Moved(place: map<Id, D.Place>, seen: Seen): map<Id, D.Place> {
    match seen
    case Nothing => place
    case ByCall(c) => D.MsgsAfter(Msgs(place), c).place
    case ByFetch(m) => D.MoveMsgs(Msgs(place), D.Fetch([m])).place
    case ByOutcome(m, outcome) => D.WorkMsgs(Msgs(place), m, D.Resolve(outcome)).place
  }

  // ----- places -----

  lemma PlaceIs(s: Sys, l: Id, id: Id)
    requires OneCarrier(s.lineage, s.db.rows) && Carries(s.lineage, s.db.rows, l, id)
    ensures PlaceOf(s, l) == RowPlace(s, id)
  {
    hide RowPlace, Carries;
    assert HasCarrier(s.lineage, s.db.rows, l);
  }

  lemma NoPlace(s: Sys, l: Id)
    requires forall id :: !Carries(s.lineage, s.db.rows, l, id)
    ensures PlaceOf(s, l) == D.Acked
  {
  }

  lemma OnlyCarrier(s: Sys, l: Id, id: Id)
    requires Inv(s) && Carries(s.lineage, s.db.rows, l, id)
    ensures OneCarrier(s.lineage, s.db.rows)
    ensures forall x :: Carries(s.lineage, s.db.rows, l, x) ==> x == id
  {
    hide Carries, WorkersOk, AcksOk;
  }

  lemma CarriersStaySingle(indexed: bool, s: Sys, e: Event)
    requires Inv(s) && Enabled(s, e)
    ensures var s' := Step(indexed, s, e); OneCarrier(s.lineage, s.db.rows) && OneCarrier(s'.lineage, s'.db.rows)
  {
    hide Step, Enabled;
    StepKeeps(indexed, s, e);
  }

  /** The row of a carried message stays, and so does all that gives it its place. */
  ghost predicate SamePlace(s: Sys, s': Sys, l: Id, id: Id) {
    && Carries(s.lineage, s.db.rows, l, id) && Carries(s'.lineage, s'.db.rows, l, id)
    && RowPlace(s', id) == RowPlace(s, id)
  }

  lemma Unmoved(s: Sys, s': Sys, l: Id)
    requires OneCarrier(s.lineage, s.db.rows) && OneCarrier(s'.lineage, s'.db.rows)
    requires forall id :: Carries(s.lineage, s.db.rows, l, id) ==> SamePlace(s, s', l, id)
    requires forall id :: Carries(s'.lineage, s'.db.rows, l, id) ==> Carries(s.lineage, s.db.rows, l, id)
    ensures PlaceOf(s', l) == PlaceOf(s, l)
  {
    hide RowPlace, Carries;
    if HasCarrier(s.lineage, s.db.rows, l) {
      var id :| Carries(s.lineage, s.db.rows, l, id);
      assert SamePlace(s, s', l, id);
      PlaceIs(s, l, id);
      PlaceIs(s', l, id);
    }
  }

  /** Message l goes from one place to another and all others stay. */
  ghost predicate Goes(s: Sys, s': Sys, l: Id, from: D.Place, to: D.Place) {
    && PlaceOf(s, l) == from && PlaceOf(s', l) == to
    && s'.lineage.accepted == s.lineage.accepted && l in s.lineage.accepted
    && forall x :: x != l ==> PlaceOf(s', x) == PlaceOf(s, x)
  }

  /** What the dispatcher of the message's queue sees of that, and what the others see. */
  lemma GoesInView(s: Sys, s': Sys, l: Id, from: D.Place, to: D.Place, q: string)
    requires Goes(s, s', l, from, to)
    ensures if s.lineage.accepted[l].queue == q
            then l in View(s, q) && View(s, q)[l] == from && View(s', q) == D.Put(Msgs(View(s, q)), {l}, to).place
            else View(s', q) == View(s, q)
  {
    hide PlaceOf;
  }

  // ----- deliveries that end -----

  /** The row of a worker is claimed for it. */
  lemma WorkerPlace(s: Sys, w: nat)
    requires Inv(s) && ClaimInv(s) && w in s.workers
    ensures var id, l := s.workers[w].msg.id, Origin(s, s.workers[w].msg.id);
            && Carries(s.lineage, s.db.rows, l, id) && PlaceOf(s, l) == D.Claimed
            && l in s.lineage.accepted && s.lineage.accepted[l].queue == s.workers[w].queue
            && (forall q :: !Waits(s.acks, q, id))
            && (forall v :: v in s.workers && v != w ==> s.workers[v].msg.id != id)
  {
    var id, l := s.workers[w].msg.id, Origin(s, s.workers[w].msg.id);
    WorkersKnown(s);
    assert Is(s.db.rows, id, s.workers[w].queue, Processing);
    assert Held(s, id);
    forall q ensures !Waits(s.acks, q, id) {
      assert Waits(s.acks, q, id) ==> Waiting(s, q, id);
    }
    hide AllFaithful, NoneLost, WorkersOk, AcksOk, AllClaimed, AllWaiting, Waits;
    PlaceIs(s, l, id);
  }

  /** Another message than the worker's stays where it is. */
  lemma OtherStays(s: Sys, s': Sys, w: nat, x: Id)
    requires OneCarrier(s.lineage, s.db.rows) && OneCarrier(s'.lineage, s'.db.rows)
    requires w in s.workers && s'.workers == s.workers - {w} && x != Origin(s, s.workers[w].msg.id)
    requires forall id :: Carries(s'.lineage, s'.db.rows, x, id) <==> Carries(s.lineage, s.db.rows, x, id)
    requires forall id :: id in s.db.rows && id != s.workers[w].msg.id ==> id in s'.db.rows && s'.db.rows[id] == s.db.rows[id]
    requires forall q, id :: id != s.workers[w].msg.id ==> (Waits(s'.acks, q, id) <==> Waits(s.acks, q, id))
    ensures PlaceOf(s', x) == PlaceOf(s, x)
  {
    hide Waits;
    forall id | Carries(s.lineage, s.db.rows, x, id) ensures SamePlace(s, s', x, id) {
      assert id != s.workers[w].msg.id;
      assert Held(s, id) ==> Held(s', id) by {
        if Held(s, id) {
          var v :| v in s.workers && s.workers[v].msg.id == id;
          assert v in s'.workers;
        }
      }
      assert Held(s', id) ==> Held(s, id);
    }
    hide SamePlace, PlaceOf, Carries;
    Unmoved(s, s', x);
  }

  /** The delivery ends and its row stays claimed: its ack is buffered, or nobody has it. */
  lemma RowStays(s: Sys, s': Sys, w: nat)
    requires Inv(s) && ClaimInv(s) && w in s.workers
    requires s'.db == s.db && s'.lineage == s.lineage && s'.workers == s.workers - {w}
    requires forall q, id :: id != s.workers[w].msg.id ==> (Waits(s'.acks, q, id) <==> Waits(s.acks, q, id))
    ensures var id := s.workers[w].msg.id;
            Goes(s, s', Origin(s, id), D.Claimed, if Waits(s'.acks, s.workers[w].queue, id) then D.Buffered else D.Stuck)
  {
    var id, l := s.workers[w].msg.id, Origin(s, s.workers[w].msg.id);
    WorkerPlace(s, w);
    assert Is(s.db.rows, id, s.workers[w].queue, Processing);
    assert OneCarrier(s.lineage, s.db.rows);
    hide Inv, ClaimInv, OneCarrier, Carries, PlaceOf, Waits;
    assert !Held(s', id);
    PlaceIs(s', l, id);
    forall x | x != l ensures PlaceOf(s', x) == PlaceOf(s, x) {
      OtherStays(s, s', w, x);
    }
  }

  /** The delivery ends and its row is acknowledged. */
  lemma RowGoes(indexed: bool, s: Sys, e: Event)
    requires e.AckNow? && e.up && Inv(s) && ClaimInv(s) && Enabled(s, e)
    ensures Goes(s, Step(indexed, s, e), Origin(s, s.workers[e.w].msg.id), D.Claimed, D.Acked)
  {
    var s', id, l := Step(indexed, s, e), s.workers[e.w].msg.id, Origin(s, s.workers[e.w].msg.id);
    WorkerPlace(s, e.w);
    StepKeeps(indexed, s, e);
    assert Is(s.db.rows, id, s.workers[e.w].queue, Processing);
    assert s'.db.rows == s.db.rows - {id};
    assert OneCarrier(s.lineage, s.db.rows) && OneCarrier(s'.lineage, s'.db.rows);
    assert forall x :: Carries(s.lineage, s.db.rows, l, x) ==> x == id;
    hide Inv, ClaimInv, OneCarrier, PlaceOf, Waits;
    forall x ensures !Carries(s'.lineage, s'.db.rows, l, x) {
      assert Carries(s'.lineage, s'.db.rows, l, x) ==> Carries(s.lineage, s.db.rows, l, x);
    }
    NoPlace(s', l);
    forall x | x != l ensures PlaceOf(s', x) == PlaceOf(s, x) {
      OtherStays(s, s', e.w, x);
    }
  }

  /** The delivery ends and its row is rewritten by a retry. */
  lemma RowReturns(indexed: bool, s: Sys, s': Sys, w: nat, msg: Message, now: Time)
    requires Inv(s) && ClaimInv(s) && w in s.workers && OneCarrier(s'.lineage, s'.db.rows)
    requires msg.id == s.workers[w].msg.id && Retry(indexed, s.db, s.workers[w].queue, msg, now).outcome == Done
    requires s'.db == Retry(indexed, s.db, s.workers[w].queue, msg, now).db
    requires s'.lineage == s.lineage && s'.workers == s.workers - {w} && s'.acks == s.acks
    ensures Goes(s, s', Origin(s, msg.id), D.Claimed, D.Pending)
  {
    hide ClaimInv, OneCarrier, PlaceOf, Waits;
    var l := Origin(s, msg.id);
    WorkerPlace(s, w);
    WorkersKnown(s);
    OnlyCarrier(s, l, msg.id);
    RetryRows(indexed, s.db, s.workers[w].queue, msg, now);
    hide Inv;
    assert Is(s'.db.rows, msg.id, s.workers[w].queue, Pending) by {
      hide IsDlq, KeyTaken;
    }
    hide Retry;
    PlaceIs(s', l, msg.id);
    forall x | x != l ensures PlaceOf(s', x) == PlaceOf(s, x) {
      OtherStays(s, s', w, x);
    }
  }

  /** The delivery ends and its message goes to the shadow queue. */
  lemma RowBuried(indexed: bool, s: Sys, s': Sys, w: nat, msg: Message, newId: Id, now: Time)
    requires Inv(s) && ClaimInv(s) && w in s.workers && OneCarrier(s'.lineage, s'.db.rows) && s.lineage.Fresh(newId)
    requires msg.id == s.workers[w].msg.id
    requires DeadLetter(indexed, s.db, s.workers[w].queue, msg, Some("failed"), newId, now).outcome == Done
    requires var t := Bury(indexed, s, s.workers[w], msg, newId, now);
             s'.db == t.db && s'.lineage == t.lineage && s'.workers == s.workers - {w} && s'.acks == s.acks
    ensures Goes(s, s', Origin(s, msg.id), D.Claimed, D.Dead)
  {
    var l := Origin(s, msg.id);
    hide ClaimInv, OneCarrier, PlaceOf, Waits, DeadLetter, Bury;
    WorkerPlace(s, w);
    AtLeastOnce.RowsKnown(s);
    BuryRows(indexed, s, s.workers[w], msg, newId, now);
    BuriedRows(indexed, s, w, msg, newId, now);
    OnlyCarrier(s, l, msg.id);
    hide Inv;
    PlaceIs(s', l, newId);
    forall x | x != l ensures PlaceOf(s', x) == PlaceOf(s, x) {
      OtherStays(s, s', w, x);
    }
  }

  lemma BuriedRows(indexed: bool, s: Sys, w: nat, msg: Message, newId: Id, now: Time)
    requires Inv(s) && w in s.workers && s.lineage.Fresh(newId) && newId !in s.db.rows
    requires msg.id == s.workers[w].msg.id
    requires DeadLetter(indexed, s.db, s.workers[w].queue, msg, Some("failed"), newId, now).outcome == Done
    ensures var t := Bury(indexed, s, s.workers[w], msg, newId, now);
            && t.lineage == s.lineage.(origin := s.lineage.origin[newId := Origin(s, msg.id)])
            && Is(t.db.rows, newId, Dlq(s.workers[w].queue), Dead)
            && Is(t.db.rows, msg.id, s.workers[w].queue, Dead)
            && Carries(t.lineage, t.db.rows, Origin(s, msg.id), newId)
  {
    WorkersKnown(s);
    ShadowNames(s.workers[w].queue);
    hide Inv, IsDlq, Dlq, KeyTaken;
  }

  /** The broker's step is, for the dispatcher of queue q, a step of its machine. */
  ghost predicate Sees(indexed: bool, s: Sys, e: Event, q: string)
    requires Enabled(s, e)
  {
    var seen := SeenOf(indexed, s, e, q);
    Allowed(View(s, q), seen) && View(Step(indexed, s, e), q) == Moved(View(s, q), seen)
  }

  lemma FailureGoes(indexed: bool, s: Sys, s': Sys, w: nat, msg: Message, newId: Id, now: Time, dies: bool)
    requires Inv(s) && ClaimInv(s) && w in s.workers && OneCarrier(s'.lineage, s'.db.rows) && s.lineage.Fresh(newId)
    requires msg.id == s.workers[w].msg.id
    requires dies ==> DeadLetter(indexed, s.db, s.workers[w].queue, msg, Some("failed"), newId, now).outcome == Done
    requires var t := if dies then Bury(indexed, s, s.workers[w], msg, newId, now) else s;
             s'.db == t.db && s'.lineage == t.lineage && s'.workers == s.workers - {w} && s'.acks == s.acks
    ensures Goes(s, s', Origin(s, msg.id), D.Claimed, if dies then D.Dead else D.Stuck)
  {
    hide Inv, ClaimInv, OneCarrier, Carries, PlaceOf, DeadLetter, Waits, Bury;
    if dies {
      RowBuried(indexed, s, s', w, msg, newId, now);
    } else {
      WorkerPlace(s, w);
      RowStays(s, s', w);
    }
  }

  /** The delivery of worker w ends with this outcome. */
  lemma OutcomeSeen(indexed: bool, s: Sys, e: Event, w: nat, q: string, outcome: D.Outcome)
    requires Inv(s) && ClaimInv(s) && Enabled(s, e) && w in s.workers
    requires SeenOf(indexed, s, e, q) == OutcomeFor(s, w, q, outcome)
    requires Goes(s, Step(indexed, s, e), Origin(s, s.workers[w].msg.id), D.Claimed, D.PlaceAfter(outcome))
    ensures Sees(indexed, s, e, q)
  {
    WorkerPlace(s, w);
    hide Inv, ClaimInv, Carries, PlaceOf, View, Waits, Step, Enabled, SeenOf, Goes;
    GoesInView(s, Step(indexed, s, e), Origin(s, s.workers[w].msg.id), D.Claimed, D.PlaceAfter(outcome), q);
    OutcomePuts(View(s, q), Origin(s, s.workers[w].msg.id), outcome);
    hide Allowed, Moved, D.Put, D.PlacedAt;
  }

  lemma OutcomePuts(place: map<Id, D.Place>, m: Id, outcome: D.Outcome)
    ensures m in place && place[m] == D.Claimed ==> Allowed(place, ByOutcome(m, outcome))
    ensures Moved(place, ByOutcome(m, outcome)) == D.Put(Msgs(place), {m}, D.PlaceAfter(outcome)).place
    ensures Allowed(place, Nothing) && Moved(place, Nothing) == place
  {
  }

  lemma AckNowSeen(indexed: bool, s: Sys, e: Event, q: string)
    requires e.AckNow? && Inv(s) && ClaimInv(s) && Enabled(s, e)
    ensures Sees(indexed, s, e, q)
  {
    hide Inv, ClaimInv, Goes, Sees, Waits;
    if e.up {
      RowGoes(indexed, s, e);
    } else {
      WorkerPlace(s, e.w);
      RowStays(s, Step(indexed, s, e), e.w);
    }
    OutcomeSeen(indexed, s, e, e.w, q, if e.up then D.AckStored else D.Failed);
  }

  lemma AckLaterSeen(indexed: bool, s: Sys, e: Event, q: string)
    requires e.AckLater? && Inv(s) && ClaimInv(s) && Enabled(s, e)
    ensures Sees(indexed, s, e, q)
  {
    hide Inv, ClaimInv, Goes, Sees, Waits, A.Step;
    var s', w := Step(indexed, s, e), s.workers[e.w];
    forall p, id ensures Waits(s'.acks, p, id) <==> Waits(s.acks, p, id) || (p == w.queue && id == w.msg.id) {
      PassAdds(s.acks, w.queue, w.msg.id, p, id);
    }
    RowStays(s, s', e.w);
    OutcomeSeen(indexed, s, e, e.w, q, D.AckBuffered);
  }

  lemma GiveUpSeen(indexed: bool, s: Sys, e: Event, q: string)
    requires e.GiveUp? && Inv(s) && ClaimInv(s) && Enabled(s, e)
    ensures Sees(indexed, s, e, q)
  {
    hide Inv, ClaimInv, OneCarrier, Goes, Sees, DeadLetter, Bury;
    var s', w := Step(indexed, s, e), s.workers[e.w];
    CarriersStaySingle(indexed, s, e);
    var dies := e.up && Buries(indexed, s, w, 0, e.newId, e.now);
    assert w.msg.(attempts := w.msg.attempts + 0) == w.msg;
    NoBury(indexed, s, w, w.msg, e.newId, e.now);
    BuryRows(indexed, s, w, w.msg, e.newId, e.now);
    FailureGoes(indexed, s, s', e.w, w.msg, e.newId, e.now, dies);
    hide Step;
    OutcomeSeen(indexed, s, e, e.w, q, if dies then D.DeadLettered else D.Failed);
  }

  lemma NoBury(indexed: bool, s: Sys, w: Worker, msg: Message, newId: Id, now: Time)
    ensures DeadLetter(indexed, s.db, w.queue, msg, Some("failed"), newId, now).outcome != Done ==>
              Bury(indexed, s, w, msg, newId, now) == s
  {
    hide DeadLetter;
  }

  /** The failure is recorded by a retry. */
  ghost predicate Retried(indexed: bool, s: Sys, e: Event)
    requires e.Resolve? && Enabled(s, e)
  {
    var w := s.workers[e.w];
    && e.up && w.msg.attempts + 1 <= e.n
    && Retry(indexed, s.db, w.queue, w.msg.(attempts := w.msg.attempts + 1, scheduledAt := e.due), e.now).outcome == Done
  }

  lemma ResolveSeen(indexed: bool, s: Sys, e: Event, q: string)
    requires e.Resolve? && Inv(s) && ClaimInv(s) && Enabled(s, e)
    ensures Sees(indexed, s, e, q)
  {
    hide Inv, ClaimInv, Sees, Step, DeadLetter, Retry;
    if Retried(indexed, s, e) {
      RetrySeen(indexed, s, e, q);
    } else {
      FailureSeen(indexed, s, e, q);
    }
  }

  lemma RetrySeen(indexed: bool, s: Sys, e: Event, q: string)
    requires e.Resolve? && Inv(s) && ClaimInv(s) && Enabled(s, e) && Retried(indexed, s, e)
    ensures Sees(indexed, s, e, q)
  {
    var s', w := Step(indexed, s, e), s.workers[e.w];
    CarriersStaySingle(indexed, s, e);
    hide Inv, ClaimInv, OneCarrier, Goes, Sees, Retry, DeadLetter;
    RowReturns(indexed, s, s', e.w, w.msg.(attempts := w.msg.attempts + 1, scheduledAt := e.due), e.now);
    hide Step, Enabled;
    OutcomeSeen(indexed, s, e, e.w, q, D.RetryStored);
  }

  lemma FailureSeen(indexed: bool, s: Sys, e: Event, q: string)
    requires e.Resolve? && Inv(s) && ClaimInv(s) && Enabled(s, e) && !Retried(indexed, s, e)
    ensures Sees(indexed, s, e, q)
  {
    hide Inv, ClaimInv, OneCarrier, Goes, Sees, DeadLetter, Retry, Step;
    var w := s.workers[e.w];
    var dies := e.up && w.msg.attempts + 1 > e.n && Buries(indexed, s, w, 1, e.newId, e.now);
    var msg := w.msg.(attempts := w.msg.attempts + 1);
    CarriersStaySingle(indexed, s, e);
    FailureStep(indexed, s, e);
    FailureGoes(indexed, s, Step(indexed, s, e), e.w, msg, e.newId, e.now, dies);
    OutcomeSeen(indexed, s, e, e.w, q, if dies then D.DeadLettered else D.Failed);
  }

  /** A failure that is not recorded by a retry buries the message or changes no row. */
  lemma FailureStep(indexed: bool, s: Sys, e: Event)
    requires e.Resolve? && Enabled(s, e) && !Retried(indexed, s, e)
    ensures var s', w := Step(indexed, s, e), s.workers[e.w];
            var dies := e.up && w.msg.attempts + 1 > e.n && Buries(indexed, s, w, 1, e.newId, e.now);
            var t := if dies then Bury(indexed, s, w, w.msg.(attempts := w.msg.attempts + 1), e.newId, e.now) else s;
            s'.db == t.db && s'.lineage == t.lineage && s'.workers == s.workers - {e.w} && s'.acks == s.acks
  {
    var w := s.workers[e.w];
    BuryRows(indexed, s, w, w.msg.(attempts := w.msg.attempts + 1), e.newId, e.now);
    hide DeadLetter, Retry, Bury;
  }

  // ----- the other events -----

  /** Rows, claims and waiting acknowledgements as before. */
  lemma AllStay(s: Sys, s': Sys, q: string)
    requires OneCarrier(s.lineage, s.db.rows) && s'.db == s.db && s'.lineage == s.lineage
    requires forall p, id :: Waits(s'.acks, p, id) <==> Waits(s.acks, p, id)
    requires forall id :: Held(s', id) <==> Held(s, id)
    ensures View(s', q) == View(s, q)
  {
    hide OneCarrier, Waits, Held, PlaceOf;
    forall l ensures PlaceOf(s', l) == PlaceOf(s, l) {
      Unmoved(s, s', l);
    }
  }

  /** Events that move no message. */
  lemma NothingSeen(indexed: bool, s: Sys, e: Event, q: string)
    requires e.Invoke? || e.TakeAcks? || e.FlushFailed?
    requires Inv(s) && Enabled(s, e)
    ensures Sees(indexed, s, e, q)
  {
    assert OneCarrier(s.lineage, s.db.rows);
    hide Inv, OneCarrier, A.Step, A.Enabled, View;
    var s' := Step(indexed, s, e);
    forall p, id ensures Waits(s'.acks, p, id) <==> Waits(s.acks, p, id) {
      if e.TakeAcks? {
        MovesKeepWaiting(s.acks, A.Take(e.q), p, id);
      } else if e.FlushFailed? {
        MovesKeepWaiting(s.acks, A.Fail(e.i), p, id);
      }
    }
    forall id ensures Held(s', id) <==> Held(s, id) {
      HeldSame(s, s', id);
    }
    hide Waits, Held;
    AllStay(s, s', q);
  }

  lemma HeldSame(s: Sys, s': Sys, id: Id)
    requires s'.workers.Keys == s.workers.Keys
    requires forall w :: w in s.workers ==> s'.workers[w].msg == s.workers[w].msg
    ensures Held(s', id) <==> Held(s, id)
  {
    if Held(s, id) {
      var v :| v in s.workers && s.workers[v].msg.id == id;
      assert s'.workers[v].msg.id == id;
    }
  }

  lemma FetchSeen(indexed: bool, s: Sys, e: Event, q: string)
    requires e.Fetch? && Inv(s) && Enabled(s, e)
    ensures Sees(indexed, s, e, q)
  {
    hide Inv, Goes, View, RowPlace, Step;
    FetchGoes(indexed, s, e);
    FetchedFrom(s, e);
    GoesInView(s, Step(indexed, s, e), Origin(s, e.id), D.Pending, D.Claimed, q);
  }

  lemma FetchedFrom(s: Sys, e: Event)
    requires e.Fetch? && Inv(s) && Enabled(s, e)
    ensures Origin(s, e.id) in s.lineage.accepted && s.lineage.accepted[Origin(s, e.id)].queue == e.q
  {
    AtLeastOnce.RowsKnown(s);
    assert Faithful(s.lineage, e.id, s.db.rows[e.id]);
    hide Inv, SameContent, Dlq;
  }

  lemma FetchGoes(indexed: bool, s: Sys, e: Event)
    requires e.Fetch? && Inv(s) && Enabled(s, e)
    ensures Goes(s, Step(indexed, s, e), Origin(s, e.id), D.Pending, D.Claimed)
  {
    var s', l := Step(indexed, s, e), Origin(s, e.id);
    hide Inv, OneCarrier, PlaceOf, Waits;
    CarriersStaySingle(indexed, s, e);
    AtLeastOnce.RowsKnown(s);
    assert s.db.rows[e.id].status == Pending && s'.db.rows == s.db.rows[e.id := s.db.rows[e.id].(status := Processing)];
    assert s'.lineage == s.lineage && s'.acks == s.acks && s'.workers == s.workers[e.w := s'.workers[e.w]];
    assert s'.workers[e.w].msg.id == e.id;
    assert Held(s', e.id);
    hide Step, Enabled;
    PlaceIs(s, l, e.id);
    PlaceIs(s', l, e.id);
    forall x | x != l ensures PlaceOf(s', x) == PlaceOf(s, x) {
      forall id | Carries(s.lineage, s.db.rows, x, id) ensures SamePlace(s, s', x, id) {
        HeldMore(s, s', e.w, id);
      }
      Unmoved(s, s', x);
    }
  }

  /** A new worker holds just its own row. */
  lemma HeldMore(s: Sys, s': Sys, w: nat, id: Id)
    requires w !in s.workers && w in s'.workers && s'.workers == s.workers[w := s'.workers[w]]
    ensures Held(s', id) <==> Held(s, id) || s'.workers[w].msg.id == id
  {
    if Held(s, id) {
      var v :| v in s.workers && s.workers[v].msg.id == id;
      assert s'.workers[v].msg.id == id;
    }
  }

  lemma AcceptSeen(indexed: bool, s: Sys, e: Event, q: string)
    requires e.Accept? && Inv(s) && Enabled(s, e)
    ensures Sees(indexed, s, e, q)
  {
    hide ValidQueueName, KeyTaken, IsDlq, Inv, View, Carries, InsertStatus;
    if Enqueue(indexed, s.db, e.q, e.msg, e.now).outcome == Done {
      AcceptPlaces(indexed, s, e);
      ArrivesInView(s, Step(indexed, s, e), e.msg.id, q);
      hide Step, Enqueue;
    }
  }

  lemma ArrivesInView(s: Sys, s': Sys, l: Id, q: string)
    requires l !in s.lineage.accepted && l in s'.lineage.accepted && PlaceOf(s', l) == D.Pending
    requires s'.lineage.accepted == s.lineage.accepted[l := s'.lineage.accepted[l]]
    requires forall x :: x != l ==> PlaceOf(s', x) == PlaceOf(s, x)
    ensures l !in View(s, q)
    ensures View(s', q) == if s'.lineage.accepted[l].queue == q then D.Put(Msgs(View(s, q)), {l}, D.Pending).place else View(s, q)
  {
    hide PlaceOf;
  }

  lemma AcceptPlaces(indexed: bool, s: Sys, e: Event)
    requires e.Accept? && Inv(s) && Enabled(s, e) && Enqueue(indexed, s.db, e.q, e.msg, e.now).outcome == Done
    ensures var s', l := Step(indexed, s, e), e.msg.id;
            && PlaceOf(s', l) == D.Pending && l in s'.lineage.accepted && s'.lineage.accepted[l].queue == e.q
            && s'.lineage.accepted == s.lineage.accepted[l := s'.lineage.accepted[l]]
            && forall x :: x != l ==> PlaceOf(s', x) == PlaceOf(s, x)
  {
    var s', l := Step(indexed, s, e), e.msg.id;
    hide Inv, OneCarrier;
    CarriersStaySingle(indexed, s, e);
    AtLeastOnce.RowsKnown(s);
    ShadowNames(e.q);
    hide PlaceOf, Waits, ValidQueueName, KeyTaken, IsDlq;
    assert Carries(s'.lineage, s'.db.rows, l, l);
    PlaceIs(s', l, l);
    forall x | x != l ensures PlaceOf(s', x) == PlaceOf(s, x) {
      Unmoved(s, s', x);
    }
  }

  ghost function Landed(s: Sys, b: A.Batch): set<Id> {
    set id | id in b.ids && id in s.db.rows
  }

  lemma FlushRows(indexed: bool, s: Sys, e: Event)
    requires e.FlushOk? && ClaimInv(s) && Enabled(s, e)
    ensures var s', b := Step(indexed, s, e), s.acks.flushing[e.i];
            && s'.db.rows == s.db.rows - Landed(s, b) && s'.workers == s.workers && s'.lineage == s.lineage
            && (forall id :: id in Landed(s, b) ==> Waits(s.acks, b.queue, id) && Waiting(s, b.queue, id))
            && (forall p, id :: Waits(s.acks, p, id) <==> Waits(s'.acks, p, id) || (p == b.queue && id in b.ids))
  {
    var s', b := Step(indexed, s, e), s.acks.flushing[e.i];
    forall id | id in Landed(s, b) ensures Waits(s.acks, b.queue, id) && Waiting(s, b.queue, id) {
      assert InFlush(s.acks, b.queue, id);
    }
    assert Landed(s, b) == Ackable(s.db, b.queue, b.ids);
    forall p, id ensures Waits(s.acks, p, id) <==> Waits(s'.acks, p, id) || (p == b.queue && id in b.ids) {
      WithoutFlush(s.acks, e.i, p, id);
    }
  }

  lemma LandedGoes(indexed: bool, s: Sys, e: Event, id: Id)
    requires e.FlushOk? && Inv(s) && ClaimInv(s) && Enabled(s, e) && id in Landed(s, s.acks.flushing[e.i])
    ensures var l := Origin(s, id);
            && l in s.lineage.accepted && s.lineage.accepted[l].queue == s.acks.flushing[e.i].queue
            && PlaceOf(s, l) == D.Buffered && PlaceOf(Step(indexed, s, e), l) == D.Acked
  {
    var s', l, b := Step(indexed, s, e), Origin(s, id), s.acks.flushing[e.i];
    FlushRows(indexed, s, e);
    AtLeastOnce.RowsKnown(s);
    assert Faithful(s.lineage, id, s.db.rows[id]);
    assert Waiting(s, b.queue, id);
    assert OneCarrier(s.lineage, s.db.rows);
    hide ClaimInv, Waits, SameContent, Dlq, PlaceOf, Step;
    assert Carries(s.lineage, s.db.rows, l, id);
    assert forall x :: Carries(s.lineage, s.db.rows, l, x) ==> x == id;
    PlaceIs(s, l, id);
    forall x ensures !Carries(s'.lineage, s'.db.rows, l, x) {
      assert Carries(s'.lineage, s'.db.rows, l, x) ==> Carries(s.lineage, s.db.rows, l, x);
    }
    NoPlace(s', l);
  }

  lemma UnlandedStays(indexed: bool, s: Sys, e: Event, l: Id)
    requires e.FlushOk? && Inv(s) && ClaimInv(s) && Enabled(s, e)
    requires forall id :: id in Landed(s, s.acks.flushing[e.i]) ==> l != Origin(s, id)
    ensures PlaceOf(Step(indexed, s, e), l) == PlaceOf(s, l)
  {
    var s', b := Step(indexed, s, e), s.acks.flushing[e.i];
    hide Inv, ClaimInv, OneCarrier, Waits, PlaceOf, Step, A.Enabled, Waiting;
    FlushRows(indexed, s, e);
    CarriersStaySingle(indexed, s, e);
    forall id | Carries(s.lineage, s.db.rows, l, id) ensures SamePlace(s, s', l, id) {
      assert id !in Landed(s, b) && id !in b.ids;
    }
    Unmoved(s, s', l);
  }

  lemma LandsInView(s: Sys, s': Sys, ls: set<Id>, p: string, q: string)
    requires s'.lineage == s.lineage
    requires forall l :: l in ls ==>
               l in s.lineage.accepted && s.lineage.accepted[l].queue == p
               && PlaceOf(s, l) == D.Buffered && PlaceOf(s', l) == D.Acked
    requires forall l :: l !in ls ==> PlaceOf(s', l) == PlaceOf(s, l)
    ensures if p == q
            then (forall l :: l in ls ==> l in View(s, q) && View(s, q)[l] == D.Buffered)
                 && View(s', q) == D.Put(Msgs(View(s, q)), ls, D.Acked).place
            else View(s', q) == View(s, q)
  {
    hide PlaceOf;
  }

  lemma FlushPlaces(indexed: bool, s: Sys, e: Event)
    requires e.FlushOk? && Inv(s) && ClaimInv(s) && Enabled(s, e)
    ensures var s', b := Step(indexed, s, e), s.acks.flushing[e.i];
            var ls := set id | id in b.ids && id in s.db.rows :: Origin(s, id);
            && s'.lineage == s.lineage
            && (forall l :: l in ls ==>
                  l in s.lineage.accepted && s.lineage.accepted[l].queue == b.queue
                  && PlaceOf(s, l) == D.Buffered && PlaceOf(s', l) == D.Acked)
            && (forall l :: l !in ls ==> PlaceOf(s', l) == PlaceOf(s, l))
  {
    var s', b := Step(indexed, s, e), s.acks.flushing[e.i];
    var ls := set id | id in b.ids && id in s.db.rows :: Origin(s, id);
    assert s'.lineage == s.lineage;
    hide Step, Inv, ClaimInv, PlaceOf, A.Enabled;
    forall l | l in ls
      ensures l in s.lineage.accepted && s.lineage.accepted[l].queue == b.queue
      ensures PlaceOf(s, l) == D.Buffered && PlaceOf(s', l) == D.Acked
    {
      var id :| id in Landed(s, b) && l == Origin(s, id);
      LandedGoes(indexed, s, e, id);
    }
    forall l | l !in ls ensures PlaceOf(s', l) == PlaceOf(s, l) {
      UnlandedStays(indexed, s, e, l);
    }
  }

  /** The acknowledgements of one flush land. */
  lemma FlushSeen(indexed: bool, s: Sys, e: Event, q: string)
    requires e.FlushOk? && Inv(s) && ClaimInv(s) && Enabled(s, e)
    ensures Sees(indexed, s, e, q)
  {
    hide Inv, ClaimInv, PlaceOf, View, Step;
    FlushPlaces(indexed, s, e);
    var b := s.acks.flushing[e.i];
    LandsInView(s, Step(indexed, s, e), set id | id in b.ids && id in s.db.rows :: Origin(s, id), b.queue, q);
  }

  /** A dead letter goes back to its queue. */
  lemma ReplaySeen(indexed: bool, s: Sys, e: Event, q: string)
    requires e.ReplayDead? && Inv(s) && Enabled(s, e)
    ensures Sees(indexed, s, e, q)
  {
    hide Inv, Goes, View, Replay;
    if Replay(indexed, s.db, e.q, e.id, e.now).outcome == Done {
      ReplayedCarries(indexed, s, e);
      ReplayGoes(indexed, s, e);
      GoesInView(s, Step(indexed, s, e), Origin(s, e.id), D.Dead, D.Pending, q);
    } else {
      RollbackIsTotal(indexed, s.db, ReplayOp(e.q, e.id, e.now));
    }
  }

  lemma ReplayGoes(indexed: bool, s: Sys, e: Event)
    requires e.ReplayDead? && Inv(s) && Enabled(s, e) && Replay(indexed, s.db, e.q, e.id, e.now).outcome == Done
    ensures Goes(s, Step(indexed, s, e), Origin(s, e.id), D.Dead, D.Pending)
  {
    var s', l := Step(indexed, s, e), Origin(s, e.id);
    ReplayedCarries(indexed, s, e);
    StepKeeps(indexed, s, e);
    assert OneCarrier(s.lineage, s.db.rows) && OneCarrier(s'.lineage, s'.db.rows);
    hide Inv, OneCarrier, PlaceOf, Waits, Step, Enabled, Replay, Dlq;
    PlaceIs(s, l, e.id);
    PlaceIs(s', l, e.id);
    forall x | x != l ensures PlaceOf(s', x) == PlaceOf(s, x) {
      Unmoved(s, s', x);
    }
  }

  // ----- every step -----

  /** Every step of the broker but a reclaim or a crash is, for the dispatcher of any queue, a step its
      machine allows, and puts the queue's messages where that machine puts them. */
  lemma StepIsSeen(indexed: bool, s: Sys, e: Event, q: string)
    requires Inv(s) && ClaimInv(s) && Enabled(s, e) && !e.ReclaimQueue? && !e.Crash?
    ensures Sees(indexed, s, e, q)
  {
    hide Inv, ClaimInv, Enabled, Sees;
    match e
    case Accept(_, _, _) => AcceptSeen(indexed, s, e, q);
    case Fetch(_, _, _, _) => FetchSeen(indexed, s, e, q);
    case Invoke(_, _, _) => NothingSeen(indexed, s, e, q);
    case AckNow(_, _) => AckNowSeen(indexed, s, e, q);
    case AckLater(_) => AckLaterSeen(indexed, s, e, q);
    case TakeAcks(_) => NothingSeen(indexed, s, e, q);
    case FlushOk(_) => FlushSeen(indexed, s, e, q);
    case FlushFailed(_) => NothingSeen(indexed, s, e, q);
    case GiveUp(_, _, _, _, _) => GiveUpSeen(indexed, s, e, q);
    case Resolve(_, _, _, _, _, _) => ResolveSeen(indexed, s, e, q);
    case ReplayDead(_, _, _) => ReplaySeen(indexed, s, e, q);
  }

  /** Messages whose row was claimed are pending again. */
  ghost function Released(place: map<Id, D.Place>): map<Id, D.Place> {
    map l | l in place :: if place[l] == D.Claimed || place[l] == D.Buffered || place[l] == D.Stuck then D.Pending else place[l]
  }

  /** A reclaim of q, or a crash, makes every claimed row of q pending. */
  lemma ReclaimReturns(indexed: bool, s: Sys, e: Event, q: string)
    requires (e.ReclaimQueue? || e.Crash?) && Inv(s) && Enabled(s, e)
    ensures View(Step(indexed, s, e), q) == if e.Crash? || e.q == q then Released(View(s, q)) else View(s, q)
  {
    var s' := Step(indexed, s, e);
    StepKeeps(indexed, s, e);
    assert OneCarrier(s.lineage, s.db.rows) && OneCarrier(s'.lineage, s'.db.rows);
    assert AllFaithful(s.lineage, s.db.rows);
    hide Inv, OneCarrier, PlaceOf;
    forall l | l in s.lineage.accepted && s.lineage.accepted[l].queue == q
      ensures var p := PlaceOf(s, l);
              PlaceOf(s', l) == if (e.Crash? || e.q == q) && (p == D.Claimed || p == D.Buffered || p == D.Stuck) then D.Pending else p
    {
      ReturnsOne(indexed, s, e, l);
    }
  }

  lemma ReturnsOne(indexed: bool, s: Sys, e: Event, l: Id)
    requires (e.ReclaimQueue? || e.Crash?) && AllFaithful(s.lineage, s.db.rows) && Enabled(s, e)
    requires var s' := Step(indexed, s, e); OneCarrier(s.lineage, s.db.rows) && OneCarrier(s'.lineage, s'.db.rows)
    requires l in s.lineage.accepted
    ensures var p := PlaceOf(s, l);
            PlaceOf(Step(indexed, s, e), l) ==
              if (e.Crash? || e.q == s.lineage.accepted[l].queue) && (p == D.Claimed || p == D.Buffered || p == D.Stuck) then D.Pending else p
  {
    var s' := Step(indexed, s, e);
    hide OneCarrier, PlaceOf, SameContent, Dlq, Waits, Held;
    assert forall id :: Carries(s'.lineage, s'.db.rows, l, id) <==> Carries(s.lineage, s.db.rows, l, id);
    if id :| Carries(s.lineage, s.db.rows, l, id) {
      PlaceIs(s, l, id);
      PlaceIs(s', l, id);
      assert Faithful(s.lineage, id, s.db.rows[id]);
    } else {
      NoPlace(s, l);
      NoPlace(s', l);
    }
  }

  /** Depth zero is read off the rows just as off the places. */
  lemma DepthIsPendingRows(s: Sys, q: string)
    requires Inv(s)
    ensures D.DepthIsZero(D.INITIAL.(msgs := Msgs(View(s, q)))) <==> forall id :: id in s.db.rows ==> !Is(s.db.rows, id, q, Pending)
  {
    assert OneCarrier(s.lineage, s.db.rows) && AllFaithful(s.lineage, s.db.rows) && AcceptedOk(s.lineage);
    hide Inv, OneCarrier, SameContent, Dlq, ValidQueueName;
    forall id | id in s.db.rows && Is(s.db.rows, id, q, Pending)
      ensures Origin(s, id) in View(s, q) && View(s, q)[Origin(s, id)] == D.Pending
    {
      assert Faithful(s.lineage, id, s.db.rows[id]);
      PlaceIs(s, Origin(s, id), id);
    }
    forall l | l in View(s, q) && View(s, q)[l] == D.Pending
      ensures exists id :: id in s.db.rows && Is(s.db.rows, id, q, Pending)
    {
      var id :| Carries(s.lineage, s.db.rows, l, id);
      PlaceIs(s, l, id);
      assert Faithful(s.lineage, id, s.db.rows[id]);
    }
  }

  /** Over every run without disturbing reclaims, and for every queue: step by step, the messages of the
      queue move as its dispatcher's machine moves them, and a crash or a reclaim makes those whose rows
      were claimed pending again. */
  lemma RunsAreSeen(indexed: bool, trace: seq<Sys>, events: seq<Event>, i: nat, q: string)
    requires IsOrderlyRun(indexed, trace, events) && i < |events|
    ensures View(trace[0], q) == D.INITIAL.msgs.place
    ensures Enabled(trace[i], events[i])
    ensures if events[i].Crash? || events[i].ReclaimQueue?
            then View(trace[i + 1], q) ==
                   if events[i].Crash? || events[i].q == q then Released(View(trace[i], q)) else View(trace[i], q)
            else Sees(indexed, trace[i], events[i], q)
  {
    RunsKeepClaims(indexed, trace, events, i);
    hide Inv, ClaimInv, Orderly, Enabled, Step, Sees, PlaceOf;
    if events[i].Crash? || events[i].ReclaimQueue? {
      ReclaimReturns(indexed, trace[i], events[i], q);
    } else {
      StepIsSeen(indexed, trace[i], events[i], q);
    }
  }
}
