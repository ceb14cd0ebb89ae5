/** Which reclaims the dispatchers do not notice: those that take no row from a delivery or from an
    acknowledgement that waits, and no others. */
module ReclaimView {
  import opened Naming
  import opened Messages
  import opened SqlMachine
  import opened Delivery
  import opened AtLeastOnce
  import opened DeliveryClaims
  import opened QueueView
  import D = Dispatcher

  /** The run reclaims q after `events` and goes on, with no disturbing reclaim after that. */
  ghost predicate Reclaimed(indexed: bool, q: string, trace: seq<Sys>, events: seq<Event>, trace': seq<Sys>, events': seq<Event>) {
    && Delivery.IsRun(indexed, trace', events')
    && |events| < |events'| && trace'[..|events| + 1] == trace && events'[..|events|] == events
    && events'[|events|] == ReclaimQueue(q)
    && forall i :: |events| < i < |events'| ==> Orderly(trace'[i], events'[i])
  }

  /** Every later step is one of the dispatcher's machine, for every queue. */
  ghost predicate AllSeen(indexed: bool, trace: seq<Sys>, events: seq<Event>, from: nat) {
    forall i, p :: from <= i < |events| < |trace| && Enabled(trace[i], events[i]) && !events[i].Crash? && !events[i].ReclaimQueue? ==>
      Sees(indexed, trace[i], events[i], p)
  }

  // ----- an undisturbing reclaim -----

  lemma UndisturbedIsSeen(indexed: bool, q: string, trace: seq<Sys>, events: seq<Event>, trace': seq<Sys>, events': seq<Event>)
    requires IsOrderlyRun(indexed, trace, events) && Undisturbed(trace[|events|], q)
    requires Reclaimed(indexed, q, trace, events, trace', events')
    ensures AllSeen(indexed, trace', events', |events|)
  {
    hide Step, Enabled, Undisturbed, Sees;
    forall i | 0 <= i < |events'| ensures Orderly(trace'[i], events'[i]) {
      if i < |events| {
        assert trace'[i] == trace'[..|events| + 1][i] && events'[i] == events'[..|events|][i];
      } else if i == |events| {
        assert trace'[i] == trace'[..|events| + 1][i];
      }
    }
    forall i, p | |events| <= i < |events'| < |trace'| && !events'[i].Crash? && !events'[i].ReclaimQueue?
      ensures Enabled(trace'[i], events'[i]) && Sees(indexed, trace'[i], events'[i], p)
    {
      RunsAreSeen(indexed, trace', events', i, p);
    }
  }

  // ----- a disturbing one -----

  lemma PendingPlace(s: Sys, q: string, id: Id)
    requires Inv(s) && Is(s.db.rows, id, q, Pending)
    ensures Origin(s, id) in View(s, q) && View(s, q)[Origin(s, id)] == D.Pending
  {
    RowsKnown(s);
    assert Faithful(s.lineage, id, s.db.rows[id]);
    assert OneCarrier(s.lineage, s.db.rows);
    hide Inv, OneCarrier, SameContent, Dlq, PlaceOf;
    PlaceIs(s, Origin(s, id), id);
  }

  /** A delivery that ends while its row is up for another. */
  lemma EndIsUnseen(indexed: bool, s: Sys, e: Event, w: nat)
    requires Inv(s) && Enabled(s, e) && w in s.workers && Is(s.db.rows, s.workers[w].msg.id, s.workers[w].queue, Pending)
    requires (e.AckNow? || (e.Resolve? && !e.up)) && e.w == w
    ensures !Sees(indexed, s, e, s.workers[w].queue)
  {
    PendingPlace(s, s.workers[w].queue, s.workers[w].msg.id);
    hide Inv, View, Step;
  }

  /** An acknowledgement that lands while its row is up for delivery. */
  lemma FlushIsUnseen(indexed: bool, s: Sys, i: nat, id: Id)
    requires Inv(s) && Enabled(s, FlushOk(i)) && id in s.acks.flushing[i].ids
    requires Is(s.db.rows, id, s.acks.flushing[i].queue, Pending)
    ensures !Sees(indexed, s, FlushOk(i), s.acks.flushing[i].queue)
  {
    var b := s.acks.flushing[i];
    PendingPlace(s, b.queue, id);
    hide Inv, View, Step;
    assert Origin(s, id) in (set x | x in b.ids && x in s.db.rows :: Origin(s, x));
  }

  /** The run, one step on. */
  lemma GoesOneOn(indexed: bool, q: string, trace: seq<Sys>, events: seq<Event>, t: seq<Sys>, es: seq<Event>, e: Event)
    requires |trace| == |events| + 1 && Reclaimed(indexed, q, trace, events, t, es) && Enabled(t[|es|], e) && !e.ReclaimQueue?
    ensures Reclaimed(indexed, q, trace, events, t + [Step(indexed, t[|es|], e)], es + [e])
  {
    RunThen(indexed, t, es, e);
    hide Step, Enabled, Undisturbed;
  }

  lemma ReclaimFirst(indexed: bool, q: string, trace: seq<Sys>, events: seq<Event>)
    requires Delivery.IsRun(indexed, trace, events)
    ensures Reclaimed(indexed, q, trace, events, trace + [Step(indexed, trace[|events|], ReclaimQueue(q))], events + [ReclaimQueue(q)])
  {
    RunThen(indexed, trace, events, ReclaimQueue(q));
    hide Step, Enabled, Undisturbed;
  }

  lemma LastUnseen(indexed: bool, trace: seq<Sys>, events: seq<Event>, from: nat, p: string)
    requires Delivery.IsRun(indexed, trace, events) && from < |events|
    requires Enabled(trace[|events| - 1], events[|events| - 1]) && !Sees(indexed, trace[|events| - 1], events[|events| - 1], p)
    requires !events[|events| - 1].Crash? && !events[|events| - 1].ReclaimQueue?
    ensures !AllSeen(indexed, trace, events, from)
  {
    hide Enabled, Sees, Step;
  }

  /** The reclaim takes the row of a delivery. */
  lemma WorkerIsUnseen(indexed: bool, q: string, trace: seq<Sys>, events: seq<Event>, w: nat)
    returns (trace': seq<Sys>, events': seq<Event>)
    requires IsOrderlyRun(indexed, trace, events) && w in trace[|events|].workers && trace[|events|].workers[w].queue == q
    ensures Reclaimed(indexed, q, trace, events, trace', events') && !AllSeen(indexed, trace', events', |events|)
  {
    hide AllSeen, Reclaimed, Undisturbed, Sees;
    var s := trace[|events|];
    RunsKeepClaims(indexed, trace, events, |events|);
    ReclaimFirst(indexed, q, trace, events);
    var t, es := trace + [Step(indexed, s, ReclaimQueue(q))], events + [ReclaimQueue(q)];
    assert Is(s.db.rows, s.workers[w].msg.id, q, Processing);
    assert t[|es|].workers == s.workers && Is(t[|es|].db.rows, s.workers[w].msg.id, q, Pending);
    hide ClaimInv, Inv, AllSeen, Reclaimed, Undisturbed, Sees, Delivery.IsRun;
    assert Delivery.IsRun(indexed, t, es) by {
      RunOf(indexed, q, trace, events, t, es);
    }
    if s.workers[w].phase == Fetched {
      GoesOneOn(indexed, q, trace, events, t, es, Invoke(w, 0, true));
      t, es := t + [Step(indexed, t[|es|], Invoke(w, 0, true))], es + [Invoke(w, 0, true)];
    }
    trace', events' := EndsUnseen(indexed, q, trace, events, t, es, w);
  }

  lemma RunOf(indexed: bool, q: string, trace: seq<Sys>, events: seq<Event>, t: seq<Sys>, es: seq<Event>)
    requires Reclaimed(indexed, q, trace, events, t, es)
    ensures Delivery.IsRun(indexed, t, es) && |t| == |es| + 1 && |events| < |es|
  {
    hide Step, Enabled, Orderly;
  }

  lemma EndsUnseen(indexed: bool, q: string, trace: seq<Sys>, events: seq<Event>, t: seq<Sys>, es: seq<Event>, w: nat)
    returns (trace': seq<Sys>, events': seq<Event>)
    requires |trace| == |events| + 1 && Reclaimed(indexed, q, trace, events, t, es)
    requires |t| == |es| + 1
    requires var s := t[|es|];
             w in s.workers && s.workers[w].phase != Fetched && s.workers[w].queue == q && Is(s.db.rows, s.workers[w].msg.id, q, Pending)
    ensures Reclaimed(indexed, q, trace, events, trace', events') && !AllSeen(indexed, trace', events', |events|)
  {
    hide Inv, Step, AllSeen, Reclaimed, Sees, Delivery.IsRun, Is;
    RunOf(indexed, q, trace, events, t, es);
    var s := t[|es|];
    RunsKeep(indexed, t, es, |es|);
    var newId := FreshId(s);
    var e := if s.workers[w].phase == Succeeded then AckNow(w, false) else Resolve(w, 0, 1, newId, 1, false);
    EndIsUnseen(indexed, s, e, w);
    hide Enabled;
    GoesOneOn(indexed, q, trace, events, t, es, e);
    trace', events' := t + [Step(indexed, s, e)], es + [e];
    RunOf(indexed, q, trace, events, trace', events');
    LastUnseen(indexed, trace', events', |events|, q);
  }

  /** The reclaim takes the row of an acknowledgement that waits. */
  lemma AckIsUnseen(indexed: bool, q: string, trace: seq<Sys>, events: seq<Event>, id: Id)
    returns (trace': seq<Sys>, events': seq<Event>)
    requires IsOrderlyRun(indexed, trace, events)
    requires Is(trace[|events|].db.rows, id, q, Processing) && Waits(trace[|events|].acks, q, id)
    ensures Reclaimed(indexed, q, trace, events, trace', events') && !AllSeen(indexed, trace', events', |events|)
  {
    var s := trace[|events|];
    ReclaimFirst(indexed, q, trace, events);
    var t, es := trace + [Step(indexed, s, ReclaimQueue(q))], events + [ReclaimQueue(q)];
    assert t[|es|].acks == s.acks && Is(t[|es|].db.rows, id, q, Pending);
    hide AllSeen, Reclaimed, Undisturbed, Sees, Delivery.IsRun;
    RunOf(indexed, q, trace, events, t, es);
    if !InFlush(s.acks, q, id) {
      GoesOneOn(indexed, q, trace, events, t, es, TakeAcks(q));
      t, es := t + [Step(indexed, t[|es|], TakeAcks(q))], es + [TakeAcks(q)];
      TakeMoves(s.acks, q, q, id);
      assert Waits(t[|es|].acks, q, id) && !InBuffer(t[|es|].acks, q, id);
    }
    RunOf(indexed, q, trace, events, t, es);
    trace', events' := LandsUnseen(indexed, q, trace, events, t, es, id);
  }

  lemma LandsUnseen(indexed: bool, q: string, trace: seq<Sys>, events: seq<Event>, t: seq<Sys>, es: seq<Event>, id: Id)
    returns (trace': seq<Sys>, events': seq<Event>)
    requires |trace| == |events| + 1 && Reclaimed(indexed, q, trace, events, t, es)
    requires |t| == |es| + 1
    requires Is(t[|es|].db.rows, id, q, Pending) && InFlush(t[|es|].acks, q, id)
    ensures Reclaimed(indexed, q, trace, events, trace', events') && !AllSeen(indexed, trace', events', |events|)
  {
    hide Inv, Step, AllSeen, Reclaimed, Sees, Delivery.IsRun, Is;
    RunOf(indexed, q, trace, events, t, es);
    var s := t[|es|];
    RunsKeep(indexed, t, es, |es|);
    var i: nat :| i < |s.acks.flushing| && s.acks.flushing[i].queue == q && id in s.acks.flushing[i].ids;
    assert Enabled(s, FlushOk(i));
    hide Enabled;
    FlushIsUnseen(indexed, s, i, id);
    GoesOneOn(indexed, q, trace, events, t, es, FlushOk(i));
    trace', events' := t + [Step(indexed, s, FlushOk(i))], es + [FlushOk(i)];
    RunOf(indexed, q, trace, events, trace', events');
    LastUnseen(indexed, trace', events', |events|, q);
  }

  /** The exact condition. After any run without disturbing reclaims, a reclaim of q leaves every later step
      one of the dispatcher's machine, for every queue and in every continuation, if and only if it takes
      no row from a delivery or from an acknowledgement that waits. */
  lemma ReclaimIsUnnoticedIff(indexed: bool, q: string, trace: seq<Sys>, events: seq<Event>)
    requires IsOrderlyRun(indexed, trace, events)
    ensures (forall trace': seq<Sys>, events': seq<Event> ::
               Reclaimed(indexed, q, trace, events, trace', events') ==> AllSeen(indexed, trace', events', |events|))
            <==> Undisturbed(trace[|events|], q)
  {
    var s := trace[|events|];
    hide IsOrderlyRun, Reclaimed, AllSeen, Waits, Delivery.IsRun;
    if Undisturbed(s, q) {
      forall trace': seq<Sys>, events': seq<Event> | Reclaimed(indexed, q, trace, events, trace', events')
        ensures AllSeen(indexed, trace', events', |events|)
      {
        UndisturbedIsSeen(indexed, q, trace, events, trace', events');
      }
    } else if w :| w in s.workers && s.workers[w].queue == q {
      var trace', events' := WorkerIsUnseen(indexed, q, trace, events, w);
    } else {
      var id :| id in s.db.rows && Waits(s.acks, q, id) && Is(s.db.rows, id, q, Processing);
      var trace', events' := AckIsUnseen(indexed, q, trace, events, id);
    }
  }
}
