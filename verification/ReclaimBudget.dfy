/** Which reclaims cost the retry budget: those that put a claimed row back under a delivery that has
    attempts to spare, and no others. */
module ReclaimBudget {
  import opened Naming
  import opened Messages
  import opened SqlMachine
  import opened Arithmetic
  import opened DurableDedupe
  import opened Delivery
  import opened AtLeastOnce
  import opened RetryBudget
  import opened DeliveryStore

  /** The longer run goes on from the shorter one without a reclaim, every handler at MaxRetries n. */
  ghost predicate GoesOn(indexed: bool, n: nat, t: seq<Sys>, es: seq<Event>, t': seq<Sys>, es': seq<Event>) {
    && Delivery.IsRun(indexed, t', es')
    && |t| == |es| + 1 && |es| <= |es'|
    && t'[..|t|] == t && es'[..|es|] == es
    && forall i :: |es| <= i < |es'| ==> FixedLimit(es'[i], n) && !es'[i].ReclaimQueue?
  }

  lemma Then(indexed: bool, n: nat, t: seq<Sys>, es: seq<Event>, e: Event)
    requires Delivery.IsRun(indexed, t, es) && Enabled(t[|es|], e) && FixedLimit(e, n) && !e.ReclaimQueue?
    ensures GoesOn(indexed, n, t, es, t + [Step(indexed, t[|es|], e)], es + [e])
  {
    hide Step, Enabled, FixedLimit;
  }

  lemma Chain(indexed: bool, n: nat, t: seq<Sys>, es: seq<Event>, t': seq<Sys>, es': seq<Event>, t'': seq<Sys>, es'': seq<Event>)
    requires GoesOn(indexed, n, t, es, t', es') && GoesOn(indexed, n, t', es', t'', es'')
    ensures GoesOn(indexed, n, t, es, t'', es'')
  {
    hide Step, Enabled, FixedLimit;
    assert t''[..|t|] == t''[..|t'|][..|t|];
    assert es''[..|es|] == es''[..|es'|][..|es|];
    forall i | |es| <= i < |es''| ensures FixedLimit(es''[i], n) && !es''[i].ReclaimQueue? {
      if i < |es'| {
        assert es''[i] == es''[..|es'|][i];
      }
    }
  }

  // ----- single deliveries -----

  /** Row `id` is in queue q with this attempt count and status. */
  ghost predicate At(s: Sys, id: Id, q: string, attempts: int, status: Status) {
    Is(s.db.rows, id, q, status) && s.db.rows[id].msg.attempts == attempts
  }

  ghost predicate Has(s: Sys, w: nat, id: Id, q: string, attempts: int, phase: Phase) {
    && InPhase(s, w, phase) && s.workers[w].queue == q
    && s.workers[w].msg.id == id && s.workers[w].msg.attempts == attempts
  }

  /** What every state of a run offers: keys are unique where the index exists, and a worker holds the
      key and the queue of its row. */
  lemma RunFacts(indexed: bool, t: seq<Sys>, es: seq<Event>)
    requires Delivery.IsRun(indexed, t, es)
    ensures var s := t[|es|];
            && Inv(s)
            && (indexed ==> UniqueKeys(s.db.rows))
            && (forall w :: w in s.workers && s.workers[w].msg.id in s.db.rows ==>
                  !IsDlq(s.workers[w].queue) && s.workers[w].msg.dedupeKey == s.db.rows[s.workers[w].msg.id].msg.dedupeKey)
  {
    RunsKeep(indexed, t, es, |es|);
    if indexed {
      KeysStayUnique(t, es, |es|);
    }
    var s := t[|es|];
    WorkersKnown(s);
    hide OneCarrier, NoneLost, AcksOk, UniqueKeys, Delivery.IsRun, IsDlq, Dlq;
    forall w | w in s.workers && s.workers[w].msg.id in s.db.rows
      ensures s.workers[w].msg.dedupeKey == s.db.rows[s.workers[w].msg.id].msg.dedupeKey
    {
      assert WorkerOk(s.lineage, s.completed, s.workers[w]);
      assert Faithful(s.lineage, s.workers[w].msg.id, s.db.rows[s.workers[w].msg.id]);
    }
  }

  /** A new worker fetches the pending row. */
  lemma Fetches(indexed: bool, n: nat, t: seq<Sys>, es: seq<Event>, id: Id, q: string, a: int)
    returns (t': seq<Sys>, es': seq<Event>, w: nat)
    requires Delivery.IsRun(indexed, t, es) && At(t[|es|], id, q, a, Pending)
    ensures GoesOn(indexed, n, t, es, t', es')
    ensures var s, s' := t[|es|], t'[|es'|];
            && w !in s.workers && Has(s', w, id, q, a, Fetched) && s'.workers == s.workers[w := s'.workers[w]]
            && At(s', id, q, a, Processing) && s'.failures == s.failures && s'.lineage == s.lineage
  {
    var s := t[|es|];
    RunFacts(indexed, t, es);
    RowsKnown(s);
    w := Beyond(s.workers.Keys);
    var now := if s.db.rows[id].msg.scheduledAt <= 1 then 1 else s.db.rows[id].msg.scheduledAt;
    var e := Fetch(q, id, w, now);
    assert w !in s.workers;
    Then(indexed, n, t, es, e);
    t', es' := t + [Step(indexed, s, e)], es + [e];
  }

  /** Its handler fails. */
  lemma Fails(indexed: bool, n: nat, t: seq<Sys>, es: seq<Event>, w: nat, id: Id, q: string, a: int)
    returns (t': seq<Sys>, es': seq<Event>)
    requires Delivery.IsRun(indexed, t, es) && Has(t[|es|], w, id, q, a, Fetched) && a <= n
    ensures GoesOn(indexed, n, t, es, t', es')
    ensures var s, s' := t[|es|], t'[|es'|];
            s' == s.(workers := s.workers[w := s.workers[w].(phase := Failed)])
  {
    Then(indexed, n, t, es, Invoke(w, n, false));
    t', es' := t + [Step(indexed, t[|es|], Invoke(w, n, false))], es + [Invoke(w, n, false)];
  }

  /** The failure is recorded against whatever claimed row now stands under its id: the row goes back
      with one attempt more than the worker saw. */
  lemma Retries(indexed: bool, n: nat, t: seq<Sys>, es: seq<Event>, w: nat, id: Id, q: string, a: int, k: int)
    returns (t': seq<Sys>, es': seq<Event>)
    requires Delivery.IsRun(indexed, t, es) && Has(t[|es|], w, id, q, a, Failed) && a < n
    requires At(t[|es|], id, q, k, Processing)
    ensures GoesOn(indexed, n, t, es, t', es')
    ensures var s, s' := t[|es|], t'[|es'|];
            && s'.workers == s.workers - {w} && At(s', id, q, a + 1, Pending) && s'.lineage == s.lineage
            && FailuresOf(s', Origin(s, id)) == FailuresOf(s, Origin(s, id)) + 1
  {
    hide Inv, UniqueKeys, IsDlq;
    var s := t[|es|];
    RunFacts(indexed, t, es);
    var newId := FreshId(s);
    var e := Resolve(w, n, 1, newId, 1, true);
    var msg := s.workers[w].msg.(attempts := a + 1, scheduledAt := 1);
    if indexed {
      RetryIsNeverSkipped(s.db, q, msg, 1);
    }
    hide Delivery.IsRun, KeyTaken;
    assert Retry(indexed, s.db, q, msg, 1).outcome == Done;
    Then(indexed, n, t, es, e);
    t', es' := t + [Step(indexed, s, e)], es + [e];
  }

  /** On the last attempt it is recorded by dead-lettering. */
  lemma Buries(indexed: bool, n: nat, t: seq<Sys>, es: seq<Event>, w: nat, id: Id, q: string)
    returns (t': seq<Sys>, es': seq<Event>)
    requires Delivery.IsRun(indexed, t, es) && Has(t[|es|], w, id, q, n, Failed)
    requires Is(t[|es|].db.rows, id, q, Processing)
    ensures GoesOn(indexed, n, t, es, t', es')
    ensures FailuresOf(t'[|es'|], Origin(t[|es|], id)) == FailuresOf(t[|es|], Origin(t[|es|], id)) + 1
  {
    var s := t[|es|];
    RunFacts(indexed, t, es);
    ShadowNames(q);
    var newId := FreshId(s);
    var e := Resolve(w, n, 1, newId, 1, true);
    var msg := s.workers[w].msg.(attempts := n + 1);
    hide Inv, UniqueKeys, Delivery.IsRun, KeyTaken, IsDlq, Dlq;
    assert DeadLetter(indexed, s.db, q, msg, Some("failed"), newId, 1).outcome == Done;
    Then(indexed, n, t, es, e);
    t', es' := t + [Step(indexed, s, e)], es + [e];
  }

  // ----- from a harmful reclaim to the broken budget -----

  /** A pending row with attempt count k can still collect n + 1 - k failures. */
  lemma {:induction false} RunsOut(indexed: bool, n: nat, t: seq<Sys>, es: seq<Event>, id: Id, q: string, k: int)
    returns (t': seq<Sys>, es': seq<Event>)
    requires Delivery.IsRun(indexed, t, es) && At(t[|es|], id, q, k, Pending) && k <= n
    ensures GoesOn(indexed, n, t, es, t', es')
    ensures FailuresOf(t'[|es'|], Origin(t[|es|], id)) == FailuresOf(t[|es|], Origin(t[|es|], id)) + n + 1 - k
    decreases n - k
  {
    var t1, e1, w := Fetches(indexed, n, t, es, id, q, k);
    var t2, e2 := Fails(indexed, n, t1, e1, w, id, q, k);
    Chain(indexed, n, t, es, t1, e1, t2, e2);
    if k == n {
      t', es' := Buries(indexed, n, t2, e2, w, id, q);
      Chain(indexed, n, t, es, t2, e2, t', es');
    } else {
      var t3, e3 := Retries(indexed, n, t2, e2, w, id, q, k, k);
      Chain(indexed, n, t, es, t2, e2, t3, e3);
      t', es' := RunsOut(indexed, n, t3, e3, id, q, k + 1);
      Chain(indexed, n, t, es, t3, e3, t', es');
    }
  }

  /** The delivery whose row came back, and the one that fetches the row again, both record their
      failure under the attempt count they saw: one of the two is never counted. */
  lemma FailsTwice(indexed: bool, n: nat, t: seq<Sys>, es: seq<Event>, w: nat, id: Id, q: string, a: int)
    returns (t': seq<Sys>, es': seq<Event>)
    requires Delivery.IsRun(indexed, t, es) && Has(t[|es|], w, id, q, a, Failed) && a < n
    requires At(t[|es|], id, q, a, Pending)
    ensures GoesOn(indexed, n, t, es, t', es')
    ensures var s, s' := t[|es|], t'[|es'|];
            && At(s', id, q, a + 1, Pending) && s'.lineage == s.lineage
            && FailuresOf(s', Origin(s, id)) == FailuresOf(s, Origin(s, id)) + 2
  {
    var t1, e1, v := Fetches(indexed, n, t, es, id, q, a);
    var t2, e2 := Retries(indexed, n, t1, e1, w, id, q, a, a);
    Chain(indexed, n, t, es, t1, e1, t2, e2);
    var t3, e3 := Fails(indexed, n, t2, e2, v, id, q, a);
    Chain(indexed, n, t, es, t2, e2, t3, e3);
    var t4, e4, u := Fetches(indexed, n, t3, e3, id, q, a + 1);
    Chain(indexed, n, t, es, t3, e3, t4, e4);
    t', es' := Retries(indexed, n, t4, e4, v, id, q, a, a + 1);
    Chain(indexed, n, t, es, t4, e4, t', es');
  }

  /** A run that reclaims q after `es` and goes on, keeping to harmless reclaims from then on. */
  ghost predicate Reclaims(indexed: bool, n: nat, q: string, t: seq<Sys>, es: seq<Event>, t': seq<Sys>, es': seq<Event>) {
    && Delivery.IsRun(indexed, t', es')
    && |es| < |es'| && t'[..|es| + 1] == t && es'[..|es|] == es && es'[|es|] == ReclaimQueue(q)
    && forall i :: |es| < i < |es'| ==> Steady(t'[i], es'[i], n)
  }

  /** The delivery a harmful reclaim leaves without its row. */
  lemma HarmedDelivery(indexed: bool, n: nat, q: string, t: seq<Sys>, es: seq<Event>) returns (w: nat, t0: seq<Sys>, e0: seq<Event>)
    requires n > 0 && IsSteadyRun(indexed, n, t, es) && !Harmless(t[|es|], q, n)
    ensures e0 == es + [ReclaimQueue(q)] && Delivery.IsRun(indexed, t0, e0) && t0[..|t|] == t
    ensures var s, s' := t[|es|], t0[|e0|];
            && w in s'.workers && s'.workers[w].queue == q && s'.workers[w].phase != Succeeded
            && s'.workers[w].msg.attempts < n
            && At(s', s'.workers[w].msg.id, q, s'.workers[w].msg.attempts, Pending)
            && FailuresOf(s', Origin(s', s'.workers[w].msg.id)) == s'.workers[w].msg.attempts
  {
    hide Inv, BudgetInv, Harmless, Steady;
    var s := t[|es|];
    RunsKeepBudget(indexed, n, t, es, |es|);
    w := HarmedRow(s, q, n);
    t0, e0 := t + [Step(indexed, s, ReclaimQueue(q))], es + [ReclaimQueue(q)];
    assert Delivery.IsRun(indexed, t0, e0) by {
      hide Step;
    }
  }

  lemma HarmedRow(s: Sys, q: string, n: nat) returns (w: nat)
    requires Inv(s) && BudgetInv(s, n) && !Harmless(s, q, n)
    ensures w in s.workers && s.workers[w].queue == q && s.workers[w].phase != Succeeded && s.workers[w].msg.attempts < n
    ensures At(s, s.workers[w].msg.id, q, s.workers[w].msg.attempts, Processing)
    ensures FailuresOf(s, Origin(s, s.workers[w].msg.id)) == s.workers[w].msg.attempts
  {
    w :| w in s.workers && InProgress(s.workers[w]) && s.workers[w].queue == q && s.workers[w].msg.attempts < n
         && Is(s.db.rows, s.workers[w].msg.id, q, Processing);
    assert Follows(s.db.rows, s.workers[w], n);
    RowsKnown(s);
    assert !Tombstone(s.lineage, s.db.rows[s.workers[w].msg.id], s.workers[w].msg.id);
  }

  /** After any run within the budget: a reclaim that is not harmless lets some message go over it, at
      every MaxRetries, with or without the index, and without another reclaim. */
  lemma HarmfulReclaimBreaks(indexed: bool, n: nat, q: string, t: seq<Sys>, es: seq<Event>)
    returns (t': seq<Sys>, es': seq<Event>, l: Id)
    requires n > 0 && IsSteadyRun(indexed, n, t, es) && !Harmless(t[|es|], q, n)
    ensures Reclaims(indexed, n, q, t, es, t', es')
    ensures forall i :: |es| < i < |es'| ==> !es'[i].ReclaimQueue?
    ensures FailuresOf(t'[|es'|], l) == n + 2
  {
    var w, t0, e0 := HarmedDelivery(indexed, n, q, t, es);
    var s := t0[|e0|];
    var id, a := s.workers[w].msg.id, s.workers[w].msg.attempts;
    l := Origin(s, id);
    hide Harmless, At, Delivery.IsRun, Step, Enabled;
    var t1, e1 := t0, e0;
    if s.workers[w].phase == Fetched {
      t1, e1 := Fails(indexed, n, t0, e0, w, id, q, a);
    } else {
      Stays(indexed, n, t0, e0);
    }
    var t2, e2 := FailsTwice(indexed, n, t1, e1, w, id, q, a);
    Chain(indexed, n, t0, e0, t1, e1, t2, e2);
    t', es' := RunsOut(indexed, n, t2, e2, id, q, a + 1);
    Chain(indexed, n, t0, e0, t2, e2, t', es');
    AfterReclaim(indexed, n, q, t, es, t0, e0, t', es');
  }

  lemma Stays(indexed: bool, n: nat, t: seq<Sys>, es: seq<Event>)
    requires Delivery.IsRun(indexed, t, es)
    ensures GoesOn(indexed, n, t, es, t, es)
  {
    hide Step, Enabled;
  }

  lemma AfterReclaim(indexed: bool, n: nat, q: string, t: seq<Sys>, es: seq<Event>, t0: seq<Sys>, e0: seq<Event>, t': seq<Sys>, es': seq<Event>)
    requires Delivery.IsRun(indexed, t, es) && e0 == es + [ReclaimQueue(q)] && |t0| == |e0| + 1 && t0[..|t|] == t
    requires GoesOn(indexed, n, t0, e0, t', es')
    ensures Reclaims(indexed, n, q, t, es, t', es')
    ensures forall i :: |es| < i < |es'| ==> !es'[i].ReclaimQueue?
  {
    hide Step, Enabled, FixedLimit, Harmless;
    assert t'[..|es| + 1] == t'[..|t0|][..|t|];
    assert es'[..|es|] == es'[..|e0|][..|es|];
    assert es'[|es|] == es'[..|e0|][|es|];
  }

  /** After a harmless one the whole run is within the budget. */
  lemma HarmlessReclaimKeeps(indexed: bool, n: nat, q: string, t: seq<Sys>, es: seq<Event>, t': seq<Sys>, es': seq<Event>, l: Id)
    requires n > 0 && IsSteadyRun(indexed, n, t, es) && Harmless(t[|es|], q, n)
    requires Reclaims(indexed, n, q, t, es, t', es')
    ensures FailuresOf(t'[|es'|], l) <= n + 1
  {
    hide Step, Enabled, Harmless;
    forall i | 0 <= i < |es'| ensures Steady(t'[i], es'[i], n) {
      if i < |es| {
        assert t'[i] == t'[..|es| + 1][i] && es'[i] == es'[..|es|][i];
      } else if i == |es| {
        assert t'[i] == t'[..|es| + 1][i];
      }
    }
    FailuresBounded(indexed, n, t', es', |es'|, l);
  }

  /** The exact condition. In a run within the budget, a reclaim of q leaves every message within it for
      good if and only if no delivery in progress of q, with attempts to spare, has its row claimed. */
  lemma ReclaimKeepsBudgetIff(indexed: bool, n: nat, q: string, t: seq<Sys>, es: seq<Event>)
    requires n > 0 && IsSteadyRun(indexed, n, t, es)
    ensures Harmless(t[|es|], q, n) <==>
              forall t': seq<Sys>, es': seq<Event>, l :: Reclaims(indexed, n, q, t, es, t', es') ==> FailuresOf(t'[|es'|], l) <= n + 1
  {
    hide Step, Enabled, Harmless, Steady;
    if Harmless(t[|es|], q, n) {
      forall t': seq<Sys>, es': seq<Event>, l | Reclaims(indexed, n, q, t, es, t', es') ensures FailuresOf(t'[|es'|], l) <= n + 1 {
        HarmlessReclaimKeeps(indexed, n, q, t, es, t', es', l);
      }
    } else {
      var t', es', l := HarmfulReclaimBreaks(indexed, n, q, t, es);
    }
  }
}
