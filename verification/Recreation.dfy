/** Deleting a schedule and creating its id again: the slots go on rising exactly if the new cadence
    starts past every slot already used. */
module Recreation {
  import opened Messages
  import opened Cadence
  import opened Periodic

  ghost predicate StrictlyRising(slots: seq<Time>) {
    forall j :: 0 < j < |slots| ==> slots[j - 1] < slots[j]
  }

  /** A start at or before the last slot used. */
  predicate Reaches(slots: seq<Time>, start: Time) {
    slots != [] && start <= slots[|slots| - 1]
  }

  /** The slots of `id` rise so far, and its next one, if it is there, is past them. */
  ghost predicate Ahead(s: State, id: string) {
    && Keyed(s.schedules) && StrictlyRising(SlotsOf(s.sent, id))
    && (id in s.schedules ==> !Reaches(SlotsOf(s.sent, id), s.schedules[id].nextRunAt))
  }

  predicate Creates(e: Event, id: string) {
    e.Create? && e.s.id == id
  }

  /** If the event creates `id`, its start is past the slots used. */
  predicate StartsPast(s: State, e: Event, id: string) {
    Creates(e, id) ==> !Reaches(SlotsOf(s.sent, id), e.s.nextRunAt)
  }

  /** Whatever the snapshots, those of a deleted schedule and with another interval included. */
  lemma RunAhead(s: State, p: nat, id: string)
    requires Ahead(s, id) && Enabled(s, Run(p))
    ensures Ahead(Step(s, Run(p)), id)
  {
    var s', r := Step(s, Run(p)), s.polls[p];
    if r.snapshot.interval > 0 && RunTakes(s.schedules, r.snapshot, r.now) {
      assert s'.sent[..|s.sent|] == s.sent;
      NextSlotIsEarliest(r.snapshot.nextRunAt, r.snapshot.interval, r.now);
      hide NextSlot;
    }
  }

  lemma StepAhead(s: State, e: Event, id: string)
    requires Ahead(s, id) && Enabled(s, e) && StartsPast(s, e, id)
    ensures Ahead(Step(s, e), id)
  {
    if e.Run? {
      RunAhead(s, e.p, id);
    }
  }

  /** Over every run whose creations of `id` all start past the slots used by then, deletions and
      recreations included, the slots rise strictly: none is used twice or after a later one. */
  lemma {:induction false} RunsStayAhead(trace: seq<State>, events: seq<Event>, id: string, i: nat)
    requires IsRun(trace, events) && i < |trace|
    requires forall k :: 0 <= k < i ==> StartsPast(trace[k], events[k], id)
    ensures Ahead(trace[i], id)
  {
    if i > 0 {
      hide Enabled, Step, Ahead, StartsPast;
      RunsStayAhead(trace, events, id, i - 1);
      assert IsStep(trace[i - 1], events[i - 1], trace[i]);
      StepAhead(trace[i - 1], events[i - 1], id);
    }
  }

  // ----- the exact condition -----

  /** The run goes on with the creation of `c`, and its id is not created again. */
  ghost predicate GoesOnWith(trace: seq<State>, events: seq<Event>, c: Schedule, trace': seq<State>, events': seq<Event>) {
    && IsRun(trace', events') && trace <= trace' && events + [Create(c)] <= events'
    && forall k :: |events| < k < |events'| ==> !Creates(events'[k], c.id)
  }

  /** Enabled, polled by a clock at its start and run, the new schedule sends for that start. */
  lemma StartIsSent(trace: seq<State>, events: seq<Event>, c: Schedule) returns (trace': seq<State>, events': seq<Event>)
    requires IsRun(trace, events) && Enabled(trace[|events|], Create(c)) && c.interval > 0
    ensures GoesOnWith(trace, events, c, trace', events')
    ensures SlotsOf(trace'[|events'|].sent, c.id) == SlotsOf(trace[|events|].sent, c.id) + [c.nextRunAt]
  {
    var s := trace[|events|];
    var s1 := Step(s, Create(c));
    var s2 := Step(s1, Enable(c.id, true));
    var s3 := Step(s2, PollAt(0, c.id, c.nextRunAt));
    var s4 := Step(s3, Run(0));
    trace' := trace + [s1, s2, s3, s4];
    events' := events + [Create(c), Enable(c.id, true), PollAt(0, c.id, c.nextRunAt), Run(0)];
    assert s4.sent[..|s.sent|] == s.sent;
    hide SlotsOf, Enabled, Step, Creates;
    assert trace'[|events'|] == s4;
    forall k | 0 <= k < |events'| ensures IsStep(trace'[k], events'[k], trace'[k + 1]) {
      if k < |events| {
        assert IsStep(trace[k], events[k], trace[k + 1]);
      }
    }
  }

  /** Take any run whose creations of the id all started past the slots used, and one creation more. The
      slots can come to repeat or to go back, with no further creation, if and only if this one starts
      at or before the last slot used. */
  lemma RecreationBreaksIff(trace: seq<State>, events: seq<Event>, c: Schedule)
    requires IsRun(trace, events) && (forall k :: 0 <= k < |events| ==> StartsPast(trace[k], events[k], c.id))
    requires Enabled(trace[|events|], Create(c)) && c.interval > 0
    ensures (exists trace': seq<State>, events': seq<Event> ::
               GoesOnWith(trace, events, c, trace', events') && !StrictlyRising(SlotsOf(trace'[|events'|].sent, c.id)))
            <==> Reaches(SlotsOf(trace[|events|].sent, c.id), c.nextRunAt)
  {
    var slots := SlotsOf(trace[|events|].sent, c.id);
    hide Enabled, Step;
    if Reaches(slots, c.nextRunAt) {
      var trace', events' := StartIsSent(trace, events, c);
      var slots' := SlotsOf(trace'[|events'|].sent, c.id);
      assert slots'[|slots| - 1] >= slots'[|slots|];
    } else {
      forall trace': seq<State>, events': seq<Event> | GoesOnWith(trace, events, c, trace', events')
        ensures StrictlyRising(SlotsOf(trace'[|events'|].sent, c.id))
      {
        PastStartKeeps(trace, events, c, trace', events');
      }
    }
  }

  lemma PastStartKeeps(trace: seq<State>, events: seq<Event>, c: Schedule, trace': seq<State>, events': seq<Event>)
    requires |trace| == |events| + 1 && (forall k :: 0 <= k < |events| ==> StartsPast(trace[k], events[k], c.id))
    requires GoesOnWith(trace, events, c, trace', events')
    requires !Reaches(SlotsOf(trace[|events|].sent, c.id), c.nextRunAt)
    ensures StrictlyRising(SlotsOf(trace'[|events'|].sent, c.id))
  {
    hide IsStep, Reaches;
    forall k | 0 <= k < |events'| ensures StartsPast(trace'[k], events'[k], c.id) {
      if k < |events| {
        assert events'[k] == (events + [Create(c)])[k];
        assert StartsPast(trace[k], events[k], c.id);
      } else if k == |events| {
        assert events'[k] == (events + [Create(c)])[k];
      }
    }
    RunsStayAhead(trace', events', c.id, |events'|);
  }

  /** Every schedule, deleted and created again as it was, can send for its first slot twice. */
  lemma RecreationRepeatsSlot(c: Schedule) returns (trace: seq<State>, events: seq<Event>)
    requires c.interval > 0
    ensures IsRun(trace, events) && SlotsOf(trace[|events|].sent, c.id) == [c.nextRunAt, c.nextRunAt]
  {
    hide SlotsOf;
    var t, es := StartIsSent([INITIAL], [], c);
    assert SlotsOf(INITIAL.sent, c.id) == [] by {
      NothingSent(c.id);
    }
    var deleted := Step(t[|es|], Delete(c.id));
    hide StrictlyRising;
    assert IsRun(t + [deleted], es + [Delete(c.id)]) by {
      assert IsStep(t[|es|], Delete(c.id), deleted);
    }
    trace, events := StartIsSent(t + [deleted], es + [Delete(c.id)], c);
  }

  lemma NothingSent(id: string)
    ensures SlotsOf([], id) == []
  {
  }
}
