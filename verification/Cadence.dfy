/** When a periodic schedule runs next: the broker's catch-up loop and its closed form. */
module Cadence {
  import opened Messages
  import opened Arithmetic

  /** The first time after `now` and after `from` that is a whole number of intervals past `from`. */
  function NextSlot(from: Time, interval: int, now: Time): Time
    requires interval > 0
  {
    if now < from then from + interval else from + ((now - from) / interval + 1) * interval
  }

  /** A time on the cadence that begins at `start`. */
  ghost predicate OnGrid(start: Time, interval: int, t: Time) {
    exists k: nat :: t == start + k * interval
  }

  /** `next := NextRunAt + Interval`, then one interval at a time until it is past `now`. */
  method CatchUp(from: Time, interval: int, now: Time) returns (next: Time)
    requires interval > 0
    ensures next == NextSlot(from, interval, now)
  {
    next := from + interval;
    ghost var k := 1;
    while next <= now
      invariant k >= 1 && next == from + k * interval
      invariant k == 1 || next - interval <= now
      decreases now - next
    {
      assert next + interval == from + (k + 1) * interval;
      next := next + interval;
      k := k + 1;
    }
    if now >= from {
      assert (k - 1) * interval <= now - from < k * interval;
      QuotientIs(now - from, interval, k - 1);
    } else {
      assert k * interval <= interval;
    }
  }

  lemma QuotientIs(a: int, b: int, q: int)
    requires b > 0 && q * b <= a < q * b + b
    ensures a / b == q
  {
    var d, r := a / b, a % b;
    assert a == d * b + r;
    if d < q {
      TimesGrows(d + 1, q, b);
    } else if d > q {
      TimesGrows(q + 1, d, b);
    }
  }

  /** What the closed form promises: the next slot is on the cadence, past both `from` and `now`,
      and the earliest such. */
  lemma NextSlotIsEarliest(from: Time, interval: int, now: Time)
    requires interval > 0
    ensures var next := NextSlot(from, interval, now);
            && OnGrid(from, interval, next) && next >= from + interval && next > now
            && (next == from + interval || next - interval <= now)
  {
    var next := NextSlot(from, interval, now);
    if now < from {
      assert next == from + 1 * interval;
    } else {
      var q := (now - from) / interval;
      assert q * interval + (now - from) % interval == now - from;
      assert next == from + (q + 1) * interval && q >= 0;
      assert q * interval >= 0;
      assert (q + 1) * interval == q * interval + interval;
    }
  }

  lemma GridIsClosed(start: Time, interval: int, t: Time, u: Time)
    requires OnGrid(start, interval, t) && OnGrid(t, interval, u)
    ensures OnGrid(start, interval, u)
  {
    var j: nat :| t == start + j * interval;
    var k: nat :| u == t + k * interval;
    assert u == start + (j + k) * interval;
  }

  // ----- the stores' compare-and-set -----

  type Schedules = map<string, Schedule>

  predicate Due(s: Schedule, now: Time) {
    s.enabled && s.nextRunAt <= now
  }

  /** A run of a snapshot goes through only if the schedule is still due and still at the slot the
      snapshot shows. */
  predicate RunTakes(schedules: Schedules, snapshot: Schedule, now: Time) {
    && snapshot.id in schedules
    && Due(schedules[snapshot.id], now)
    && schedules[snapshot.id].nextRunAt == snapshot.nextRunAt
  }

  function AfterRun(schedules: Schedules, snapshot: Schedule, now: Time, next: Time): Schedules {
    if RunTakes(schedules, snapshot, now)
    then schedules[snapshot.id := schedules[snapshot.id].(nextRunAt := next)]
    else schedules
  }
}
