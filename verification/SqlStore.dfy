/** The SQL stores as an object: each method runs its transaction statement by statement on the
    tables, rolling back where the code does, and is proved to be one atomic step of the
    status-table machine. */
module SqlStore {
  import opened Naming
  import opened Messages
  import opened Cadence
  import M = SqlMachine

  class Store {
    const indexed: bool
    var rows: M.Table
    var stats: map<string, M.Stats>
    var schedules: Schedules

    function Db(): M.Db
      reads this
    {
      M.Db(rows, stats)
    }

    constructor (indexed: bool)
      ensures Db() == M.EMPTY_DB && schedules == map[] && this.indexed == indexed
    {
      this.indexed := indexed;
      rows := map[];
      stats := map[];
      schedules := map[];
    }

    /** INSERT, with ON CONFLICT DO NOTHING for keyed messages of an indexed store. */
    method InsertRow(q: string, msg: Message, now: Time) returns (outcome: M.Outcome)
      modifies this`rows
      ensures
        match M.Insert(indexed, old(rows), q, msg, now)
        case Inserted(r) => outcome == M.Done && rows == r
        case KeySkipped => outcome == M.Skipped && rows == old(rows)
        case IdViolation => outcome == M.Conflict && rows == old(rows)
    {
      var status := if IsDlq(q) then M.Dead else M.Pending;
      if indexed && msg.dedupeKey != "" && status != M.Dead && M.KeyTaken(rows, q, msg.dedupeKey) {
        return M.Skipped;
      }
      if msg.id in rows {
        return M.Conflict;
      }
      rows := rows[msg.id := M.Row(M.Stored(q, msg, now), status)];
      outcome := M.Done;
    }

    /** INSERT INTO shoebox_stats ... ON CONFLICT(queue) DO UPDATE. */
    method AddStats(q: string, processed: nat, errors: nat, retries: nat, dead: nat)
      modifies this`stats
      ensures stats == M.Bump(old(Db()), q, processed, errors, retries, dead)
    {
      if q in stats {
        var s := stats[q];
        stats := stats[q := M.Stats(s.processed + processed, s.errors + errors, s.retries + retries, s.dead + dead)];
      } else {
        stats := stats[q := M.Stats(processed, errors, retries, dead)];
      }
    }

    method Enqueue(q: string, msg: Message, now: Time) returns (outcome: M.Outcome)
      modifies `rows, `stats
      ensures M.Tx(Db(), outcome) == M.Enqueue(indexed, old(Db()), q, msg, now)
    {
      outcome := InsertRow(q, msg, now);
    }

    method EnqueueBatch(q: string, msgs: seq<Message>, now: Time) returns (outcome: M.Outcome)
      modifies `rows, `stats
      ensures M.Tx(Db(), outcome) == M.EnqueueBatch(indexed, old(Db()), q, msgs, now)
    {
      var snapshot := rows;
      for i := 0 to |msgs|
        invariant stats == old(stats)
        invariant M.InsertFirst(indexed, old(rows), q, msgs, i, now) == M.Inserted(rows)
      {
        outcome := InsertRow(q, M.BatchStamp(msgs[i], i, now), now);
        if outcome == M.Conflict {
          InsertFirstFails(indexed, snapshot, q, msgs, i + 1, now);
          rows := snapshot;
          return;
        }
      }
      outcome := M.Done;
    }

    /** Marks the selected rows claimed, one UPDATE each. */
    method Dequeue(q: string, selected: seq<Id>, now: Time)
      requires forall id :: id in selected ==> id in M.Due(rows, q, now)
      modifies `rows, `stats
      ensures Db() == M.Dequeue(old(Db()), set id | id in selected)
    {
      for i := 0 to |selected|
        invariant stats == old(stats) && rows.Keys == old(rows).Keys
        invariant rows == M.Dequeue(old(Db()), set id | id in selected[..i]).rows
      {
        var id := selected[i];
        assert id in selected;
        rows := rows[id := rows[id].(status := M.Processing)];
      }
      assert selected[..|selected|] == selected;
    }

    /** DELETE ... WHERE id = ? AND queue = ? AND status = ?, with the number of affected rows. */
    method DeleteRow(q: string, id: Id, status: M.Status) returns (affected: nat)
      modifies this`rows
      ensures affected == if M.Is(old(rows), id, q, status) then 1 else 0
      ensures rows == old(rows) - if affected == 1 then {id} else {}
    {
      if M.Is(rows, id, q, status) {
        rows := rows - {id};
        return 1;
      }
      assert rows == rows - {};
      affected := 0;
    }

    method Ack(q: string, id: Id)
      modifies `rows, `stats
      ensures Db() == M.Ack(old(Db()), q, id)
    {
      var affected := DeleteRow(q, id, M.Processing);
      if affected == 0 {
        return;
      }
      AddStats(q, 1, 0, 0, 0);
    }

    /** One guarded DELETE per id, summing the affected rows; repeated and stale ids affect none. */
    method AckBatch(q: string, ids: seq<Id>)
      modifies `rows, `stats
      ensures Db() == M.AckBatch(old(Db()), q, ids)
    {
      if |ids| == 0 {
        return;
      }
      ghost var before := Db();
      var processed := 0;
      for i := 0 to |ids|
        invariant stats == before.stats
        invariant rows == before.rows - M.Ackable(before, q, ids[..i])
        invariant processed == |M.Ackable(before, q, ids[..i])|
      {
        hide M.Ackable, M.Is;
        AckableGrows(before, q, ids, i);
        var affected := DeleteRow(q, ids[i], M.Processing);
        processed := processed + affected;
      }
      assert ids[..|ids|] == ids;
      if processed > 0 {
        AddStats(q, processed, 0, 0, 0);
      }
    }

    method Retry(q: string, msg: Message, now: Time) returns (outcome: M.Outcome)
      modifies `rows, `stats
      ensures M.Tx(Db(), outcome) == M.Retry(indexed, old(Db()), q, msg, now)
    {
      var snapshot := rows;
      var affected := DeleteRow(q, msg.id, M.Processing);
      if affected != 1 {
        return M.Empty;
      }
      outcome := InsertRow(q, msg, now);
      if outcome != M.Done {
        rows := snapshot;
        return M.Conflict;
      }
      AddStats(q, 0, 1, 1, 0);
    }

    method DeadLetter(q: string, msg: Message, err: Option<string>, newId: Id, now: Time) returns (outcome: M.Outcome)
      modifies `rows, `stats
      ensures M.Tx(Db(), outcome) == M.DeadLetter(indexed, old(Db()), q, msg, err, newId, now)
    {
      var snapshot := rows;
      var dead := DeadLetterMessage(q, msg, err, newId, now);
      outcome := InsertRow(dead.queue, dead, now);
      if outcome != M.Done {
        rows := snapshot;
        return M.Conflict;
      }
      if !M.Is(rows, msg.id, q, M.Processing) {
        rows := snapshot;
        return M.Empty;
      }
      rows := rows[msg.id := M.Row(rows[msg.id].msg.(error := dead.error, deadAt := dead.deadAt), M.Dead)];
      AddStats(q, 0, 0, 0, 1);
    }

    method Replay(q: string, id: Id, now: Time) returns (outcome: M.Outcome)
      modifies `rows, `stats
      ensures M.Tx(Db(), outcome) == M.Replay(indexed, old(Db()), q, id, now)
    {
      var snapshot := rows;
      if !M.Is(rows, id, Dlq(q), M.Dead) {
        return M.Empty;
      }
      var msg := ReplayMessage(q, rows[id].msg, now);
      var _ := DeleteRow(Dlq(q), id, M.Dead);
      outcome := InsertRow(q, msg, now);
      if outcome != M.Done {
        rows := snapshot;
        return M.Conflict;
      }
      AddStats(Dlq(q), 1, 0, 0, 0);
    }

    /** UPDATE ... WHERE enabled AND next_run_at = snapshot AND next_run_at <= now, then the insert of
        the periodic message; if the insert fails the update is rolled back with it. */
    method RunSchedule(schedule: Schedule, now: Time, next: Time, newId: Id) returns (ran: bool)
      modifies `rows, `stats, `schedules
      ensures ran == (RunTakes(old(schedules), schedule, now) && newId !in old(rows))
      ensures schedules == if ran then AfterRun(old(schedules), schedule, now, next) else old(schedules)
      ensures Db() == if ran
                      then M.Enqueue(indexed, old(Db()), schedule.queue, PeriodicMessage(schedule, newId, now), now).db
                      else old(Db())
      ensures ran ==> newId in rows && IsOccurrence(rows[newId].msg, schedule, newId, now)
    {
      if schedule.id !in schedules {
        return false;
      }
      var current := schedules[schedule.id];
      if !(current.enabled && current.nextRunAt == schedule.nextRunAt && current.nextRunAt <= now) {
        return false;
      }
      schedules := schedules[schedule.id := current.(nextRunAt := next)];
      var outcome := InsertRow(schedule.queue, PeriodicMessage(schedule, newId, now), now);
      if outcome == M.Conflict {
        schedules := schedules[schedule.id := current];
        return false;
      }
      ran := true;
    }

    method Reclaim(q: string)
      modifies `rows, `stats
      ensures Db() == M.Reclaim(old(Db()), q)
    {
      rows := map id | id in rows ::
        if rows[id].msg.queue == q && rows[id].status == M.Processing then rows[id].(status := M.Pending) else rows[id];
    }
  }

  lemma InsertFirstFails(indexed: bool, rows: M.Table, q: string, msgs: seq<Message>, n: nat, now: Time)
    requires n <= |msgs| && M.InsertFirst(indexed, rows, q, msgs, n, now) == M.IdViolation
    ensures M.InsertFirst(indexed, rows, q, msgs, |msgs|, now) == M.IdViolation
    decreases |msgs| - n
  {
    if n < |msgs| {
      InsertFirstFails(indexed, rows, q, msgs, n + 1, now);
    }
  }

  lemma AckableGrows(db: M.Db, q: string, ids: seq<Id>, i: nat)
    requires i < |ids|
    ensures
      var gone, id := M.Ackable(db, q, ids[..i]), ids[i];
      var more := if M.Is(db.rows - gone, id, q, M.Processing) then {id} else {};
      && M.Ackable(db, q, ids[..i + 1]) == gone + more
      && db.rows - gone - more == db.rows - M.Ackable(db, q, ids[..i + 1])
      && |M.Ackable(db, q, ids[..i + 1])| == |gone| + |more|
  {
    var gone, id := M.Ackable(db, q, ids[..i]), ids[i];
    var more := if M.Is(db.rows - gone, id, q, M.Processing) then {id} else {};
    assert ids[..i + 1] == ids[..i] + [id];
    assert M.Ackable(db, q, ids[..i + 1]) == gone + more && gone !! more;
    hide M.Ackable;
    assert db.rows - gone - more == db.rows - (gone + more);
  }
}
