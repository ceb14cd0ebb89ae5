/** The storage-layer message and schedule values and the pure functions that build new ones
    from old ones (internal/storage/storage.go). */
module Messages {
  import opened Naming

  /** Message ids are opaque: only equality and freshness matter. */
  datatype Id = Id(serial: int)
  type Time = int

  /** Go's zero time, the "not set" value of a timestamp. */
  const ZERO_TIME: Time := 0

  const MICROSECOND: Time := 1000

  datatype Option<+T> = None | Some(value: T)

  datatype Message = Message(
    id: Id,
    queue: string,
    payload: seq<bv8>,
    attempts: int,
    maxRetries: int,
    createdAt: Time,
    scheduledAt: Time,
    dedupeKey: string,
    priority: int,
    error: string,
    deadAt: Time)

  datatype Schedule = Schedule(
    id: string,
    queue: string,
    payload: seq<bv8>,
    interval: int,
    nextRunAt: Time,
    enabled: bool)

  /** The copy of `msg` that goes to the shadow queue, under a new id. */
  function DeadLetterMessage(queue: string, msg: Message, err: Option<string>, newId: Id, now: Time): Message {
    msg.(queue := Dlq(queue), id := newId, scheduledAt := now, deadAt := now,
         error := if err.Some? then err.value else "")
  }

  /** The copy of a dead letter that goes back to its source queue. */
  function ReplayMessage(queue: string, msg: Message, now: Time): Message {
    msg.(queue := queue, scheduledAt := now, error := "", deadAt := ZERO_TIME)
  }

  function PeriodicMessage(s: Schedule, newId: Id, now: Time): Message {
    Message(newId, s.queue, s.payload, 0, 0, now, now, "", 0, "", ZERO_TIME)
  }

  /** What one occurrence of a periodic job enqueues: a new message of the job's queue with its payload,
      created and due now, not attempted yet, without key, priority or error. */
  ghost predicate IsOccurrence(m: Message, s: Schedule, newId: Id, now: Time) {
    && m.id == newId && m.queue == s.queue && m.payload == s.payload
    && m.createdAt == now && m.scheduledAt == now
    && m.attempts == 0 && m.maxRetries == 0 && m.priority == 0
    && m.dedupeKey == "" && m.error == "" && m.deadAt == ZERO_TIME
  }

  /** What a message keeps through every transition: payload, creation time, dedupe key and
      priority. */
  ghost predicate SameContent(a: Message, b: Message) {
    && a.payload == b.payload
    && a.createdAt == b.createdAt
    && a.dedupeKey == b.dedupeKey
    && a.priority == b.priority
  }

  /** Dead-lettering and replaying gives the message back under the letter's id, due at once:
      nothing else of it is lost on the way, its attempt count least of all. */
  lemma ReplayRestores(queue: string, msg: Message, err: Option<string>, newId: Id, died: Time, now: Time)
    requires msg.queue == queue && msg.error == "" && msg.deadAt == ZERO_TIME
    ensures ReplayMessage(queue, DeadLetterMessage(queue, msg, err, newId, died), now)
            == msg.(id := newId, scheduledAt := now)
  {
  }
}
