/** What each call on the Memory store adds to its lists, field by field, and what it leaves alone. */
module MemoryEffects {
  import opened Naming
  import opened Messages
  import opened DeliveryOrder
  import opened MemoryStore
  import opened SqlEffects

  /** One message at the end of one list; nothing else of any list changed. */
  ghost predicate Adds(m: Mem, m': Mem, q: string) {
    && |ListOf(m', q)| == |ListOf(m, q)| + 1 && ListOf(m', q)[..|ListOf(m, q)|] == ListOf(m, q)
    && forall p :: p != q ==> ListOf(m', p) == ListOf(m, p)
  }

  function Last(m: Mem, q: string): Message
    requires ListOf(m, q) != []
  {
    ListOf(m, q)[|ListOf(m, q)| - 1]
  }

  /** An enqueue appends the message, with timestamps that were not set filled in: created now, due when
      created. */
  lemma EnqueueAdds(m: Mem, q: string, msg: Message, now: Time)
    ensures var m' := Append(m, q, [Stamp(msg, now)]);
            && Adds(m, m', q) && m'.inflight == m.inflight && m'.counters == m.counters
            && var x := Last(m', q);
               && SameColumns(x, msg) && x.queue == msg.queue
               && x.createdAt == (if msg.createdAt == ZERO_TIME then now else msg.createdAt)
               && x.scheduledAt == (if msg.scheduledAt == ZERO_TIME then x.createdAt else msg.scheduledAt)
  {
  }

  /** A batch appends its messages in order; unset creation times are spread over microseconds. */
  lemma {:induction false} BatchAdds(msgs: seq<Message>, n: nat, now: Time)
    requires n <= |msgs|
    ensures |StampAll(msgs, n, now)| == n
    ensures forall k :: 0 <= k < n ==>
              var x := StampAll(msgs, n, now)[k];
              && SameColumns(x, msgs[k]) && x.queue == msgs[k].queue
              && x.createdAt == (if msgs[k].createdAt == ZERO_TIME then now + k * 1000 else msgs[k].createdAt)
              && x.scheduledAt == (if msgs[k].scheduledAt != ZERO_TIME then msgs[k].scheduledAt
                                   else if msgs[k].createdAt == ZERO_TIME then now else msgs[k].createdAt)
  {
    if n > 0 {
      BatchAdds(msgs, n - 1, now);
    }
  }

  /** A retry appends the message as it is handed in, attempt count and time included, and takes its id
      out of flight. */
  lemma RetryAdds(m: Mem, q: string, msg: Message)
    ensures var m' := Retried(m, q, msg);
            && Adds(m, m', q) && SameColumns(Last(m', q), msg) && Last(m', q).queue == q
            && Last(m', q).createdAt == msg.createdAt && Last(m', q).scheduledAt == msg.scheduledAt
            && InflightOf(m', q) == InflightOf(m, q) - {msg.id} && (forall p :: p != q ==> InflightOf(m', p) == InflightOf(m, p))
  {
  }

  /** A dead-lettering appends the letter to the shadow queue: the message handed in under a new id, due
      and dead now with the text of the error. */
  lemma DeadLetterAdds(m: Mem, q: string, msg: Message, err: Option<string>, newId: Id, now: Time)
    ensures var m' := DeadLettered(m, q, msg, err, newId, now);
            && Adds(m, m', q + ".dlq")
            && InflightOf(m', q) == InflightOf(m, q) - {msg.id} && (forall p :: p != q ==> InflightOf(m', p) == InflightOf(m, p))
            && var x := Last(m', q + ".dlq");
               && x.id == newId && x.queue == q + ".dlq" && x.error == TextOf(err) && x.deadAt == now && x.scheduledAt == now
               && x.payload == msg.payload && x.attempts == msg.attempts && x.maxRetries == msg.maxRetries
               && x.createdAt == msg.createdAt && x.dedupeKey == msg.dedupeKey && x.priority == msg.priority
  {
  }

  /** A replay takes the letter out of the shadow queue and appends it to the queue, due now, with its
      error gone. */
  lemma ReplayMoves(m: Mem, q: string, dead: Message, now: Time)
    requires dead in ListOf(m, q + ".dlq")
    ensures var m' := Replayed(m, q, dead, now);
            && ListOf(m', q + ".dlq") == Remove(ListOf(m, q + ".dlq"), dead)
            && |ListOf(m', q)| == |ListOf(m, q)| + 1 && ListOf(m', q)[..|ListOf(m, q)|] == ListOf(m, q)
            && (forall p :: p != q && p != q + ".dlq" ==> ListOf(m', p) == ListOf(m, p)) && m'.inflight == m.inflight
            && var x := Last(m', q);
               && x.queue == q && x.scheduledAt == now && x.error == "" && x.deadAt == ZERO_TIME
               && x.id == dead.id && x.payload == dead.payload && x.attempts == dead.attempts && x.maxRetries == dead.maxRetries
               && x.createdAt == dead.createdAt && x.dedupeKey == dead.dedupeKey && x.priority == dead.priority
  {
    ShadowNames(q);
    assert Dlq(q) == q + ".dlq";
  }
}
