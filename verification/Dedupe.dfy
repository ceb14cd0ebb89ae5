/** What the in-process dedupe stores have in common: the calls, and which calls forget a key. */
module Dedupe {
  import opened Messages
  import opened Naming

  datatype Op = Present(key: string, ttl: int, now: Time) | Forget(key: string) | Purge(queue: string)

  predicate Forgets(op: Op, key: string) {
    (op.Forget? && op.key == key) || (op.Purge? && HasPrefix(key, op.queue + ":"))
  }

  /** A key of one of the queue's messages. */
  ghost predicate OfQueue(key: string, queue: string) {
    exists rest :: key == queue + ":" + rest
  }

  lemma OfQueueIsPrefix(key: string, queue: string)
    ensures OfQueue(key, queue) <==> HasPrefix(key, queue + ":")
  {
    if HasPrefix(key, queue + ":") {
      assert key == queue + ":" + key[|queue| + 1..];
    }
    if rest :| key == queue + ":" + rest {
      assert key[..|queue| + 1] == queue + ":";
    }
  }

  predicate Presents(op: Op, key: string) {
    op.Present? && op.key == key
  }

  ghost predicate Drops(op: Op, key: string) {
    op == Forget(key) || (op.Purge? && OfQueue(key, op.queue))
  }

  /** What it is for a call to forget a key: a Delete of it, or a purge of its queue. */
  lemma ForgetsIs(op: Op, key: string)
    ensures Forgets(op, key) <==> Drops(op, key)
  {
    if op.Purge? {
      OfQueueIsPrefix(key, op.queue);
    }
  }
}
