/** The unbounded dedupe store: a map from key to expiry that is swept, when an accepted key makes it
    larger than a threshold, of everything expired. */
module DedupeTtl {
  import opened Messages
  import opened Naming
  import opened Dedupe

  type Seen = map<string, Time>

  const SWEEP_ABOVE: nat := 1024

  /** The answer to a presented key: it is a duplicate. */
  predicate Live(seen: Seen, key: string, now: Time) {
    key in seen && now < seen[key]
  }

  function Purged(seen: Seen, queue: string): Seen {
    map k | k in seen && !HasPrefix(k, queue + ":") :: seen[k]
  }

  function Swept(seen: Seen, now: Time): Seen {
    map k | k in seen && now < seen[k] :: seen[k]
  }

  function Accept(seen: Seen, key: string, ttl: int, now: Time): Seen {
    var added := seen[key := now + ttl];
    if |added| > SWEEP_ABOVE then Swept(added, now) else added
  }

  /** The store's own map. */
  function After(seen: Seen, op: Op): Seen {
    match op
    case Present(key, ttl, now) => if Live(seen, key, now) then seen else Accept(seen, key, ttl, now)
    case Forget(key) => seen - {key}
    case Purge(queue) => Purged(seen, queue)
  }

  /** A map that is never swept. */
  function AfterUnswept(seen: Seen, op: Op): Seen {
    match op
    case Present(key, ttl, now) => if Live(seen, key, now) then seen else seen[key := now + ttl]
    case Forget(key) => seen - {key}
    case Purge(queue) => Purged(seen, queue)
  }

  class Store {
    var seen: Seen

    constructor ()
      ensures seen == map[]
    {
      seen := map[];
    }

    method SeenOrAdd(key: string, ttl: int, now: Time) returns (dup: bool)
      modifies this
      ensures dup == Live(old(seen), key, now)
      ensures seen == After(old(seen), Present(key, ttl, now))
    {
      if key in seen && now < seen[key] {
        return true;
      }
      seen := seen[key := now + ttl];
      if |seen| > SWEEP_ABOVE {
        ghost var added := seen;
        var todo := seen.Keys;
        while todo != {}
          invariant todo <= added.Keys
          invariant seen == map k | k in added && (k in todo || now < added[k]) :: added[k]
          decreases |todo|
        {
          var k :| k in todo;
          if now >= seen[k] {
            seen := seen - {k};
          }
          todo := todo - {k};
        }
      }
      dup := false;
    }

    method Delete(key: string)
      modifies this
      ensures seen == After(old(seen), Forget(key))
    {
      seen := seen - {key};
    }

    method PurgeQueue(queue: string)
      modifies this
      ensures seen == After(old(seen), Purge(queue))
    {
      var prefix := queue + ":";
      ghost var all := seen;
      var todo := seen.Keys;
      while todo != {}
        invariant todo <= all.Keys
        invariant seen == map k | k in all && (k in todo || !HasPrefix(k, prefix)) :: all[k]
        decreases |todo|
      {
        var k :| k in todo;
        if HasPrefix(k, prefix) {
          seen := seen - {k};
        }
        todo := todo - {k};
      }
    }
  }

  // ----- runs -----

  function Run(ops: seq<Op>, n: nat): Seen
    requires n <= |ops|
  {
    if n == 0 then map[] else After(Run(ops, n - 1), ops[n - 1])
  }

  function RunUnswept(ops: seq<Op>, n: nat): Seen
    requires n <= |ops|
  {
    if n == 0 then map[] else AfterUnswept(RunUnswept(ops, n - 1), ops[n - 1])
  }

  /** The clock readings do not go back. Readings taken in one process carry a monotonic part that
      comparisons use, so the store's own never do. */
  ghost predicate Monotone(ops: seq<Op>) {
    forall i, j :: 0 <= i < j < |ops| && ops[i].Present? && ops[j].Present? ==> ops[i].now <= ops[j].now
  }

  /** Call `i` was accepted as new. */
  predicate Accepted(ops: seq<Op>, i: nat)
    requires i < |ops|
  {
    ops[i].Present? && !Live(Run(ops, i), ops[i].key, ops[i].now)
  }

  /** What sweeps have lost has expired by time `t`. */
  ghost predicate SweptApart(seen: Seen, unswept: Seen, t: Time) {
    && (forall k :: k in seen ==> k in unswept && unswept[k] == seen[k])
    && (forall k :: k in unswept && k !in seen ==> unswept[k] <= t)
  }

  lemma StepSweptApart(seen: Seen, unswept: Seen, op: Op, t: Time)
    requires SweptApart(seen, unswept, t)
    requires op.Present? ==> op.now <= t && SweptApart(seen, unswept, op.now)
    ensures SweptApart(After(seen, op), AfterUnswept(unswept, op), t)
  {
    hide HasPrefix;
  }

  /** ... for any `t` no earlier than the clock readings so far. */
  lemma {:induction false} SweepLosesOnlyExpired(ops: seq<Op>, n: nat, t: Time)
    requires Monotone(ops) && n <= |ops| && forall i :: 0 <= i < n && ops[i].Present? ==> ops[i].now <= t
    ensures SweptApart(Run(ops, n), RunUnswept(ops, n), t)
  {
    hide After, AfterUnswept, SweptApart;
    if n == 0 {
      NothingSwept(t);
    } else {
      SweepLosesOnlyExpired(ops, n - 1, t);
      if ops[n - 1].Present? {
        SweepLosesOnlyExpired(ops, n - 1, ops[n - 1].now);
      }
      StepSweptApart(Run(ops, n - 1), RunUnswept(ops, n - 1), ops[n - 1], t);
    }
  }

  lemma NothingSwept(t: Time)
    ensures SweptApart(map[], map[], t)
  {
  }

  /** The sweep cannot be observed: under a clock that does not go back, every answer is the answer
      of the map that is never swept. */
  lemma SweepIsUnobservable(ops: seq<Op>, i: nat)
    requires Monotone(ops) && i < |ops| && ops[i].Present?
    ensures Live(Run(ops, i), ops[i].key, ops[i].now) == Live(RunUnswept(ops, i), ops[i].key, ops[i].now)
  {
    SweepLosesOnlyExpired(ops, i, ops[i].now);
  }

  /** Two acceptances of a key with no Delete or purge of it in between are at least the first one's
      time to live apart. */
  lemma AcceptancesAreApart(ops: seq<Op>, i: nat, j: nat)
    requires Monotone(ops) && i < j < |ops| && Accepted(ops, i) && Accepted(ops, j) && ops[i].key == ops[j].key
    requires forall k :: i < k < j ==> !Forgets(ops[k], ops[i].key)
    ensures ops[j].now >= ops[i].now + ops[i].ttl
  {
    SweepIsUnobservable(ops, i);
    SweepIsUnobservable(ops, j);
    HeldUntil(ops, i, j);
  }

  /** After an acceptance the key's expiry stands at least as late, until the key is forgotten. */
  lemma {:induction false} HeldUntil(ops: seq<Op>, i: nat, j: nat)
    requires Monotone(ops) && i < j <= |ops| && ops[i].Present?
    requires !Live(RunUnswept(ops, i), ops[i].key, ops[i].now)
    requires forall k :: i < k < j ==> !Forgets(ops[k], ops[i].key)
    ensures var m, key := RunUnswept(ops, j), ops[i].key;
            && key in m
            && (m[key] >= ops[i].now + ops[i].ttl
                || exists k :: i < k < j && ops[k].Present? && ops[k].now >= ops[i].now + ops[i].ttl)
  {
    if j == i + 1 {
      assert RunUnswept(ops, j) == AfterUnswept(RunUnswept(ops, i), ops[i]);
    } else {
      HeldUntil(ops, i, j - 1);
      var m, op := RunUnswept(ops, j - 1), ops[j - 1];
      assert RunUnswept(ops, j) == AfterUnswept(m, op);
      assert !Forgets(op, ops[i].key);
      if op.Present? && op.key == ops[i].key && !Live(m, op.key, op.now) {
        if m[op.key] >= ops[i].now + ops[i].ttl {
          assert op.now >= ops[i].now + ops[i].ttl;
        }
      }
    }
  }

  // ----- what each call does to a key -----

  /** What is asked of the store about a key: whether presenting it at `t` is a duplicate. */
  predicate Duplicate(ops: seq<Op>, i: nat, key: string, t: Time)
    requires i <= |ops|
  {
    Live(Run(ops, i), key, t)
  }

  /** Every call, for every key and every time from then on. An accepted key is a duplicate until its time
      to live has passed; a duplicate, and a call for another key, change nothing; a Delete and a purge
      make exactly their keys new. */
  lemma LivenessAfter(ops: seq<Op>, i: nat, key: string, t: Time)
    requires i < |ops| && (ops[i].Present? ==> ops[i].now <= t)
    ensures Duplicate(ops, i + 1, key, t) <==>
              match ops[i]
              case Present(k, ttl, now) =>
                if k == key && !Duplicate(ops, i, key, now) then t < now + ttl else Duplicate(ops, i, key, t)
              case Forget(k) => k != key && Duplicate(ops, i, key, t)
              case Purge(queue) => !OfQueue(key, queue) && Duplicate(ops, i, key, t)
  {
    if ops[i].Purge? {
      OfQueueIsPrefix(key, ops[i].queue);
    }
    hide HasPrefix, OfQueue;
  }

  /** A purge of q, or a Delete of another key, leaves the key as it was at every time. */
  lemma OthersAreKept(ops: seq<Op>, i: nat, key: string, t: Time)
    requires i < |ops|
    requires match ops[i] case Present(_, _, _) => false case Forget(k) => k != key case Purge(queue) => !OfQueue(key, queue)
    ensures Duplicate(ops, i + 1, key, t) == Duplicate(ops, i, key, t)
  {
    LivenessAfter(ops, i, key, t);
  }

  /** A key that a Delete or a purge of its queue forgot is accepted when it is next presented, whatever
      happens to other keys in between and whatever the clocks. */
  lemma ForgottenIsAccepted(ops: seq<Op>, k: nat, i: nat, key: string)
    requires k < i < |ops| && Drops(ops[k], key) && Presents(ops[i], key)
    requires forall j :: k < j < i ==> !Presents(ops[j], key)
    ensures Accepted(ops, i)
  {
    hide Drops;
    StaysForgotten(ops, k, i, key);
  }

  lemma {:induction false} StaysForgotten(ops: seq<Op>, k: nat, i: nat, key: string)
    requires k < i <= |ops| && Drops(ops[k], key)
    requires forall j :: k < j < i ==> !Presents(ops[j], key)
    ensures key !in Run(ops, i)
    decreases i
  {
    hide After, Drops, Presents;
    if i == k + 1 {
      Forgotten(Run(ops, k), ops[k], key);
    } else {
      StaysForgotten(ops, k, i - 1, key);
      StaysNew(Run(ops, i - 1), ops[i - 1], key);
    }
  }

  lemma Forgotten(seen: Seen, op: Op, key: string)
    requires Drops(op, key)
    ensures key !in After(seen, op)
  {
    if op.Purge? {
      OfQueueIsPrefix(key, op.queue);
    }
    hide HasPrefix, OfQueue;
  }

  lemma StaysNew(seen: Seen, op: Op, key: string)
    requires key !in seen && !Presents(op, key)
    ensures key !in After(seen, op)
  {
    hide HasPrefix;
  }

  /** When the store sweeps: an acceptance that leaves it with at most 1024 keys drops none of them, and one
      that would leave it with more drops exactly those whose time to live is over. */
  lemma SweepsAboveThreshold(ops: seq<Op>, i: nat, key: string)
    requires i < |ops| && Accepted(ops, i)
    ensures var before, after := Run(ops, i), Run(ops, i + 1);
            var keys := before.Keys + {ops[i].key};
            key in after <==>
              key in keys && (|keys| <= 1024 || ops[i].now < (if key == ops[i].key then ops[i].now + ops[i].ttl else before[key]))
  {
    var before, op := Run(ops, i), ops[i];
    assert before[op.key := op.now + op.ttl].Keys == before.Keys + {op.key};
  }
}
