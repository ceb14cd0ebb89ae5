/** The broker's EnqueueBatch in front of the TTL dedupe store: which items of a batch are stored,
    when they say they were created, and what a failed store call leaves behind. */
module EnqueueBatch {
  import opened Messages
  import opened Naming
  import D = DedupeTtl
  import M = SqlMachine
  import SqlStore

  datatype Item = Item(payload: seq<bv8>, delay: int, schedule: Time, priority: int, dedupeKey: string)

  /** What `enqueueMessage` builds. */
  function MessageOf(queue: string, item: Item, id: Id, createdAt: Time, now: Time): Message {
    var scheduledAt :=
      if item.schedule != ZERO_TIME then item.schedule
      else if item.delay > 0 then now + item.delay
      else now;
    Message(id, queue, item.payload, 0, 0, createdAt, scheduledAt, item.dedupeKey, item.priority, "", ZERO_TIME)
  }

  /** One EnqueueBatch call: the clock is read once for the batch and once more for each item. */
  datatype Call = Call(queue: string, items: seq<Item>, ids: seq<Id>, now: Time, clocks: seq<Time>, ttl: int)

  ghost predicate WellFormed(c: Call) {
    |c.ids| == |c.items| == |c.clocks|
  }

  function KeyOf(c: Call, i: nat): string
    requires i < |c.items|
  {
    DedupeKey(c.queue, c.items[i].dedupeKey)
  }

  function Created(c: Call, k: nat): Time {
    c.now + k * MICROSECOND
  }

  // ----- the loop -----

  datatype Progress = Progress(seen: D.Seen, kept: seq<nat>)

  /** The dedupe map and the items let through after the first `n`. */
  function Admitted(c: Call, seen: D.Seen, n: nat): Progress
    requires WellFormed(c) && n <= |c.items|
    ensures forall i :: i in Admitted(c, seen, n).kept ==> i < n
  {
    if n == 0 then Progress(seen, [])
    else
      var before := Admitted(c, seen, n - 1);
      if c.items[n - 1].dedupeKey == "" then Progress(before.seen, before.kept + [n - 1])
      else if D.Live(before.seen, KeyOf(c, n - 1), c.clocks[n - 1]) then before
      else Progress(D.Accept(before.seen, KeyOf(c, n - 1), c.ttl, c.clocks[n - 1]), before.kept + [n - 1])
  }

  function MessagesOf(c: Call, kept: seq<nat>): seq<Message>
    requires WellFormed(c) && forall i :: i in kept ==> i < |c.items|
  {
    seq(|kept|, k requires 0 <= k < |kept| =>
      assert kept[k] in kept; MessageOf(c.queue, c.items[kept[k]], c.ids[kept[k]], Created(c, k), c.now))
  }

  /** The dedupe keys the call added. */
  function AddedKeys(c: Call, kept: seq<nat>): set<string>
    requires forall i :: i in kept ==> i < |c.items|
  {
    set i | i in kept && c.items[i].dedupeKey != "" :: KeyOf(c, i)
  }

  method AdmitAll(dedupe: D.Store, c: Call) returns (messages: seq<Message>, keys: seq<string>)
    requires WellFormed(c)
    modifies dedupe
    ensures var r := Admitted(c, old(dedupe.seen), |c.items|);
            && dedupe.seen == r.seen
            && messages == MessagesOf(c, r.kept)
            && (forall k :: k in keys <==> k in AddedKeys(c, r.kept))
  {
    messages := [];
    keys := [];
    ghost var kept: seq<nat> := [];
    for i := 0 to |c.items|
      invariant Admitted(c, old(dedupe.seen), i) == Progress(dedupe.seen, kept)
      invariant messages == MessagesOf(c, kept)
      invariant forall k :: k in keys <==> k in AddedKeys(c, kept)
    {
      hide MessagesOf, AddedKeys;
      var item := c.items[i];
      var createdAt := Created(c, |messages|);
      MessagesLength(c, kept);
      var dup := false;
      if item.dedupeKey != "" {
        dup := dedupe.SeenOrAdd(KeyOf(c, i), c.ttl, c.clocks[i]);
        if !dup {
          keys := keys + [KeyOf(c, i)];
        }
      }
      if !dup {
        Appending(c, kept, i);
        messages := messages + [MessageOf(c.queue, item, c.ids[i], createdAt, c.now)];
        kept := kept + [i];
      }
    }
  }

  lemma MessagesLength(c: Call, kept: seq<nat>)
    requires WellFormed(c) && forall i :: i in kept ==> i < |c.items|
    ensures |MessagesOf(c, kept)| == |kept|
  {
  }

  method RollbackDedupe(dedupe: D.Store, keys: seq<string>)
    modifies dedupe
    ensures dedupe.seen == old(dedupe.seen) - (set k | k in keys)
  {
    for j := 0 to |keys|
      invariant dedupe.seen == old(dedupe.seen) - (set k | k in keys[..j])
    {
      dedupe.Delete(keys[j]);
      assert keys[..j + 1] == keys[..j] + [keys[j]];
    }
    assert keys[..|keys|] == keys;
  }

  /** Hands `messages` to the store unless there are none; if the store is not `up` or refuses them,
      the keys are taken out again and the store is as it was. */
  method Run(dedupe: D.Store, store: SqlStore.Store, c: Call, up: bool, storeNow: Time)
    returns (messages: seq<Message>, failed: bool)
    requires WellFormed(c)
    modifies dedupe, store`rows, store`stats
    ensures var r := Admitted(c, old(dedupe.seen), |c.items|);
            var tx := M.EnqueueBatch(store.indexed, old(store.Db()), c.queue, messages, storeNow);
            && messages == MessagesOf(c, r.kept)
            && failed == (messages != [] && (!up || tx.outcome != M.Done))
            && store.Db() == (if messages == [] || failed then old(store.Db()) else tx.db)
            && dedupe.seen == if failed then r.seen - AddedKeys(c, r.kept) else r.seen
  {
    ghost var r := Admitted(c, dedupe.seen, |c.items|);
    hide Admitted, MessagesOf, AddedKeys;
    var keys;
    messages, keys := AdmitAll(dedupe, c);
    failed := false;
    if |messages| == 0 {
      return;
    }
    if up {
      var outcome := store.EnqueueBatch(c.queue, messages, storeNow);
      failed := outcome != M.Done;
    } else {
      failed := true;
    }
    if failed {
      assert (set k | k in keys) == AddedKeys(c, r.kept);
      RollbackDedupe(dedupe, keys);
    }
  }

  lemma Appending(c: Call, kept: seq<nat>, i: nat)
    requires WellFormed(c) && i < |c.items| && forall j :: j in kept ==> j < |c.items|
    ensures forall j :: j in kept + [i] ==> j < |c.items|
    ensures MessagesOf(c, kept + [i])
            == MessagesOf(c, kept) + [MessageOf(c.queue, c.items[i], c.ids[i], Created(c, |kept|), c.now)]
    ensures AddedKeys(c, kept + [i])
            == AddedKeys(c, kept) + (if c.items[i].dedupeKey != "" then {KeyOf(c, i)} else {})
  {
    assert forall j :: j in kept + [i] <==> j in kept || j == i;
  }

  // ----- what it stores -----

  /** The first item of its key for which the key is not live. */
  ghost predicate FirstOfKey(c: Call, seen: D.Seen, i: nat)
    requires WellFormed(c) && i < |c.items|
  {
    && c.items[i].dedupeKey != ""
    && !D.Live(seen, KeyOf(c, i), c.clocks[i])
    && forall j :: 0 <= j < i && KeyOf(c, j) == KeyOf(c, i) ==> D.Live(seen, KeyOf(c, j), c.clocks[j])
  }

  /** The clock does not go back and the batch takes less than the time to live. */
  ghost predicate ShortBatch(c: Call)
    requires WellFormed(c)
  {
    forall i, j :: 0 <= i <= j < |c.items| ==> c.clocks[i] <= c.clocks[j] < c.clocks[i] + c.ttl
  }

  lemma AcceptLive(seen: D.Seen, key: string, ttl: int, now: Time, k: string, t: Time)
    requires t >= now
    ensures D.Live(D.Accept(seen, key, ttl, now), k, t) <==> if k == key then t < now + ttl else D.Live(seen, k, t)
  {
  }

  lemma {:induction false} SomeFirst(c: Call, seen: D.Seen, i: nat) returns (j: nat)
    requires WellFormed(c) && i < |c.items| && c.items[i].dedupeKey != "" && !D.Live(seen, KeyOf(c, i), c.clocks[i])
    ensures j <= i && KeyOf(c, j) == KeyOf(c, i) && FirstOfKey(c, seen, j)
  {
    if FirstOfKey(c, seen, i) {
      j := i;
    } else {
      var k :| 0 <= k < i && KeyOf(c, k) == KeyOf(c, i) && !D.Live(seen, KeyOf(c, k), c.clocks[k]);
      SameKey(c, k, i);
      j := SomeFirst(c, seen, k);
    }
  }

  lemma SameKey(c: Call, i: nat, j: nat)
    requires i < |c.items| && j < |c.items| && KeyOf(c, i) == KeyOf(c, j)
    ensures c.items[i].dedupeKey == c.items[j].dedupeKey
  {
    assert KeyOf(c, i)[|c.queue| + 1..] == c.items[i].dedupeKey;
    assert KeyOf(c, j)[|c.queue| + 1..] == c.items[j].dedupeKey;
  }

  /** Liveness of a key at a time `t` past the first `n` clock readings. */
  ghost predicate LiveAfter(c: Call, seen: D.Seen, n: nat, k: string, t: Time)
    requires WellFormed(c) && n <= |c.items|
  {
    && (forall j :: 0 <= j < n && KeyOf(c, j) == k && FirstOfKey(c, seen, j) ==>
          (D.Live(Admitted(c, seen, n).seen, k, t) <==> t < c.clocks[j] + c.ttl))
    && ((forall j :: 0 <= j < n && KeyOf(c, j) == k ==> !FirstOfKey(c, seen, j)) ==>
          (D.Live(Admitted(c, seen, n).seen, k, t) <==> D.Live(seen, k, t)))
  }

  /** Item `i` is let through exactly if it has no key or is the first of its key. */
  lemma {:induction false} AdmitsFirsts(c: Call, seen: D.Seen, n: nat, k: string, t: Time)
    requires WellFormed(c) && ShortBatch(c) && n <= |c.items|
    requires forall i :: 0 <= i < n ==> c.clocks[i] <= t
    ensures LiveAfter(c, seen, n, k, t)
    ensures n > 0 ==> (Admitted(c, seen, n).kept
                       == Admitted(c, seen, n - 1).kept
                          + (if c.items[n - 1].dedupeKey == "" || FirstOfKey(c, seen, n - 1) then [n - 1] else []))
  {
    if n > 0 {
      var i := n - 1;
      var key, clock := KeyOf(c, i), c.clocks[i];
      AdmitsFirsts(c, seen, i, k, t);
      AdmitsFirsts(c, seen, i, key, clock);
      var before := Admitted(c, seen, i).seen;
      NextIsFirst(c, seen, i);
      if c.items[i].dedupeKey != "" && !D.Live(before, key, clock) {
        AcceptLive(before, key, c.ttl, clock, k, t);
      }
    }
  }

  /** The dedupe map rejects item `i` exactly if it is not the first of its key. */
  lemma NextIsFirst(c: Call, seen: D.Seen, i: nat)
    requires WellFormed(c) && ShortBatch(c) && i < |c.items|
    requires LiveAfter(c, seen, i, KeyOf(c, i), c.clocks[i])
    ensures c.items[i].dedupeKey != "" ==>
              (FirstOfKey(c, seen, i) <==> !D.Live(Admitted(c, seen, i).seen, KeyOf(c, i), c.clocks[i]))
    ensures FirstOfKey(c, seen, i) ==> forall j :: 0 <= j < i && KeyOf(c, j) == KeyOf(c, i) ==> !FirstOfKey(c, seen, j)
  {
    if c.items[i].dedupeKey != "" && !FirstOfKey(c, seen, i) && !D.Live(seen, KeyOf(c, i), c.clocks[i]) {
      var j := SomeFirst(c, seen, i);
    }
  }

  // ----- the promises -----

  ghost predicate LetThrough(c: Call, seen: D.Seen, i: nat)
    requires WellFormed(c) && i < |c.items|
  {
    c.items[i].dedupeKey == "" || FirstOfKey(c, seen, i)
  }

  ghost predicate Rising(kept: seq<nat>) {
    forall j, k :: 0 <= j < k < |kept| ==> kept[j] < kept[k]
  }

  lemma {:induction false} KeptIs(c: Call, seen: D.Seen, n: nat)
    requires WellFormed(c) && ShortBatch(c) && n <= |c.items|
    ensures var kept := Admitted(c, seen, n).kept;
            forall i :: i in kept <==> 0 <= i < n && LetThrough(c, seen, i)
  {
    if n > 0 {
      KeptIs(c, seen, n - 1);
      AdmitsFirsts(c, seen, n, "", c.clocks[n - 1]);
      var before, kept := Admitted(c, seen, n - 1).kept, Admitted(c, seen, n).kept;
      if LetThrough(c, seen, n - 1) {
        assert kept == before + [n - 1];
        hide Admitted, LetThrough, ShortBatch;
        assert forall i :: i in kept <==> i in before || i == n - 1;
      } else {
        assert kept == before;
        hide Admitted, LetThrough, ShortBatch;
      }
    }
  }

  lemma RisingGrows(kept: seq<nat>, i: nat)
    requires Rising(kept) && forall j :: j in kept ==> j < i
    ensures Rising(kept + [i])
  {
    assert forall j :: 0 <= j < |kept| ==> kept[j] in kept;
  }

  lemma {:induction false} KeptRises(c: Call, seen: D.Seen, n: nat)
    requires WellFormed(c) && n <= |c.items|
    ensures Rising(Admitted(c, seen, n).kept)
  {
    if n > 0 {
      KeptRises(c, seen, n - 1);
      var before := Admitted(c, seen, n - 1).kept;
      if Admitted(c, seen, n).kept != before {
        RisingGrows(before, n - 1);
      }
    }
  }

  /** Item `i`, let through as the k-th, as the message the store is given. */
  ghost predicate Carries(c: Call, m: Message, i: nat, k: nat)
    requires WellFormed(c) && i < |c.items|
  {
    var item := c.items[i];
    && m.id == c.ids[i] && m.queue == c.queue && m.payload == item.payload
    && m.dedupeKey == item.dedupeKey && m.priority == item.priority && m.attempts == 0 && m.maxRetries == 0
    && m.error == "" && m.deadAt == ZERO_TIME
    && m.createdAt == Created(c, k)
    && (item.schedule != ZERO_TIME ==> m.scheduledAt == item.schedule)
    && (item.schedule == ZERO_TIME ==> m.scheduledAt == c.now + if item.delay > 0 then item.delay else 0)
  }

  /** What the store is given: exactly the keyless items and the first item of each key that was not
      live, in batch order, each with its own options, and with creation times that stay strictly
      increasing when the store keeps only microseconds. */
  lemma StoresKeylessAndFirsts(c: Call, seen: D.Seen)
    requires WellFormed(c) && ShortBatch(c)
    ensures var kept := Admitted(c, seen, |c.items|).kept;
            var messages := MessagesOf(c, kept);
            && (forall i :: i in kept <==> 0 <= i < |c.items| && LetThrough(c, seen, i))
            && Rising(kept)
            && |messages| == |kept|
            && (forall k :: 0 <= k < |kept| ==> kept[k] in kept && Carries(c, messages[k], kept[k], k))
            && (forall j, k :: 0 <= j < k < |messages| ==>
                  messages[j].createdAt / MICROSECOND < messages[k].createdAt / MICROSECOND)
  {
    KeptIs(c, seen, |c.items|);
    KeptRises(c, seen, |c.items|);
    var kept := Admitted(c, seen, |c.items|).kept;
    hide Admitted, LetThrough;
    assert forall k :: 0 <= k < |kept| ==> kept[k] in kept;
    forall j, k | 0 <= j < k < |kept| ensures Created(c, j) / MICROSECOND < Created(c, k) / MICROSECOND {
      Apart(c.now, j, k);
    }
  }

  /** The call's ids are fresh to the store and its clock is set. */
  ghost predicate FreshIds(c: Call, rows: M.Table)
    requires WellFormed(c)
  {
    && c.now > 0
    && (forall i :: 0 <= i < |c.ids| ==> c.ids[i] !in rows)
    && (forall i, j :: 0 <= i < j < |c.ids| ==> c.ids[i] != c.ids[j])
  }

  /** `rows'` is `rows` and one row for each of the first `n` messages. */
  ghost predicate Adds(rows: M.Table, rows': M.Table, q: string, messages: seq<Message>, n: nat)
    requires n <= |messages|
  {
    && (forall id :: id in rows ==> id in rows' && rows'[id] == rows[id])
    && (forall k :: 0 <= k < n ==>
          messages[k].id in rows' && rows'[messages[k].id] == M.Row(messages[k], M.InsertStatus(q)))
    && (forall id :: id in rows' && id !in rows ==> exists k :: 0 <= k < n && messages[k].id == id)
  }

  lemma {:induction false} InsertsAll(rows: M.Table, q: string, messages: seq<Message>, n: nat, now: Time)
    requires n <= |messages|
    requires forall k :: 0 <= k < |messages| ==>
               (messages[k].id !in rows && messages[k].queue == q
                && messages[k].createdAt != ZERO_TIME && messages[k].scheduledAt != ZERO_TIME)
    requires forall j, k :: 0 <= j < k < |messages| ==> messages[j].id != messages[k].id
    ensures var r := M.InsertFirst(false, rows, q, messages, n, now);
            r.Inserted? && Adds(rows, r.rows, q, messages, n)
  {
    hide M.InsertStatus;
    if n > 0 {
      InsertsAll(rows, q, messages, n - 1, now);
      var before := M.InsertFirst(false, rows, q, messages, n - 1, now).rows;
      var x := messages[n - 1];
      assert M.Stored(q, M.BatchStamp(x, n - 1, now), now) == x;
      assert x.id !in before;
    }
  }

  /** What a store without the dedupe index then holds: its old rows, and one row for each keyless item
      and each first item of its key, exactly as the item says; nothing else. */
  lemma StoreHoldsKeylessAndFirsts(c: Call, seen: D.Seen, db: M.Db, storeNow: Time)
    requires WellFormed(c) && FreshIds(c, db.rows)
    ensures var messages := MessagesOf(c, Admitted(c, seen, |c.items|).kept);
            var tx := M.EnqueueBatch(false, db, c.queue, messages, storeNow);
            && tx.outcome == M.Done && tx.db.stats == db.stats
            && Adds(db.rows, tx.db.rows, c.queue, messages, |messages|)
  {
    var kept := Admitted(c, seen, |c.items|).kept;
    var messages := MessagesOf(c, kept);
    KeptRises(c, seen, |c.items|);
    assert forall k :: 0 <= k < |kept| ==> kept[k] in kept && messages[k].id == c.ids[kept[k]];
    hide Admitted, M.InsertFirst, Adds;
    InsertsAll(db.rows, c.queue, messages, |messages|, storeNow);
  }

  lemma Apart(now: Time, j: nat, k: nat)
    requires j < k
    ensures (now + j * MICROSECOND) / MICROSECOND < (now + k * MICROSECOND) / MICROSECOND
  {
    var a, b := now + j * MICROSECOND, now + k * MICROSECOND;
    assert b >= a + MICROSECOND;
  }

  /** A failed store call leaves the set of live keys as it was before, from the end of the call on. */
  lemma FailureLeavesNoKeys(c: Call, seen: D.Seen, k: string, t: Time)
    requires WellFormed(c) && ShortBatch(c)
    requires forall i :: 0 <= i < |c.items| ==> c.clocks[i] <= t
    ensures var r := Admitted(c, seen, |c.items|);
            D.Live(r.seen - AddedKeys(c, r.kept), k, t) <==> D.Live(seen, k, t)
  {
    var n := |c.items|;
    KeptIs(c, seen, n);
    AdmitsFirsts(c, seen, n, k, t);
    var r := Admitted(c, seen, n);
    hide Admitted;
    if k in AddedKeys(c, r.kept) {
      var i :| i in r.kept && c.items[i].dedupeKey != "" && KeyOf(c, i) == k;
      assert FirstOfKey(c, seen, i);
    } else {
      assert forall j :: 0 <= j < n && KeyOf(c, j) == k && FirstOfKey(c, seen, j) ==> j in r.kept;
      assert forall j :: 0 <= j < n && KeyOf(c, j) == k ==> !FirstOfKey(c, seen, j);
    }
  }
}
