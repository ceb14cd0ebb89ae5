/** The bounded dedupe store: a list of entries, most recently presented first, with an index into
    it by key. */
module DedupeLru {
  import opened Messages
  import opened Naming
  import opened Dedupe

  datatype Entry = Entry(key: string, expiresAt: Time)

  const DEFAULT_CAPACITY: nat := 100_000

  // ----- the list -----

  predicate Has(l: seq<Entry>, key: string) {
    exists i :: 0 <= i < |l| && l[i].key == key
  }

  ghost predicate Once(l: seq<Entry>) {
    forall i, j :: 0 <= i < j < |l| ==> l[i].key != l[j].key
  }

  /** The list without the entry of `key`. */
  function Without(l: seq<Entry>, key: string): seq<Entry> {
    if l == [] then []
    else if l[0].key == key then l[1..]
    else [l[0]] + Without(l[1..], key)
  }

  function Find(l: seq<Entry>, key: string): Option<Entry> {
    if l == [] then None
    else if l[0].key == key then Some(l[0])
    else Find(l[1..], key)
  }

  predicate Live(l: seq<Entry>, key: string, now: Time) {
    Find(l, key).Some? && now < Find(l, key).value.expiresAt
  }

  function Purged(l: seq<Entry>, queue: string): seq<Entry> {
    if l == [] then []
    else if HasPrefix(l[0].key, queue + ":") then Purged(l[1..], queue)
    else [l[0]] + Purged(l[1..], queue)
  }

  /** A hit moves the entry, as it is, to the front; a miss puts a new one there and evicts the last
      if there are too many. */
  function After(l: seq<Entry>, op: Op, capacity: nat): seq<Entry> {
    match op
    case Present(key, ttl, now) =>
      if Live(l, key, now) then [Find(l, key).value] + Without(l, key)
      else
        var added := [Entry(key, now + ttl)] + Without(l, key);
        if |added| > capacity then added[..|added| - 1] else added
    case Forget(key) => Without(l, key)
    case Purge(queue) => Purged(l, queue)
  }

  // ----- facts about the list -----

  lemma HasRest(l: seq<Entry>, key: string)
    requires l != []
    ensures Has(l, key) <==> l[0].key == key || Has(l[1..], key)
  {
    var rest := l[1..];
    if Has(rest, key) {
      var i :| 0 <= i < |rest| && rest[i].key == key;
      assert l[i + 1].key == key;
    }
    if Has(l, key) && l[0].key != key {
      var i :| 0 <= i < |l| && l[i].key == key;
      assert rest[i - 1].key == key;
    }
  }

  lemma OnceRest(l: seq<Entry>)
    requires Once(l) && l != []
    ensures Once(l[1..]) && !Has(l[1..], l[0].key)
  {
    forall i | 0 <= i < |l[1..]| ensures l[1..][i].key != l[0].key {
      assert l[1..][i] == l[i + 1];
    }
  }

  lemma OncePush(e: Entry, l: seq<Entry>)
    requires Once(l) && !Has(l, e.key)
    ensures Once([e] + l) && ([e] + l)[1..] == l
  {
  }

  lemma {:induction false} FindIs(l: seq<Entry>, key: string)
    ensures Find(l, key).Some? <==> Has(l, key)
    ensures Find(l, key).Some? ==> Find(l, key).value in l && Find(l, key).value.key == key
  {
    if l != [] {
      FindIs(l[1..], key);
      HasRest(l, key);
    }
  }

  /** Removing a key removes that one entry and leaves the others, in order. */
  lemma {:induction false} WithoutIs(l: seq<Entry>, key: string)
    requires Once(l)
    ensures Once(Without(l, key)) && !Has(Without(l, key), key)
    ensures forall e :: e in Without(l, key) <==> e in l && e.key != key
    ensures |Without(l, key)| == |l| - (if Has(l, key) then 1 else 0)
  {
    if l != [] {
      var e, rest := l[0], l[1..];
      assert l == [e] + rest;
      OnceRest(l);
      WithoutIs(rest, key);
      HasRest(l, key);
      if e.key == key {
        NoneWithKey(rest, key);
      } else {
        NotWithKey(rest, key, e.key);
        hide Once, Has;
        OncePush(e, Without(rest, key));
        HasRest([e] + Without(rest, key), key);
      }
    }
  }

  lemma NoneWithKey(l: seq<Entry>, key: string)
    requires !Has(l, key)
    ensures forall e :: e in l ==> e.key != key
  {
  }

  lemma NotWithKey(l: seq<Entry>, key: string, other: string)
    requires Once(l) && !Has(l, other) && forall e :: e in Without(l, key) ==> e in l
    ensures !Has(Without(l, key), other)
  {
    forall i | 0 <= i < |Without(l, key)| ensures Without(l, key)[i].key != other {
      assert Without(l, key)[i] in l;
    }
  }

  lemma {:induction false} PurgedIs(l: seq<Entry>, queue: string)
    requires Once(l)
    ensures Once(Purged(l, queue)) && |Purged(l, queue)| <= |l|
    ensures forall e :: e in Purged(l, queue) <==> e in l && !HasPrefix(e.key, queue + ":")
  {
    hide HasPrefix;
    if l != [] {
      assert l == [l[0]] + l[1..];
      PurgedIs(l[1..], queue);
    }
  }

  /** A presented key, hit or miss: an entry goes to the front, and if that is one too many (which
      it is only on a miss) the last goes. */
  lemma AfterPresent(l: seq<Entry>, op: Op, capacity: nat)
    requires op.Present? && Once(l) && |l| <= capacity
    ensures var first := if Live(l, op.key, op.now) then Find(l, op.key).value else Entry(op.key, op.now + op.ttl);
            var added := [first] + Without(l, op.key);
            After(l, op, capacity) == if |added| > capacity then added[..|added| - 1] else added
  {
    WithoutIs(l, op.key);
    FindIs(l, op.key);
  }

  /** A key once each, and never more entries than the capacity. */
  lemma AfterFits(l: seq<Entry>, op: Op, capacity: nat)
    requires Once(l) && |l| <= capacity && capacity > 0
    ensures Once(After(l, op, capacity)) && |After(l, op, capacity)| <= capacity
  {
    match op
    case Present(key, ttl, now) =>
      WithoutIs(l, key);
      FindIs(l, key);
    case Forget(key) => WithoutIs(l, key);
    case Purge(queue) => PurgedIs(l, queue);
  }

  /** Every entry is found under its key. */
  lemma {:induction false} FindUnique(l: seq<Entry>, e: Entry)
    requires Once(l) && e in l
    ensures Find(l, e.key) == Some(e)
  {
    assert l == [l[0]] + l[1..];
    if e in l[1..] {
      var i :| 0 <= i < |l[1..]| && l[1..][i] == e;
      assert l[i + 1] == e;
      FindUnique(l[1..], e);
    }
  }

  lemma {:induction false} WithoutAbsent(l: seq<Entry>, key: string)
    requires !Has(l, key)
    ensures Without(l, key) == l
  {
    if l != [] {
      assert l == [l[0]] + l[1..];
      forall i | 0 <= i < |l[1..]| ensures l[1..][i].key != key {
        assert l[i + 1].key != key;
      }
      WithoutAbsent(l[1..], key);
    }
  }

  /** Purging commutes with removing a key that the purge would remove. */
  lemma {:induction false} PurgedWithout(l: seq<Entry>, queue: string, key: string)
    requires HasPrefix(key, queue + ":")
    ensures Purged(Without(l, key), queue) == Purged(l, queue)
  {
    hide HasPrefix;
    if l != [] && l[0].key != key {
      PurgedWithout(l[1..], queue, key);
      assert ([l[0]] + Without(l[1..], key))[1..] == Without(l[1..], key);
    }
  }

  lemma {:induction false} PurgedNone(l: seq<Entry>, queue: string)
    requires forall e :: e in l ==> !HasPrefix(e.key, queue + ":")
    ensures Purged(l, queue) == l
  {
    hide HasPrefix;
    if l != [] {
      assert l == [l[0]] + l[1..];
      PurgedNone(l[1..], queue);
    }
  }

  // ----- the store -----

  function At(items: map<string, Entry>, k: string): Option<Entry> {
    if k in items then Some(items[k]) else None
  }

  /** Index and list hold the same keys, once each, and the index leads to a key's entry. */
  ghost predicate Indexed(items: map<string, Entry>, list: seq<Entry>) {
    && Once(list) && |items| == |list|
    && forall k :: Find(list, k) == At(items, k)
  }

  lemma IndexPush(items: map<string, Entry>, list: seq<Entry>, e: Entry)
    requires Indexed(items, list) && e.key !in items
    ensures Indexed(items[e.key := e], [e] + list)
  {
    assert Find(list, e.key) == At(items, e.key);
    FindIs(list, e.key);
    OncePush(e, list);
    hide Once;
    forall k ensures Find([e] + list, k) == At(items[e.key := e], k) {
      assert Find(list, k) == At(items, k);
    }
  }

  lemma IndexDrop(items: map<string, Entry>, list: seq<Entry>, k: string)
    requires Indexed(items, list) && k in items
    ensures Indexed(items - {k}, Without(list, k))
  {
    assert Find(list, k) == At(items, k);
    FindIs(list, k);
    WithoutIs(list, k);
    FindIs(Without(list, k), k);
    assert (items - {k})[k := items[k]] == items;
    forall x ensures Find(Without(list, k), x) == At(items - {k}, x) {
      assert Find(list, x) == At(items, x);
      if x != k {
        AheadWithout(list, k, x);
      }
    }
  }

  lemma IndexEvict(items: map<string, Entry>, list: seq<Entry>)
    requires Indexed(items, list) && list != []
    ensures Indexed(items - {list[|list| - 1].key}, list[..|list| - 1])
  {
    var rest, last := list[..|list| - 1], list[|list| - 1];
    assert Find(list, last.key) == At(items, last.key);
    FindUnique(list, last);
    assert (items - {last.key})[last.key := items[last.key]] == items;
    forall x ensures Find(rest, x) == At(items - {last.key}, x) {
      assert Find(list, x) == At(items, x);
      FindInPrefix(list, x);
    }
  }

  lemma {:induction false} FindInPrefix(l: seq<Entry>, k: string)
    requires Once(l) && l != []
    ensures Find(l[..|l| - 1], k) == if k == l[|l| - 1].key then None else Find(l, k)
  {
    if |l| > 1 {
      assert l[..|l| - 1][1..] == l[1..][..|l[1..]| - 1];
      FindInPrefix(l[1..], k);
    }
  }

  lemma IndexFinds(items: map<string, Entry>, list: seq<Entry>, k: string)
    requires Indexed(items, list)
    ensures Once(list) && |items| == |list|
    ensures Find(list, k) == At(items, k)
    ensures Has(list, k) <==> k in items
    ensures k in items ==> items[k].key == k
    ensures k !in items ==> Without(list, k) == list
    ensures |Without(list, k)| == |list| - (if k in items then 1 else 0)
  {
    assert Find(list, k) == At(items, k);
    FindIs(list, k);
    WithoutIs(list, k);
    if k !in items {
      WithoutAbsent(list, k);
    }
  }

  lemma IndexFront(items: map<string, Entry>, list: seq<Entry>, k: string)
    requires Indexed(items, list) && k in items
    ensures Indexed(items, [items[k]] + Without(list, k))
  {
    IndexDrop(items, list, k);
    IndexFinds(items, list, k);
    assert (items - {k})[k := items[k]] == items;
    hide Indexed;
    IndexPush(items - {k}, Without(list, k), items[k]);
  }

  class Store {
    const capacity: nat
    var items: map<string, Entry>
    var list: seq<Entry>

    ghost predicate Valid()
      reads this
    {
      0 < capacity && |items| <= capacity && Indexed(items, list)
    }

    constructor (capacity: int)
      ensures Valid() && list == []
      ensures this.capacity == if capacity <= 0 then DEFAULT_CAPACITY else capacity
    {
      this.capacity := if capacity <= 0 then DEFAULT_CAPACITY else capacity;
      items := map[];
      list := [];
    }

    method SeenOrAdd(key: string, ttl: int, now: Time) returns (dup: bool, evicted: bool)
      requires Valid()
      modifies this
      ensures Valid()
      ensures dup == Live(old(list), key, now)
      ensures list == After(old(list), Present(key, ttl, now), capacity)
      ensures evicted == (!dup && !Has(old(list), key) && |old(list)| == capacity)
    {
      IndexFinds(items, list, key);
      AfterPresent(list, Present(key, ttl, now), capacity);
      hide Indexed, Find, Without, Has, After, Once;
      evicted := false;
      if key in items {
        var entry := items[key];
        if now < entry.expiresAt {
          IndexFront(items, list, key);
          list := [entry] + Without(list, key);
          return true, false;
        }
        IndexDrop(items, list, key);
        list := Without(list, key);
        items := items - {key};
      }
      IndexPush(items, list, Entry(key, now + ttl));
      list := [Entry(key, now + ttl)] + list;
      items := items[key := Entry(key, now + ttl)];
      IndexFinds(items, list, key);
      if |items| > capacity {
        var oldest := list[|list| - 1];
        IndexEvict(items, list);
        IndexFinds(items - {oldest.key}, list[..|list| - 1], key);
        items := items - {oldest.key};
        list := list[..|list| - 1];
        evicted := true;
      }
      dup := false;
    }

    method Delete(key: string)
      requires Valid()
      modifies this
      ensures Valid() && list == After(old(list), Forget(key), capacity)
    {
      IndexFinds(items, list, key);
      if key in items {
        IndexDrop(items, list, key);
        IndexFinds(items - {key}, Without(list, key), key);
        hide Indexed;
        list := Without(list, key);
        items := items - {key};
      }
    }

    method PurgeQueue(queue: string)
      requires Valid()
      modifies this
      ensures Valid() && list == After(old(list), Purge(queue), capacity)
    {
      var prefix := queue + ":";
      var todo := items.Keys;
      hide HasPrefix, Indexed;
      while todo != {}
        invariant Valid()
        invariant forall k :: k in items && HasPrefix(k, prefix) ==> k in todo
        invariant Purged(list, queue) == Purged(old(list), queue)
        decreases |todo|
      {
        var k :| k in todo;
        if k in items && HasPrefix(k, prefix) {
          IndexFinds(items, list, k);
          IndexDrop(items, list, k);
          IndexFinds(items - {k}, Without(list, k), k);
          PurgedWithout(list, queue, k);
          list := Without(list, k);
          items := items - {k};
        }
        todo := todo - {k};
      }
      forall e | e in list ensures !HasPrefix(e.key, prefix) {
        IndexFinds(items, list, e.key);
        FindUnique(list, e);
      }
      PurgedNone(list, queue);
    }
  }

  // ----- retention -----

  /** The keys presented more recently than `k`. */
  function Ahead(l: seq<Entry>, k: string): set<string> {
    if l == [] || l[0].key == k then {} else {l[0].key} + Ahead(l[1..], k)
  }

  lemma {:induction false} AheadIsInList(l: seq<Entry>, k: string)
    ensures forall x :: x in Ahead(l, k) ==> Has(l, x)
  {
    if l != [] {
      AheadIsInList(l[1..], k);
      forall x | x in Ahead(l, k) ensures Has(l, x) {
        HasRest(l, x);
      }
    }
  }

  lemma AheadCount(l: seq<Entry>, k: string)
    requires Once(l) && l != [] && l[0].key != k
    ensures |Ahead(l, k)| == 1 + |Ahead(l[1..], k)|
  {
    OnceRest(l);
    AheadIsInList(l[1..], k);
  }

  lemma {:induction false} AheadFits(l: seq<Entry>, k: string)
    requires Once(l) && Find(l, k).Some?
    ensures |Ahead(l, k)| < |l|
  {
    if l[0].key != k {
      AheadCount(l, k);
      AheadFits(l[1..], k);
    }
  }

  lemma {:induction false} AheadWithout(l: seq<Entry>, x: string, k: string)
    requires Once(l) && x != k
    ensures Find(Without(l, x), k) == Find(l, k)
    ensures Find(l, k).Some? ==> Ahead(Without(l, x), k) == Ahead(l, k) - {x}
  {
    if l != [] {
      assert forall t: seq<Entry> :: ([l[0]] + t)[1..] == t;
      if l[0].key == x {
        OnceRest(l);
        AheadIsInList(l[1..], k);
      } else if l[0].key != k {
        AheadWithout(l[1..], x, k);
      }
    }
  }

  lemma {:induction false} AheadPurged(l: seq<Entry>, queue: string, k: string)
    requires !HasPrefix(k, queue + ":")
    ensures Find(Purged(l, queue), k) == Find(l, k) && Ahead(Purged(l, queue), k) <= Ahead(l, k)
  {
    hide HasPrefix;
    if l != [] {
      assert forall t: seq<Entry> :: ([l[0]] + t)[1..] == t;
      AheadPurged(l[1..], queue, k);
    }
  }

  /** Evicting the last entry evicts `k` exactly when everything else is ahead of it. */
  lemma {:induction false} Evicting(l: seq<Entry>, k: string)
    requires Once(l) && Find(l, k).Some?
    ensures var rest := l[..|l| - 1];
            if |Ahead(l, k)| < |l| - 1 then Find(rest, k) == Find(l, k) && Ahead(rest, k) == Ahead(l, k)
            else Find(rest, k) == None
  {
    if |l| > 1 {
      var rest := l[..|l| - 1];
      assert rest[0] == l[0] && rest[1..] == l[1..][..|l[1..]| - 1];
      if l[0].key != k {
        AheadCount(l, k);
        Evicting(l[1..], k);
      }
    }
  }

  lemma {:induction false} FindNone(l: seq<Entry>, k: string)
    requires Find(l, k).None? && l != []
    ensures Find(l[..|l| - 1], k).None?
  {
    if |l| > 1 {
      assert l[..|l| - 1][1..] == l[1..][..|l[1..]| - 1];
      FindNone(l[1..], k);
    }
  }

  function RunFrom(l: seq<Entry>, ops: seq<Op>, n: nat, capacity: nat): seq<Entry>
    requires n <= |ops|
  {
    if n == 0 then l else After(RunFrom(l, ops, n - 1, capacity), ops[n - 1], capacity)
  }

  /** The distinct keys presented in the first `n` calls. */
  function Presented(ops: seq<Op>, n: nat): set<string>
    requires n <= |ops|
  {
    if n == 0 then {}
    else if ops[n - 1].Present? then Presented(ops, n - 1) + {ops[n - 1].key}
    else Presented(ops, n - 1)
  }

  lemma {:induction false} RunsFit(l: seq<Entry>, ops: seq<Op>, n: nat, capacity: nat)
    requires n <= |ops| && Once(l) && |l| <= capacity && capacity > 0
    ensures Once(RunFrom(l, ops, n, capacity)) && |RunFrom(l, ops, n, capacity)| <= capacity
  {
    if n > 0 {
      hide After, Once;
      RunsFit(l, ops, n - 1, capacity);
      AfterFits(RunFrom(l, ops, n - 1, capacity), ops[n - 1], capacity);
    }
  }

  /** Presenting another key puts it ahead of `k`, and evicts `k` exactly when that makes too many. */
  lemma PresentOther(l: seq<Entry>, op: Op, k: string, capacity: nat)
    requires Once(l) && |l| <= capacity && op.Present? && op.key != k
    requires Find(l, k).Some?
    ensures var l', ahead := After(l, op, capacity), Ahead(l, k) + {op.key};
            if |ahead| < capacity then Find(l', k) == Find(l, k) && Ahead(l', k) == ahead
            else Find(l', k) == None
  {
    FindIs(l, op.key);
    AfterPresent(l, op, capacity);
    var first := if Live(l, op.key, op.now) then Find(l, op.key).value else Entry(op.key, op.now + op.ttl);
    PushFront(l, first, k);
    hide After, Live, Once, Find, Ahead, Without, Has;
    if |[first] + Without(l, op.key)| > capacity {
      Evicting([first] + Without(l, op.key), k);
    }
  }

  lemma PushFront(l: seq<Entry>, e: Entry, k: string)
    requires Once(l) && e.key != k && Find(l, k).Some?
    ensures var added := [e] + Without(l, e.key);
            && Once(added) && |l| <= |added| <= |l| + 1 && (Has(l, e.key) ==> |added| == |l|)
            && Find(added, k) == Find(l, k) && Ahead(added, k) == Ahead(l, k) + {e.key}
            && |Ahead(added, k)| < |added|
  {
    WithoutIs(l, e.key);
    AheadWithout(l, e.key, k);
    OncePush(e, Without(l, e.key));
    AheadFits([e] + Without(l, e.key), k);
  }

  /** Presenting another key never brings `k` back. */
  lemma PresentOtherAbsent(l: seq<Entry>, op: Op, k: string, capacity: nat)
    requires Once(l) && op.Present? && op.key != k && Find(l, k).None?
    ensures Find(After(l, op, capacity), k).None?
  {
    AheadWithout(l, op.key, k);
    FindIs(l, op.key);
    var first := if Live(l, op.key, op.now) then Find(l, op.key).value else Entry(op.key, op.now + op.ttl);
    var added := [first] + Without(l, op.key);
    assert added[1..] == Without(l, op.key);
    FindNone(added, k);
  }

  lemma ForgetOther(l: seq<Entry>, op: Op, k: string, capacity: nat)
    requires Once(l) && !op.Present? && !Forgets(op, k)
    ensures var l' := After(l, op, capacity);
            Find(l', k) == Find(l, k) && (Find(l, k).Some? ==> Ahead(l', k) <= Ahead(l, k))
  {
    if op.Forget? {
      AheadWithout(l, op.key, k);
    } else {
      AheadPurged(l, op.queue, k);
    }
  }

  /** A Delete or a purge makes exactly its keys new; every other key is a duplicate when it was before. */
  lemma ForgetLeavesOthers(l: seq<Entry>, op: Op, k: string, t: Time, capacity: nat)
    requires Once(l) && !op.Present?
    ensures Live(After(l, op, capacity), k, t) <==>
              Live(l, k, t) && !Drops(op, k)
  {
    ForgetsIs(op, k);
    if Forgets(op, k) {
      ForgetRemoves(l, op, k, capacity);
    } else {
      ForgetOther(l, op, k, capacity);
    }
  }

  lemma ForgetRemoves(l: seq<Entry>, op: Op, k: string, capacity: nat)
    requires Once(l) && Forgets(op, k)
    ensures Find(After(l, op, capacity), k).None?
  {
    FindIs(After(l, op, capacity), k);
    if op.Forget? {
      WithoutIs(l, k);
    } else {
      PurgedIs(l, op.queue);
    }
  }

  /** A key forgotten by a Delete or a purge of its queue is accepted when it is next presented, whatever
      happens to other keys in between. */
  lemma {:induction false} ForgottenIsAccepted(l: seq<Entry>, ops: seq<Op>, n: nat, k: string, t: Time, capacity: nat)
    requires 0 < n <= |ops| && Once(l) && |l| <= capacity && capacity > 0
    requires Drops(ops[0], k) && forall i :: 0 < i < n ==> !Presents(ops[i], k)
    ensures !Live(RunFrom(l, ops, n, capacity), k, t)
  {
    hide Drops;
    StaysForgotten(l, ops, n, k, capacity);
  }

  lemma {:induction false} StaysForgotten(l: seq<Entry>, ops: seq<Op>, n: nat, k: string, capacity: nat)
    requires 0 < n <= |ops| && Once(l) && |l| <= capacity && capacity > 0
    requires Drops(ops[0], k) && forall i :: 0 < i < n ==> !Presents(ops[i], k)
    ensures Find(RunFrom(l, ops, n, capacity), k).None?
  {
    hide After, Forgets, Drops;
    RunsFit(l, ops, n - 1, capacity);
    var before, op := RunFrom(l, ops, n - 1, capacity), ops[n - 1];
    ForgetsIs(op, k);
    if n == 1 {
      ForgetRemoves(l, op, k, capacity);
    } else {
      StaysForgotten(l, ops, n - 1, k, capacity);
      if op.Present? {
        PresentOtherAbsent(before, op, k, capacity);
      } else if Forgets(op, k) {
        ForgetRemoves(before, op, k, capacity);
      } else {
        ForgetOther(before, op, k, capacity);
      }
    }
  }

  /** `k` has just been presented (its entry is in front), and is neither presented again nor
      deleted nor purged in the next `n` calls. */
  ghost predicate LeftAlone(l: seq<Entry>, ops: seq<Op>, n: nat, k: string, capacity: nat)
    requires n <= |ops|
  {
    && Once(l) && |l| <= capacity && capacity > 0
    && l != [] && l[0].key == k
    && forall i :: 0 <= i < n ==> (ops[i].Present? ==> ops[i].key != k) && !Forgets(ops[i], k)
  }

  lemma {:induction false} StaysWhileFew(l: seq<Entry>, ops: seq<Op>, n: nat, k: string, capacity: nat)
    requires n <= |ops| && LeftAlone(l, ops, n, k, capacity) && |Presented(ops, n)| < capacity
    ensures Find(RunFrom(l, ops, n, capacity), k) == Some(l[0])
    ensures Ahead(RunFrom(l, ops, n, capacity), k) <= Presented(ops, n)
  {
    hide After, Forgets;
    if n > 0 {
      Smaller(Presented(ops, n - 1), Presented(ops, n));
      StaysWhileFew(l, ops, n - 1, k, capacity);
      RunsFit(l, ops, n - 1, capacity);
      var before := RunFrom(l, ops, n - 1, capacity);
      if ops[n - 1].Present? {
        PresentOther(before, ops[n - 1], k, capacity);
        Smaller(Ahead(before, k) + {ops[n - 1].key}, Presented(ops, n));
      } else {
        ForgetOther(before, ops[n - 1], k, capacity);
      }
    }
  }

  lemma Smaller<T>(a: set<T>, b: set<T>)
    requires a <= b
    ensures |a| <= |b|
  {
    assert b == a + (b - a);
  }

  /** Without deletions the bound is exact. */
  lemma {:induction false} GoneWhenMany(l: seq<Entry>, ops: seq<Op>, n: nat, k: string, capacity: nat)
    requires n <= |ops| && LeftAlone(l, ops, n, k, capacity)
    requires forall i :: 0 <= i < n ==> ops[i].Present?
    ensures var l' := RunFrom(l, ops, n, capacity);
            if |Presented(ops, n)| < capacity then Find(l', k) == Some(l[0]) && Ahead(l', k) == Presented(ops, n)
            else Find(l', k) == None
  {
    hide After, Forgets;
    if n > 0 {
      Smaller(Presented(ops, n - 1), Presented(ops, n));
      GoneWhenMany(l, ops, n - 1, k, capacity);
      RunsFit(l, ops, n - 1, capacity);
      var before := RunFrom(l, ops, n - 1, capacity);
      if |Presented(ops, n - 1)| < capacity {
        PresentOther(before, ops[n - 1], k, capacity);
      } else {
        PresentOtherAbsent(before, ops[n - 1], k, capacity);
      }
    }
  }

  /** Retention: a key that is not deleted or purged answers exactly by its own expiry as long as
      fewer than `capacity` distinct other keys were presented since; and with no deletions at all,
      once that many were presented it is forgotten. A hit moved the entry without touching the
      expiry, so the expiry is always that of the key's last acceptance. */
  lemma Retention(l: seq<Entry>, ops: seq<Op>, n: nat, k: string, capacity: nat, now: Time)
    requires n <= |ops| && LeftAlone(l, ops, n, k, capacity)
    ensures |Presented(ops, n)| < capacity ==>
              (Live(RunFrom(l, ops, n, capacity), k, now) <==> now < l[0].expiresAt)
    ensures |Presented(ops, n)| >= capacity && (forall i :: 0 <= i < n ==> ops[i].Present?) ==>
              !Has(RunFrom(l, ops, n, capacity), k)
  {
    hide LeftAlone, RunFrom;
    if |Presented(ops, n)| < capacity {
      StaysWhileFew(l, ops, n, k, capacity);
    } else if forall i :: 0 <= i < n ==> ops[i].Present? {
      GoneWhenMany(l, ops, n, k, capacity);
      FindIs(RunFrom(l, ops, n, capacity), k);
    }
  }

  /** A hit leaves every key's expiry as it was; a miss sets its own key's to `now + ttl`. */
  lemma HitKeepsExpiry(l: seq<Entry>, key: string, ttl: int, now: Time, capacity: nat, k: string)
    requires Once(l) && |l| <= capacity && capacity > 0
    ensures var l' := After(l, Present(key, ttl, now), capacity);
            && (Live(l, key, now) ==> Find(l', k) == Find(l, k))
            && (!Live(l, key, now) ==> Find(l', key) == Some(Entry(key, now + ttl)))
            && (!Live(l, key, now) && k != key ==> Find(l', k) == Find(l, k) || Find(l', k) == None)
  {
    FindIs(l, key);
    WithoutIs(l, key);
    var l' := After(l, Present(key, ttl, now), capacity);
    if k == key {
      assert l' != [];
    } else if Find(l, k).Some? {
      PresentOther(l, Present(key, ttl, now), k, capacity);
      if Live(l, key, now) {
        AheadWithout(l, key, k);
        assert l'[1..] == Without(l, key);
      }
    } else {
      PresentOtherAbsent(l, Present(key, ttl, now), k, capacity);
    }
  }
}
