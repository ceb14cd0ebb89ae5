/** The order in which a queue is delivered: highest priority first, oldest first within a
    priority, arrival order among equals. */
module DeliveryOrder {
  import opened Messages
  import opened Arithmetic

  datatype Key = Key(priority: int, createdAt: Time)

  function KeyOf(m: Message): Key {
    Key(m.priority, m.createdAt)
  }

  /** The comparison given to the stable sort: `a` goes strictly before `b`. */
  predicate Less(a: Message, b: Message) {
    if a.priority != b.priority then a.priority > b.priority else a.createdAt < b.createdAt
  }

  ghost predicate Sorted(s: seq<Message>) {
    forall i, j :: 0 <= i < j < |s| ==> !Less(s[j], s[i])
  }

  /** The messages of `s` with key `k`, in their order. */
  function ByKey(s: seq<Message>, k: Key): seq<Message> {
    if s == [] then []
    else if KeyOf(s[|s| - 1]) == k then ByKey(s[..|s| - 1], k) + [s[|s| - 1]]
    else ByKey(s[..|s| - 1], k)
  }

  /** Equal up to moving messages with different keys past each other. */
  ghost predicate SameByKey(a: seq<Message>, b: seq<Message>) {
    forall k :: ByKey(a, k) == ByKey(b, k)
  }

  lemma ByKeyLast(s: seq<Message>, m: Message, k: Key)
    ensures ByKey(s + [m], k) == if KeyOf(m) == k then ByKey(s, k) + [m] else ByKey(s, k)
  {
    assert (s + [m])[..|s|] == s;
  }

  lemma {:induction false} ByKeyMembers(s: seq<Message>, k: Key, m: Message)
    ensures m in ByKey(s, k) <==> m in s && KeyOf(m) == k
  {
    if s != [] {
      ByKeyMembers(s[..|s| - 1], k, m);
      assert s == s[..|s| - 1] + [s[|s| - 1]];
    }
  }

  // ----- the stable sort -----

  /** `m` goes after everything it is not strictly before. */
  function InsertLast(s: seq<Message>, m: Message): seq<Message> {
    if s != [] && Less(m, s[|s| - 1]) then InsertLast(s[..|s| - 1], m) + [s[|s| - 1]] else s + [m]
  }

  function StableSort(s: seq<Message>): seq<Message> {
    if s == [] then [] else InsertLast(StableSort(s[..|s| - 1]), s[|s| - 1])
  }

  lemma {:induction false} InsertLastMembers(s: seq<Message>, m: Message, x: Message)
    ensures x in InsertLast(s, m) <==> x in s || x == m
  {
    if s != [] && Less(m, s[|s| - 1]) {
      InsertLastMembers(s[..|s| - 1], m, x);
      assert s == s[..|s| - 1] + [s[|s| - 1]];
    }
  }

  lemma {:induction false} InsertLastSorted(s: seq<Message>, m: Message)
    requires Sorted(s)
    ensures Sorted(InsertLast(s, m))
  {
    if s != [] && Less(m, s[|s| - 1]) {
      var init, last := s[..|s| - 1], s[|s| - 1];
      InsertLastSorted(init, m);
      var t := InsertLast(init, m);
      forall i | 0 <= i < |t| ensures !Less(last, t[i]) {
        InsertLastMembers(init, m, t[i]);
      }
    }
  }

  lemma {:induction false} InsertLastByKey(s: seq<Message>, m: Message, k: Key)
    ensures ByKey(InsertLast(s, m), k) == ByKey(s + [m], k)
  {
    ByKeyLast(s, m, k);
    if s != [] && Less(m, s[|s| - 1]) {
      var init, last := s[..|s| - 1], s[|s| - 1];
      InsertLastByKey(init, m, k);
      ByKeyLast(init, m, k);
      ByKeyLast(InsertLast(init, m), last, k);
    }
  }

  /** The sort sorts, and keeps the order among messages with equal keys. */
  lemma {:induction false} StableSortSorts(s: seq<Message>)
    ensures Sorted(StableSort(s)) && SameByKey(StableSort(s), s)
  {
    if s != [] {
      var init, last := s[..|s| - 1], s[|s| - 1];
      StableSortSorts(init);
      InsertLastSorted(StableSort(init), last);
      forall k ensures ByKey(StableSort(s), k) == ByKey(s, k) {
        InsertLastByKey(StableSort(init), last, k);
        ByKeyLast(StableSort(init), last, k);
      }
    }
  }

  /** Sorted, on the fields: by priority descending, then by creation time ascending. */
  lemma SortOrder(s: seq<Message>)
    ensures var t := StableSort(s);
            && (forall i, j :: 0 <= i < j < |t| ==>
                  t[i].priority >= t[j].priority && (t[i].priority == t[j].priority ==> t[i].createdAt <= t[j].createdAt))
            && forall x :: x in t <==> x in s
  {
    StableSortSorts(s);
    SameMembers(StableSort(s), s);
    var t := StableSort(s);
    hide StableSort, SameByKey;
    forall i, j | 0 <= i < j < |t|
      ensures t[i].priority >= t[j].priority && (t[i].priority == t[j].priority ==> t[i].createdAt <= t[j].createdAt)
    {
      assert !Less(t[j], t[i]);
    }
  }

  /** The last message of a sorted list is behind every other list with the same messages. */
  lemma LastKeys(a: seq<Message>, b: seq<Message>)
    requires Sorted(a) && Sorted(b) && SameByKey(a, b) && a != [] && b != []
    ensures KeyOf(a[|a| - 1]) == KeyOf(b[|b| - 1])
  {
    var x, y := a[|a| - 1], b[|b| - 1];
    ByKeyMembers(a, KeyOf(x), x);
    ByKeyMembers(b, KeyOf(x), x);
    ByKeyMembers(a, KeyOf(y), y);
    ByKeyMembers(b, KeyOf(y), y);
    var i :| 0 <= i < |b| && b[i] == x;
    var j :| 0 <= j < |a| && a[j] == y;
  }

  lemma SameMembers(a: seq<Message>, b: seq<Message>)
    requires SameByKey(a, b)
    ensures forall m :: m in a <==> m in b
  {
    forall m ensures m in a <==> m in b {
      ByKeyMembers(a, KeyOf(m), m);
      ByKeyMembers(b, KeyOf(m), m);
    }
  }

  lemma EmptyTogether(a: seq<Message>, b: seq<Message>)
    requires SameByKey(a, b)
    ensures a == [] <==> b == []
  {
    SameMembers(a, b);
    assert a != [] ==> a[0] in b;
    assert b != [] ==> b[0] in a;
  }

  lemma LastAndRest(p: seq<Message>, x: Message, q: seq<Message>, y: Message)
    requires p + [x] == q + [y]
    ensures p == q && x == y
  {
    assert p == (p + [x])[..|p + [x]| - 1] && x == (p + [x])[|p + [x]| - 1];
    assert q == (q + [y])[..|q + [y]| - 1] && y == (q + [y])[|q + [y]| - 1];
  }

  /** Sortedness and the per-key order determine a list: any two stable sorts agree. */
  lemma {:induction false} SortIsUnique(a: seq<Message>, b: seq<Message>)
    requires Sorted(a) && Sorted(b) && SameByKey(a, b)
    ensures a == b
  {
    EmptyTogether(a, b);
    if a != [] {
      LastKeys(a, b);
      var a', x, b', y := a[..|a| - 1], a[|a| - 1], b[..|b| - 1], b[|b| - 1];
      assert a == a' + [x] && b == b' + [y];
      assert ByKey(a, KeyOf(x)) == ByKey(b, KeyOf(x));
      LastAndRest(ByKey(a', KeyOf(x)), x, ByKey(b', KeyOf(x)), y);
      forall k ensures ByKey(a', k) == ByKey(b', k) {
        assert ByKey(a, k) == ByKey(b, k);
        if k == KeyOf(x) {
          LastAndRest(ByKey(a', k), x, ByKey(b', k), y);
        }
      }
      SortIsUnique(a', b');
    }
  }

  lemma SortsAgree(a: seq<Message>, b: seq<Message>)
    requires SameByKey(a, b)
    ensures StableSort(a) == StableSort(b)
    ensures Sorted(a) ==> StableSort(b) == a
  {
    StableSortSorts(a);
    StableSortSorts(b);
    hide ByKey, StableSort, Sorted;
    SortIsUnique(StableSort(a), StableSort(b));
    if Sorted(a) {
      SortIsUnique(a, StableSort(b));
    }
  }

  // ----- taking messages out -----

  /** `s` without the first occurrence of `m`. */
  function Remove(s: seq<Message>, m: Message): seq<Message> {
    if s == [] then []
    else if m in s[..|s| - 1] then Remove(s[..|s| - 1], m) + [s[|s| - 1]]
    else if s[|s| - 1] == m then s[..|s| - 1]
    else s
  }

  function RemoveAll(s: seq<Message>, ms: seq<Message>): seq<Message> {
    if ms == [] then s else Remove(RemoveAll(s, ms[..|ms| - 1]), ms[|ms| - 1])
  }

  lemma RemoveLast(s: seq<Message>, last: Message, m: Message)
    ensures Remove(s + [last], m)
            == if m in s then Remove(s, m) + [last] else if last == m then s else s + [last]
    ensures m !in s ==> Remove(s, m) == s
  {
    assert (s + [last])[..|s|] == s;
  }

  lemma {:induction false} RemoveByKey(s: seq<Message>, m: Message, k: Key)
    ensures ByKey(Remove(s, m), k) == if KeyOf(m) == k then Remove(ByKey(s, k), m) else ByKey(s, k)
  {
    if s != [] {
      var init, last := s[..|s| - 1], s[|s| - 1];
      assert s == init + [last];
      hide ByKey, Remove;
      RemoveByKey(init, m, k);
      ByKeyMembers(init, k, m);
      ByKeyLast(Remove(init, m), last, k);
      ByKeyLast(init, last, k);
      RemoveLast(init, last, m);
      RemoveLast(ByKey(init, k), last, m);
    }
  }

  lemma RemoveSame(a: seq<Message>, b: seq<Message>, m: Message)
    requires SameByKey(a, b)
    ensures SameByKey(Remove(a, m), Remove(b, m))
  {
    hide ByKey, Remove;
    forall k ensures ByKey(Remove(a, m), k) == ByKey(Remove(b, m), k) {
      RemoveByKey(a, m, k);
      RemoveByKey(b, m, k);
    }
  }

  lemma {:induction false} RemoveAllSame(a: seq<Message>, b: seq<Message>, ms: seq<Message>)
    requires SameByKey(a, b)
    ensures SameByKey(RemoveAll(a, ms), RemoveAll(b, ms))
  {
    if ms != [] {
      RemoveAllSame(a, b, ms[..|ms| - 1]);
      RemoveSame(RemoveAll(a, ms[..|ms| - 1]), RemoveAll(b, ms[..|ms| - 1]), ms[|ms| - 1]);
    }
  }

  lemma {:induction false} RemoveAt(s: seq<Message>, i: nat)
    requires i < |s| && s[i] !in s[..i]
    ensures Remove(s, s[i]) == s[..i] + s[i + 1..]
  {
    var init := s[..|s| - 1];
    if i < |s| - 1 {
      assert init[..i] == s[..i] && init[i] == s[i];
      RemoveAt(init, i);
      assert s[..i] + s[i + 1..] == init[..i] + init[i + 1..] + [s[|s| - 1]];
    } else {
      assert s[..i] == init && s[i + 1..] == [];
    }
  }

  // ----- the scan of one dequeue -----

  datatype Scan = Scan(out: seq<Message>, kept: seq<Message>)

  /** The first `n` messages of `s` looked at one by one: due ones go out until `limit` are. */
  function ScanTo(s: seq<Message>, n: nat, limit: nat, now: Time): Scan
    requires n <= |s|
  {
    if n == 0 then Scan([], [])
    else
      var before, m := ScanTo(s, n - 1, limit, now), s[n - 1];
      if |before.out| >= limit || m.scheduledAt > now then Scan(before.out, before.kept + [m])
      else Scan(before.out + [m], before.kept)
  }

  function DueOf(s: seq<Message>, now: Time): seq<Message> {
    if s == [] then []
    else if s[|s| - 1].scheduledAt <= now then DueOf(s[..|s| - 1], now) + [s[|s| - 1]]
    else DueOf(s[..|s| - 1], now)
  }

  /** The first `limit` due messages of `s`. */
  function FirstDue(s: seq<Message>, limit: nat, now: Time): seq<Message> {
    DueOf(s, now)[..Min(limit, |DueOf(s, now)|)]
  }

  lemma {:induction false} ScanTakesFirstDue(s: seq<Message>, n: nat, limit: nat, now: Time)
    requires n <= |s|
    ensures ScanTo(s, n, limit, now).out == FirstDue(s[..n], limit, now)
  {
    if n > 0 {
      ScanTakesFirstDue(s, n - 1, limit, now);
      assert s[..n][..n - 1] == s[..n - 1];
    }
  }

  /** What is kept is the list without the messages taken, one occurrence for each. */
  lemma {:induction false} ScanKeepsOthers(s: seq<Message>, n: nat, limit: nat, now: Time)
    requires n <= |s|
    ensures var r := ScanTo(s, n, limit, now);
            && r.kept == RemoveAll(s[..n], r.out)
            && |r.kept| + |r.out| == n
            && (|r.out| < limit ==> forall m :: m in r.kept ==> m.scheduledAt > now)
  {
    if n > 0 {
      ScanKeepsOthers(s, n - 1, limit, now);
      var before, m := ScanTo(s, n - 1, limit, now), s[n - 1];
      assert s[..n] == s[..n - 1] + [m];
      RemoveAllAppend(s[..n - 1], before.out, m);
      if |before.out| < limit && m.scheduledAt <= now {
        assert m !in before.kept;
        assert (before.out + [m])[..|before.out|] == before.out;
        assert (before.kept + [m])[..|before.kept|] == before.kept;
      }
    }
  }

  /** Removals that all find their message leave a message appended later alone. */
  lemma {:induction false} RemoveAllAppend(s: seq<Message>, ms: seq<Message>, m: Message)
    requires |RemoveAll(s, ms)| + |ms| == |s|
    ensures RemoveAll(s + [m], ms) == RemoveAll(s, ms) + [m]
  {
    if ms != [] {
      var init, last := ms[..|ms| - 1], ms[|ms| - 1];
      RemoveAllLength(s, init);
      RemoveLength(RemoveAll(s, init), last);
      RemoveAllAppend(s, init, m);
      assert (RemoveAll(s, init) + [m])[..|RemoveAll(s, init)|] == RemoveAll(s, init);
    }
  }

  lemma {:induction false} RemoveLength(s: seq<Message>, m: Message)
    ensures |Remove(s, m)| == |s| - if m in s then 1 else 0
  {
    if s != [] {
      RemoveLength(s[..|s| - 1], m);
      assert s == s[..|s| - 1] + [s[|s| - 1]];
    }
  }

  lemma {:induction false} RemoveAllLength(s: seq<Message>, ms: seq<Message>)
    ensures |RemoveAll(s, ms)| + |ms| >= |s|
  {
    if ms != [] {
      RemoveAllLength(s, ms[..|ms| - 1]);
      RemoveLength(RemoveAll(s, ms[..|ms| - 1]), ms[|ms| - 1]);
    }
  }

  lemma {:induction false} ScanStaysSorted(s: seq<Message>, n: nat, limit: nat, now: Time)
    requires n <= |s| && Sorted(s)
    ensures Sorted(ScanTo(s, n, limit, now).kept)
    ensures forall m :: m in ScanTo(s, n, limit, now).kept ==> m in s[..n]
  {
    if n > 0 {
      ScanStaysSorted(s, n - 1, limit, now);
      var kept := ScanTo(s, n - 1, limit, now).kept;
      forall i | 0 <= i < |kept| ensures !Less(s[n - 1], kept[i]) {
        assert kept[i] in s[..n - 1];
      }
    }
  }
}
