/** The acknowledgement buffer as the broker's code runs it, in front of a SQL store whose calls
    may fail. */
module AckFlush {
  import opened Messages
  import opened AckBuffer
  import M = SqlMachine
  import SqlStore

  datatype Flushed = Flushed(pending: map<string, seq<Id>>, db: M.Db, failed: bool)

  /** One queue: take the slice, AckBatch, put the slice back on failure. */
  function FlushOne(pending: map<string, seq<Id>>, db: M.Db, q: string, storeFails: bool): Flushed {
    if IdsOf(pending, q) == [] then Flushed(pending - {q}, db, false)
    else if storeFails then Flushed(pending, db, true)
    else Flushed(pending - {q}, M.AckBatch(db, q, pending[q]), false)
  }

  /** Queues `qs[..n]` one after another, going on after a failure; `down` holds the queues whose
      AckBatch call fails. */
  function FlushEach(pending: map<string, seq<Id>>, db: M.Db, qs: seq<string>, n: nat, down: set<string>): Flushed
    requires n <= |qs|
  {
    if n == 0 then Flushed(pending, db, false)
    else
      var before := FlushEach(pending, db, qs, n - 1, down);
      var last := FlushOne(before.pending, before.db, qs[n - 1], qs[n - 1] in down);
      Flushed(last.pending, last.db, before.failed || last.failed)
  }

  class Buffer {
    const batchSize: nat
    const store: SqlStore.Store
    var pendingAcks: map<string, seq<Id>>

    constructor (batchSize: nat, store: SqlStore.Store)
      ensures this.batchSize == batchSize && this.store == store && pendingAcks == map[]
    {
      this.batchSize := batchSize;
      this.store := store;
      pendingAcks := map[];
    }

    /** Without batching the store is called at once; with it the id is buffered, and the slice is
        flushed as soon as it holds `batchSize` ids. */
    method Ack(q: string, id: Id, storeFails: bool) returns (failed: bool)
      modifies this, store
      ensures batchSize == 0 ==>
        && pendingAcks == old(pendingAcks) && failed == storeFails
        && store.Db() == if storeFails then old(store.Db()) else M.Ack(old(store.Db()), q, id)
      ensures batchSize > 0 ==>
        var added := old(pendingAcks)[q := IdsOf(old(pendingAcks), q) + [id]];
        Flushed(pendingAcks, store.Db(), failed)
        == if |added[q]| >= batchSize then FlushOne(added, old(store.Db()), q, storeFails)
           else Flushed(added, old(store.Db()), false)
    {
      if batchSize == 0 {
        if !storeFails {
          store.Ack(q, id);
        }
        return storeFails;
      }
      pendingAcks := pendingAcks[q := IdsOf(pendingAcks, q) + [id]];
      failed := false;
      if |pendingAcks[q]| >= batchSize {
        failed := FlushAcks(q, storeFails);
      }
    }

    method FlushAcks(q: string, storeFails: bool) returns (failed: bool)
      modifies this, store
      ensures Flushed(pendingAcks, store.Db(), failed)
              == FlushOne(old(pendingAcks), old(store.Db()), q, storeFails)
    {
      var ids := IdsOf(pendingAcks, q);
      pendingAcks := pendingAcks - {q};
      if |ids| == 0 {
        return false;
      }
      if storeFails {
        pendingAcks := pendingAcks[q := ids + IdsOf(pendingAcks, q)];
        assert ids + [] == ids;
        assert pendingAcks == old(pendingAcks);
        return true;
      }
      store.AckBatch(q, ids);
      failed := false;
    }

    /** `queues` is the map iteration: the buffered queues in any order. */
    method FlushAllAcks(queues: seq<string>, down: set<string>) returns (failed: bool)
      requires forall q :: q in pendingAcks ==> q in queues
      modifies this, store
      ensures Flushed(pendingAcks, store.Db(), failed)
              == FlushEach(old(pendingAcks), old(store.Db()), queues, |queues|, down)
    {
      failed := false;
      for i := 0 to |queues|
        invariant Flushed(pendingAcks, store.Db(), failed)
                  == FlushEach(old(pendingAcks), old(store.Db()), queues, i, down)
      {
        var f := FlushAcks(queues[i], queues[i] in down);
        failed := failed || f;
      }
    }
  }

  /** Nothing named in `ids` is still claimed in `q`. */
  ghost predicate Settled(db: M.Db, q: string, ids: seq<Id>) {
    forall id :: id in ids ==> !M.Is(db.rows, id, q, M.Processing)
  }

  lemma {:induction false} FlushEachEffect(pending: map<string, seq<Id>>, db: M.Db, qs: seq<string>, n: nat,
                                           down: set<string>, q: string)
    requires n <= |qs|
    ensures var f := FlushEach(pending, db, qs, n, down);
            && IdsOf(f.pending, q) == (if q in qs[..n] && q !in down then [] else IdsOf(pending, q))
            && (q in qs[..n] && q !in down ==> Settled(f.db, q, IdsOf(pending, q)))
            && (forall id :: M.Is(f.db.rows, id, q, M.Processing) ==> M.Is(db.rows, id, q, M.Processing))
            && (q in qs[..n] && q in down && IdsOf(pending, q) != [] ==> f.failed)
            && (forall p :: p in f.pending ==> p in pending)
    decreases n
  {
    if n > 0 {
      FlushEachEffect(pending, db, qs, n - 1, down, q);
      assert qs[..n] == qs[..n - 1] + [qs[n - 1]];
      var before := FlushEach(pending, db, qs, n - 1, down);
      var p := qs[n - 1];
      FlushOneEffect(before.pending, before.db, p, p in down, q);
    }
  }

  lemma FlushOneEffect(pending: map<string, seq<Id>>, db: M.Db, p: string, storeFails: bool, q: string)
    ensures var f := FlushOne(pending, db, p, storeFails);
            && IdsOf(f.pending, q) == (if q == p && !storeFails then [] else IdsOf(pending, q))
            && (q == p && !storeFails ==> Settled(f.db, q, IdsOf(pending, q)))
            && (forall id :: M.Is(f.db.rows, id, q, M.Processing) ==> M.Is(db.rows, id, q, M.Processing))
            && (q == p && storeFails && IdsOf(pending, q) != [] ==> f.failed)
            && (forall x :: x in f.pending ==> x in pending)
  {
    var ids := IdsOf(pending, p);
    assert forall id :: id in M.Ackable(db, p, ids) <==> id in ids && M.Is(db.rows, id, p, M.Processing);
    assert M.Ackable(db, p, ids) == {} ==> Settled(db, p, ids);
  }

  /** A flush of everything, after which the store holds no claimed row that was buffered unless
      that queue's call failed; without a failure the buffer is empty, and a failed queue keeps
      all its ids in order. */
  lemma FlushAllEmpties(pending: map<string, seq<Id>>, db: M.Db, qs: seq<string>, down: set<string>)
    requires forall q :: q in pending ==> q in qs
    ensures var f := FlushEach(pending, db, qs, |qs|, down);
            && (forall q :: IdsOf(f.pending, q) == if q in down then IdsOf(pending, q) else [])
            && (forall q :: q !in down ==> Settled(f.db, q, IdsOf(pending, q)))
            && (!f.failed ==> forall q :: IdsOf(f.pending, q) == [])
  {
    hide FlushEach, Settled;
    var f := FlushEach(pending, db, qs, |qs|, down);
    assert qs[..|qs|] == qs;
    forall q
      ensures IdsOf(f.pending, q) == if q in down then IdsOf(pending, q) else []
      ensures q !in down ==> Settled(f.db, q, IdsOf(pending, q))
      ensures !f.failed ==> IdsOf(f.pending, q) == []
    {
      FlushEachEffect(pending, db, qs, |qs|, down, q);
      if IdsOf(pending, q) == [] {
        assert Settled(f.db, q, []) by {
          SettledNone(f.db, q);
        }
      }
    }
  }

  lemma SettledNone(db: M.Db, q: string)
    ensures Settled(db, q, [])
  {
  }
}
