/** What the freelist object keeps true between calls, and the facts its methods rely on, over plain values. */
module FreelistInvariant {
  import opened Pgids
  import opened Spans
  import opened ArrayScan
  import opened Sweep
  import opened FreelistSpec
  import opened Pending

  datatype Backend = ArrayBackend | HashBackend

  /** What free can come to: the source panics on a meta page and on a page that is already free. */
  datatype FreeOutcome = Freed | PanicMetaPage | PanicAlreadyFreed

  ghost function FreePages(backend: Backend, ids: seq<nat>, ix: Index): set<nat> {
    if backend.ArrayBackend? then Elements(ids) else Pages(ix)
  }

  /** The backend in use holds its free pages in proper form, and no meta page among them. */
  ghost predicate StoreOk(backend: Backend, ids: seq<nat>, ix: Index) {
    && NoMetaPage(FreePages(backend, ids, ix))
    && (backend.ArrayBackend? ==> StrictlySorted(ids))
    && (backend.HashBackend? ==> Consistent(ix))
  }

  /** Free and pending pages are disjoint and the cache holds exactly both. */
  ghost predicate AllOk(backend: Backend, ids: seq<nat>, ix: Index, pending: Table, cache: set<nat>) {
    && StoreOk(backend, ids, ix)
    && TableOk(pending)
    && FreePages(backend, ids, ix) !! PagesOf(Entries(pending))
    && cache == FreePages(backend, ids, ix) + PagesOf(Entries(pending))
  }

  /** Taking pages out of the free set and out of the cache keeps the object valid. */
  lemma TakeKeepsOk(backend: Backend, ids: seq<nat>, ids': seq<nat>, ix: Index, ix': Index, pending: Table, cache: set<nat>, taken: set<nat>)
    requires AllOk(backend, ids, ix, pending, cache)
    requires backend.ArrayBackend? ==> StrictlySorted(ids')
    requires backend.HashBackend? ==> Consistent(ix')
    requires taken <= FreePages(backend, ids, ix)
    requires FreePages(backend, ids', ix') == FreePages(backend, ids, ix) - taken
    ensures AllOk(backend, ids', ix', pending, cache - taken)
  {
  }

  lemma MergeSorted(ids: seq<nat>, m: seq<nat>)
    requires StrictlySorted(ids)
    ensures Sorted(ids) && Sorted(Sort(m))
  {
  }

  lemma MergedIds(ids: seq<nat>, m: seq<nat>, merged: seq<nat>)
    requires StrictlySorted(ids) && Distinct(m) && Elements(m) !! Elements(ids)
    requires Sorted(merged) && multiset(merged) == multiset(ids) + multiset(Sort(m))
    ensures StrictlySorted(merged) && Elements(merged) == Elements(ids) + Elements(m)
  {
    SortDistinct(m);
    MergedUnion(ids, Sort(m), merged);
  }

  /** free after k pages: they are in the transaction's record, in the cache, and were tracked nowhere. */
  ghost predicate Stamping(backend: Backend, ids: seq<nat>, ix: Index, before: Table, cache0: set<nat>, txid: nat,
                           txp: TxPending, allocTxid: nat, head: nat, k: nat, cache: set<nat>) {
    && AllOk(backend, ids, ix, before, cache0)
    && RecordOk(txid, txp) && txp.lastReleaseBegin == 0 && allocTxid <= txid && head >= 2
    && EntriesOf(txid, txp) == (if txid in before then EntriesOf(txid, before[txid]) else {}) + Stamp(Run(head, k), txid, allocTxid)
    && Elements(txp.ids) == (if txid in before then Elements(before[txid].ids) else {}) + Run(head, k)
    && Run(head, k) !! cache0
    && cache == cache0 + Run(head, k)
  }

  lemma StampStart(backend: Backend, ids: seq<nat>, ix: Index, before: Table, cache: set<nat>, txid: nat,
                   txp: TxPending, allocTxid: nat, head: nat)
    requires AllOk(backend, ids, ix, before, cache) && allocTxid <= txid < MAX_TXID && head >= 2
    requires txp == if txid in before then before[txid] else TxPending([], [], 0)
    requires txp.lastReleaseBegin == 0
    ensures Stamping(backend, ids, ix, before, cache, txid, txp, allocTxid, head, 0, cache)
  {
    assert Run(head, 0) == {};
    assert Stamp({}, txid, allocTxid) == {};
  }

  lemma StampStep(backend: Backend, ids: seq<nat>, ix: Index, before: Table, cache0: set<nat>, txid: nat,
                  txp: TxPending, allocTxid: nat, head: nat, k: nat, cache: set<nat>)
    requires Stamping(backend, ids, ix, before, cache0, txid, txp, allocTxid, head, k, cache)
    requires head + k !in cache
    ensures Stamping(backend, ids, ix, before, cache0, txid,
                     txp.(ids := txp.ids + [head + k], alloctx := txp.alloctx + [allocTxid]),
                     allocTxid, head, k + 1, cache + {head + k})
  {
    hide AllOk;
    var id := head + k;
    var txp' := txp.(ids := txp.ids + [id], alloctx := txp.alloctx + [allocTxid]);
    assert Run(head, k + 1) == Run(head, k) + {id};
    ElementsAppend(txp.ids, [id]);
    RecordInCache(backend, ids, ix, before, cache0, txid);
    assert id !in Elements(txp.ids);
    DistinctAppend(txp.ids, [id]);
    AppendEntry(txid, txp, id, allocTxid);
    assert Stamp(Run(head, k + 1), txid, allocTxid) == Stamp(Run(head, k), txid, allocTxid) + {Entry(id, txid, allocTxid)};
  }

  lemma RecordInCache(backend: Backend, ids: seq<nat>, ix: Index, before: Table, cache0: set<nat>, txid: nat)
    requires AllOk(backend, ids, ix, before, cache0)
    ensures txid in before ==> Elements(before[txid].ids) <= cache0
  {
    if txid in before {
      forall p | p in before[txid].ids ensures p in cache0 {
        TablePages(before, p);
      }
    }
  }

  lemma AppendEntry(txid: nat, t: TxPending, id: nat, allocTxid: nat)
    requires |t.ids| == |t.alloctx|
    ensures EntriesOf(txid, t.(ids := t.ids + [id], alloctx := t.alloctx + [allocTxid]))
         == EntriesOf(txid, t) + {Entry(id, txid, allocTxid)}
  {
    var t' := t.(ids := t.ids + [id], alloctx := t.alloctx + [allocTxid]);
    forall e | e in EntriesOf(txid, t) ensures e in EntriesOf(txid, t') {
      var i :| 0 <= i < |t.ids| && e == Entry(t.ids[i], txid, t.alloctx[i]);
      assert e == Entry(t'.ids[i], txid, t'.alloctx[i]);
    }
    assert Entry(t'.ids[|t.ids|], txid, t'.alloctx[|t.ids|]) == Entry(id, txid, allocTxid);
  }

  lemma StampPanic(backend: Backend, ids: seq<nat>, ix: Index, before: Table, cache0: set<nat>, txid: nat,
                   txp: TxPending, allocTxid: nat, head: nat, k: nat, cache: set<nat>, len: nat)
    requires Stamping(backend, ids, ix, before, cache0, txid, txp, allocTxid, head, k, cache)
    requires head + k in cache && k < len
    ensures Run(head, len) * (FreePages(backend, ids, ix) + PagesOf(Entries(before))) != {}
  {
    assert head + k in Run(head, len) && head + k in cache0;
  }

  lemma StampDone(backend: Backend, ids: seq<nat>, ix: Index, before: Table, cache0: set<nat>, txid: nat,
                  txp: TxPending, allocTxid: nat, head: nat, len: nat, cache: set<nat>)
    requires Stamping(backend, ids, ix, before, cache0, txid, txp, allocTxid, head, len, cache)
    ensures AllOk(backend, ids, ix, before[txid := txp], cache)
    ensures Entries(before[txid := txp]) == Entries(before) + Stamp(Run(head, len), txid, allocTxid)
    ensures Run(head, len) * (FreePages(backend, ids, ix) + PagesOf(Entries(before))) == {}
  {
    var run, stamped := Run(head, len), Stamp(Run(head, len), txid, allocTxid);
    EntriesSet(before, txid, txp);
    EntriesFilter(before, txid);
    EntriesDrop(before, txid);
    assert Entries(before[txid := txp]) == Entries(before) + stamped;
    PagesOfUnion(Entries(before), stamped);
    StampPages(run, txid, allocTxid);
    StampTableOk(backend, ids, ix, before, cache0, txid, txp, run);
  }

  lemma StampTableOk(backend: Backend, ids: seq<nat>, ix: Index, before: Table, cache0: set<nat>, txid: nat, txp: TxPending, run: set<nat>)
    requires AllOk(backend, ids, ix, before, cache0) && RecordOk(txid, txp) && run !! cache0
    requires Elements(txp.ids) == (if txid in before then Elements(before[txid].ids) else {}) + run
    ensures TableOk(before[txid := txp])
  {
    forall y | y in before && y != txid ensures Elements(before[y].ids) !! Elements(txp.ids) {
      RecordInCache(backend, ids, ix, before, cache0, y);
    }
  }

  /** What an allocation of n pages must do, whatever the backend: fail only when no n consecutive pages are free. */
  ghost predicate Allocated(before: State, after: State, txid: nat, n: nat, pid: nat) {
    if pid == 0 then
      after == before && (n > 0 ==> NoRun(before.free, n))
    else
      n > 0 && Run(pid, n) <= before.free && after == TakeRun(before, txid, pid, n)
  }

  lemma IdsOk(backend: Backend, ids: seq<nat>, ix: Index, pending: Table, cache: set<nat>)
    requires AllOk(backend, ids, ix, pending, cache) && backend.ArrayBackend?
    ensures StrictlySorted(ids) && forall k :: 0 <= k < |ids| ==> ids[k] >= 2
  {
    assert forall k :: 0 <= k < |ids| ==> ids[k] in Elements(ids);
  }

  lemma NoIds(n: nat)
    ensures n > 0 ==> NoRun(Elements([]), n)
  {
    assert n > 0 ==> forall p: nat :: p in Run(p, n);
  }

  lemma ScanStart(ids: seq<nat>, n: nat)
    ensures Scanning(ids, 0, 0, 0, n)
  {
  }

  lemma FoundOk(backend: Backend, ids: seq<nat>, ix: Index, pending: Table, cache: set<nat>, i: nat, initial: nat, n: nat)
    requires AllOk(backend, ids, ix, pending, cache) && backend.ArrayBackend?
    requires i < |ids| && initial + n == ids[i] + 1 && Block(ids, i + 1, initial, n)
    requires n > 0 ==> NoRunUpTo(Elements(ids), n, ids[i] as int - 1)
    ensures n > 0 && n <= i + 1 && initial >= 2
    ensures i + 1 == n ==> ids[i + 1..] == ids[..i + 1 - n] + ids[i + 1..]
    ensures var rest := ids[..i + 1 - n] + ids[i + 1..];
      && AllOk(backend, rest, ix, pending, cache - Run(initial, n))
      && Elements(rest) == Elements(ids) - Run(initial, n)
    ensures Run(initial, n) <= Elements(ids)
    ensures forall p: nat :: Run(p, n) <= Elements(ids) ==> initial <= p
  {
    IdsOk(backend, ids, ix, pending, cache);
    var rest := ids[..i + 1 - n] + ids[i + 1..];
    Found(ids, i, initial, n, rest);
    assert ids[i + 1 - n] == initial;
    TakeKeepsOk(backend, ids, rest, ix, ix, pending, cache, Run(initial, n));
  }

  lemma TakeExact(backend: Backend, ids: seq<nat>, ix: Index, pending: Table, cache: set<nat>, pid: nat, n: nat)
    requires AllOk(backend, ids, ix, pending, cache) && backend.HashBackend?
    requires n in ix.buckets && pid in ix.buckets[n]
    ensures n >= 1 && pid >= 2
    ensures AllOk(backend, ids, Del(ix, pid, n), pending, cache - Run(pid, n))
    ensures Pages(Del(ix, pid, n)) == Pages(ix) - Run(pid, n) && Run(pid, n) <= Pages(ix)
  {
    DelConsistent(ix, pid, n);
    assert pid in Run(pid, n);
    TakeKeepsOk(backend, ids, ids, ix, Del(ix, pid, n), pending, cache, Run(pid, n));
  }

  lemma TakeSplit(backend: Backend, ids: seq<nat>, ix: Index, pending: Table, cache: set<nat>, pid: nat, size: nat, n: nat)
    requires AllOk(backend, ids, ix, pending, cache) && backend.HashBackend?
    requires size in ix.buckets && pid in ix.buckets[size] && 1 <= n < size
    ensures pid >= 2
    ensures AllOk(backend, ids, Add(Del(ix, pid, size), pid + n, size - n), pending, cache - Run(pid, n))
    ensures Pages(Add(Del(ix, pid, size), pid + n, size - n)) == Pages(ix) - Run(pid, n) && Run(pid, n) <= Pages(ix)
  {
    SplitConsistent(ix, pid, size, n);
    assert pid in Run(pid, n);
    TakeKeepsOk(backend, ids, ids, ix, Add(Del(ix, pid, size), pid + n, size - n), pending, cache, Run(pid, n));
  }

  lemma NoFit(ix: Index, n: nat)
    requires Consistent(ix) && n >= 1
    requires forall size :: size in ix.buckets ==> size < n
    ensures NoRun(Pages(ix), n)
  {
    forall p | Run(p, n) <= Pages(ix) ensures false {
      BigBucket(ix, p, n);
    }
  }

  lemma BigBucket(ix: Index, p: nat, n: nat)
    requires Consistent(ix) && n >= 1 && Run(p, n) <= Pages(ix)
    ensures exists size :: size in ix.buckets && size >= n
  {
    var s := RunInOneSpan(ix, p, n);
    assert ix.forward[s] in ix.buckets;
  }

  /** Pages 0 and 1 hold the metas and are never free. */
  ghost predicate NoMetaPage(pages: set<nat>) {
    forall p :: p in pages ==> p >= 2
  }

  /** Swept pages may be handed to the backend. */
  lemma SweptFresh(backend: Backend, ids: seq<nat>, ix: Index, before: Table, cache: set<nat>,
                   table: Table, todo: set<nat>, m: seq<nat>, moved: set<Entry>)
    requires AllOk(backend, ids, ix, before, cache) && Sweeping(before, table, todo, m, moved)
    ensures Distinct(m) && Elements(m) !! FreePages(backend, ids, ix) && forall p :: p in m ==> p >= 2
  {
    EntriesUnique(before);
    forall p | p in m ensures p in PagesOf(Entries(before)) && p >= 2 {
      assert p in Elements(m);
      var e :| e in moved && e.page == p;
      assert e in Entries(before);
    }
  }

  /** Handing swept pages to the backend keeps the object valid: they stay in the cache. */
  lemma SweptOk(backend: Backend, ids: seq<nat>, ix: Index, before: Table, cache: set<nat>,
                table: Table, todo: set<nat>, m: seq<nat>, moved: set<Entry>, ids': seq<nat>, ix': Index)
    requires AllOk(backend, ids, ix, before, cache) && Sweeping(before, table, todo, m, moved)
    requires StoreOk(backend, ids', ix')
    requires FreePages(backend, ids', ix') == FreePages(backend, ids, ix) + Elements(m)
    ensures AllOk(backend, ids', ix', table, cache)
  {
    hide StoreOk, FreePages, TableOk, Distinct;
    EntriesUnique(before);
    PagesOfDifference(Entries(before), moved);
    PagesOfUnion(Entries(table), moved);
    assert Entries(before) == Entries(table) + moved;
  }

  lemma AllTableOk(backend: Backend, ids: seq<nat>, ix: Index, pending: Table, cache: set<nat>)
    requires AllOk(backend, ids, ix, pending, cache)
    ensures TableOk(pending) && StoreOk(backend, ids, ix)
  {
  }

  /** What a rollback leaves: everything but the match between the cache and the tracked pages is as it should be. */
  lemma UndoneOk(backend: Backend, ids: seq<nat>, ix: Index, before: Table, cache0: set<nat>, x: nat,
                 m: seq<nat>, ids': seq<nat>, ix': Index, cache: set<nat>)
    requires AllOk(backend, ids, ix, before, cache0) && x in before
    requires Distinct(m) && Elements(m) == PagesOf(OwnPages(EntriesOf(x, before[x]), x))
    requires StoreOk(backend, ids', ix') && FreePages(backend, ids', ix') == FreePages(backend, ids, ix) + Elements(m)
    requires cache == cache0 - PagesOf(EntriesOf(x, before[x]))
    ensures TableOk(before - {x})
    ensures FreePages(backend, ids', ix') !! PagesOf(Entries(before - {x}))
    ensures AllOk(backend, ids', ix', before - {x}, cache) <==> m == []
  {
    var own, mine := OwnPages(EntriesOf(x, before[x]), x), EntriesOf(x, before[x]);
    EntriesUnique(before);
    EntriesFilter(before, x);
    PagesOfDifference(Entries(before), mine);
    assert own <= mine;
    OwnWithin(own, mine);
    PagesOfDifference(Entries(before - {x}) + mine, mine);
    assert Entries(before - {x}) + mine == Entries(before);
    PagesOfUnion(Entries(before - {x}), mine);
    EmptyElements(m);
    assert Elements(m) <= PagesOf(mine);
    hide StoreOk, TableOk, OneEntryPerPage, Entries, EntriesOf, FreePages;
    assert PagesOf(Entries(before - {x})) == PagesOf(Entries(before)) - PagesOf(mine);
  }

  lemma OwnWithin(own: set<Entry>, mine: set<Entry>)
    requires own <= mine
    ensures PagesOf(own) <= PagesOf(mine)
  {
    PagesOfUnion(own, mine);
    assert own + mine == mine;
  }

  lemma UndoFresh(backend: Backend, ids: seq<nat>, ix: Index, before: Table, cache0: set<nat>, x: nat, m: seq<nat>)
    requires AllOk(backend, ids, ix, before, cache0) && x in before
    requires Elements(m) == PagesOf(OwnPages(EntriesOf(x, before[x]), x))
    ensures Elements(m) !! FreePages(backend, ids, ix) && forall p :: p in m ==> p >= 2
  {
    EntriesUnique(before);
    EntriesFilter(before, x);
    OwnWithin(EntriesOf(x, before[x]), Entries(before));
    OwnWithin(OwnPages(EntriesOf(x, before[x]), x), EntriesOf(x, before[x]));
    RecordPages(x, before[x]);
    assert forall p :: p in m ==> p in Elements(m);
  }

  lemma TrackedSize(backend: Backend, ids: seq<nat>, ix: Index, pending: Table, cache: set<nat>)
    requires AllOk(backend, ids, ix, pending, cache)
    ensures FreePages(backend, ids, ix) !! PagesOf(Entries(pending))
    ensures |FreePages(backend, ids, ix) + PagesOf(Entries(pending))|
         == |FreePages(backend, ids, ix)| + |PagesOf(Entries(pending))|
  {
  }

  lemma NoMetaIn(a: set<nat>, b: set<nat>)
    requires a <= b && NoMetaPage(b)
    ensures NoMetaPage(a)
  {
  }
}
