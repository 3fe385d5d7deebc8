/** The freelist object of freelist.go and freelist_hmap.go, with both backends for the free pages. */
module Freelists {
  import opened Pgids
  import opened Spans
  import opened ArrayScan
  import opened Sweep
  import opened Listing
  import opened FreelistSpec
  import opened Pending
  import opened FreelistInvariant

  /** A freelist page: the header's flag and 16-bit count, and the data area as 8-byte words. */
  class FreelistPage {
    var isFreelist: bool
    var count: nat
    const words: array<nat>

    constructor (size: nat)
      ensures !isFreelist && count == 0 && words.Length == size && fresh(words)
    {
      isFreelist, count := false, 0;
      words := new nat[size];
    }

    ghost predicate Readable()
      reads this, words
    {
      WordsOk(count, words[..])
    }

    ghost function Ids(): seq<nat>
      reads this, words
      requires Readable()
    {
      Decoded(count, words[..])
    }
  }

  class Freelist {
    const backend: Backend
    var ids: seq<nat>
    var allocs: map<nat, nat>
    var pending: Table
    var cache: set<nat>
    var freemaps: map<nat, set<nat>>
    var forwardMap: map<nat, nat>
    var backwardMap: map<nat, nat>

    /** The span index held in the last three fields. */
    ghost function Ix(): Index
      reads this
    {
      Index(forwardMap, backwardMap, freemaps)
    }

    ghost function Free(): set<nat>
      reads this
    {
      FreePages(backend, ids, Ix())
    }

    ghost function Abs(): State
      reads this
    {
      State(Free(), Entries(pending), allocs)
    }

    ghost predicate BackendOk()
      reads this
    {
      StoreOk(backend, ids, Ix())
    }

    ghost predicate Valid()
      reads this
    {
      AllOk(backend, ids, Ix(), pending, cache)
    }

    constructor (backend: Backend)
      ensures Valid() && this.backend == backend
      ensures pending == map[]
      ensures Abs() == State({}, {}, map[])
    {
      this.backend := backend;
      ids := [];
      allocs := map[];
      pending := map[];
      cache := {};
      freemaps := map[];
      forwardMap := map[];
      backwardMap := map[];
    }

    lemma WellFormedAbs()
      requires Valid()
      ensures WellFormed(Abs())
      ensures forall e :: e in Abs().pending ==> e.freedBy < MAX_TXID
    {
      EntriesUnique(pending);
    }

    // ---------- the hashmap backend's span index ----------

    method AddSpan(start: nat, size: nat)
      requires size >= 1
      modifies `backwardMap, `forwardMap, `freemaps
      ensures Ix() == Add(old(Ix()), start, size)
    {
      backwardMap := backwardMap[start + size - 1 := size];
      forwardMap := forwardMap[start := size];
      freemaps := BucketAdd(freemaps, start, size);
    }

    method DelSpan(start: nat, size: nat)
      requires size >= 1
      modifies `backwardMap, `forwardMap, `freemaps
      ensures Ix() == Del(old(Ix()), start, size)
    {
      forwardMap := forwardMap - {start};
      backwardMap := backwardMap - {start + size - 1};
      freemaps := BucketDel(freemaps, start, size);
    }

    /** Adds one page to the free spans, joining it with the span that ends before it and the one that starts after it. */
    method MergeWithExistingSpan(pid: nat)
      requires backend.HashBackend? && BackendOk() && pid >= 2 && pid !in Free()
      modifies `backwardMap, `forwardMap, `freemaps
      ensures BackendOk()
      ensures Free() == old(Free()) + {pid}
    {
      hide Consistent, Pages, Add, Del;
      MergedConsistent(Ix(), pid);
      Neighbours(Ix(), pid);
      var prev, next := pid - 1, pid + 1;
      var mergeWithPrev, mergeWithNext := prev in backwardMap, next in forwardMap;
      var preSize, nextSize := Lookup(backwardMap, prev), Lookup(forwardMap, next);
      var newStart, newSize := pid, 1;
      if mergeWithPrev {
        var start := prev + 1 - preSize;
        DelSpan(start, preSize);
        newStart := newStart - preSize;
        newSize := newSize + preSize;
      }
      if mergeWithNext {
        DelSpan(next, nextSize);
        newSize := newSize + nextSize;
      }
      AddSpan(newStart, newSize);
    }

    method HashMergeSpans(m: seq<nat>)
      requires backend.HashBackend? && BackendOk()
      requires Distinct(m) && Elements(m) !! Free() && forall p :: p in m ==> p >= 2
      modifies `backwardMap, `forwardMap, `freemaps
      ensures BackendOk()
      ensures Free() == old(Free()) + Elements(m)
    {
      hide Consistent, Pages;
      for i := 0 to |m|
        invariant BackendOk()
        invariant Free() == old(Free()) + Elements(m[..i])
      {
        assert m[i] in Elements(m) && m[i] !in Elements(m[..i]);
        MergeWithExistingSpan(m[i]);
        assert m[..i + 1] == m[..i] + [m[i]];
      }
      assert m[..|m|] == m;
    }

    /** init builds the index of a strictly increasing list; an empty list leaves the old index in place. */
    method HashInit(list: seq<nat>)
      requires StrictlySorted(list) && NoMetaPage(Elements(list))
      modifies `backwardMap, `forwardMap, `freemaps
      ensures |list| == 0 ==> Ix() == old(Ix())
      ensures |list| > 0 ==> Consistent(Ix()) && Pages(Ix()) == Elements(list)
    {
      if |list| == 0 {
        return;
      }
      hide Consistent, Pages, Scanned, Add;
      var size, start := 1, list[0];
      assert start in Elements(list);
      freemaps := map[];
      forwardMap := map[];
      backwardMap := map[];
      ScanFirst(list);
      for i := 1 to |list|
        invariant size >= 1 && start > 0
        invariant Scanned(Ix(), list, i, start, size)
      {
        assert list[i] in Elements(list);
        if list[i] == list[i - 1] + 1 {
          ScanLonger(Ix(), list, i, start, size);
          size := size + 1;
        } else {
          ScanNext(Ix(), list, i, start, size);
          AddSpan(start, size);
          size := 1;
          start := list[i];
        }
      }
      ScanLast(Ix(), list, start, size);
      if size != 0 && start != 0 {
        AddSpan(start, size);
      }
    }

    // ---------- allocation ----------

    /** Forgets pages first .. first+n-1 in the cache. */
    method Uncache(first: nat, n: nat)
      modifies `cache
      ensures cache == old(cache) - Run(first, n)
    {
      for i := 0 to n
        invariant cache == old(cache) - Run(first, i)
      {
        cache := cache - {first + i};
        assert Run(first, i + 1) == Run(first, i) + {first + i};
      }
      assert Run(first, 0) == {};
    }

    /** Removes the block of n ids that ends at position i. */
    method TakeBlock(txid: nat, i: nat, initial: nat, n: nat)
      requires Valid() && backend.ArrayBackend?
      requires i < |ids| && initial + n == ids[i] + 1 && Block(ids, i + 1, initial, n)
      requires n > 0 ==> NoRunUpTo(Elements(ids), n, ids[i] as int - 1)
      modifies this
      ensures Valid() && pending == old(pending)
      ensures initial != 0 && Allocated(old(Abs()), Abs(), txid, n, initial)
      ensures forall p: nat :: Run(p, n) <= old(Free()) ==> initial <= p
    {
      hide AllOk, Run, Entries, Block, Elements;
      FoundOk(backend, ids, Ix(), pending, cache, i, initial, n);
      if i + 1 == n {
        ids := ids[i + 1..];
      } else {
        ids := ids[..i + 1 - n] + ids[i + 1..];
      }
      Uncache(initial, n);
      allocs := allocs[initial := txid];
    }

    /** arrayAllocate: takes the lowest block of n consecutive ids. */
    method ArrayAllocate(txid: nat, n: nat) returns (pid: nat)
      requires Valid() && backend.ArrayBackend?
      modifies this
      ensures Valid() && pending == old(pending)
      ensures Allocated(old(Abs()), Abs(), txid, n, pid)
      ensures pid != 0 ==> forall p: nat :: Run(p, n) <= old(Free()) ==> pid <= p
    {
      hide AllOk, Run, Entries, Scanning, Block, Elements;
      IdsOk(backend, ids, Ix(), pending, cache);
      if |ids| == 0 {
        NoIds(n);
        return 0;
      }
      var initial, previd := 0, 0;
      ScanStart(ids, n);
      for i := 0 to |ids|
        invariant Scanning(ids, i, initial, previd, n)
        invariant old(ids) == ids && unchanged(this)
      {
        var id := ids[i];
        Step(ids, i, initial, previd, n, if previd == 0 || id != previd + 1 then id else initial);
        if previd == 0 || id != previd + 1 {
          initial := id;
        }
        if id - initial + 1 == n {
          TakeBlock(txid, i, initial, n);
          return initial;
        }
        previd := id;
      }
      if n > 0 {
        NoneFound(ids, initial, previd, n);
      }
      pid := 0;
    }

    /** The short path of hashmapAllocate: a span of exactly n pages is used up. */
    method TakeWholeSpan(txid: nat, pid: nat, n: nat)
      requires Valid() && backend.HashBackend?
      requires n in freemaps && pid in freemaps[n]
      modifies this
      ensures Valid() && pending == old(pending)
      ensures pid != 0 && Allocated(old(Abs()), Abs(), txid, n, pid)
    {
      hide AllOk, Consistent, Pages, Run, Del, Entries;
      TakeExact(backend, ids, Ix(), pending, cache, pid, n);
      DelSpan(pid, n);
      allocs := allocs[pid := txid];
      Uncache(pid, n);
    }

    /** The long path of hashmapAllocate: the first n pages of a larger span are used and its rest is put back. */
    method TakePartOfSpan(txid: nat, pid: nat, size: nat, n: nat)
      requires Valid() && backend.HashBackend?
      requires size in freemaps && pid in freemaps[size] && 1 <= n < size
      modifies this
      ensures Valid() && pending == old(pending)
      ensures pid != 0 && Allocated(old(Abs()), Abs(), txid, n, pid)
    {
      hide AllOk, Consistent, Pages, Run, Add, Del, Entries;
      TakeSplit(backend, ids, Ix(), pending, cache, pid, size, n);
      DelSpan(pid, size);
      allocs := allocs[pid := txid];
      var remain := size - n;
      AddSpan(pid + n, remain);
      Uncache(pid, n);
    }

    /** hashmapAllocate; map iteration order is arbitrary, so any span of a fitting size may be chosen. */
    method HashAllocate(txid: nat, n: nat) returns (pid: nat)
      requires Valid() && backend.HashBackend?
      modifies this
      ensures Valid() && pending == old(pending)
      ensures Allocated(old(Abs()), Abs(), txid, n, pid)
    {
      if n == 0 {
        return 0;
      }
      if n in freemaps {
        pid :| pid in freemaps[n];
        TakeWholeSpan(txid, pid, n);
        return;
      }
      if size :| size in freemaps && size >= n {
        pid :| pid in freemaps[size];
        TakePartOfSpan(txid, pid, size, n);
        return;
      }
      NoFit(Ix(), n);
      pid := 0;
    }

    /** The allocate function value: dispatches on the backend. */
    method Allocate(txid: nat, n: nat) returns (pid: nat)
      requires Valid()
      modifies this
      ensures Valid() && pending == old(pending)
      ensures allocs == if pid == 0 then old(allocs) else old(allocs)[pid := txid]
      ensures Allocated(old(Abs()), Abs(), txid, n, pid)
      ensures pid != 0 && backend.ArrayBackend? ==> forall p: nat :: Run(p, n) <= old(Free()) ==> pid <= p
    {
      if backend.ArrayBackend? {
        pid := ArrayAllocate(txid, n);
      } else {
        pid := HashAllocate(txid, n);
      }
    }

    // ---------- freeing and releasing ----------

    /** The mergeSpans function value: adds released pages to the free ones. */
    method MergeSpans(m: seq<nat>)
      requires BackendOk()
      requires Distinct(m) && Elements(m) !! Free() && forall p :: p in m ==> p >= 2
      modifies `ids, `backwardMap, `forwardMap, `freemaps
      ensures BackendOk()
      ensures Free() == old(Free()) + Elements(m)
    {
      if backend.ArrayBackend? {
        hide Distinct, Sorted;
        MergeSorted(ids, m);
        var merged := Merge(ids, Sort(m));
        MergedIds(ids, m, merged);
        ids := merged;
      } else {
        HashMergeSpans(m);
      }
    }

    /** The loop of free: lists pages head .. head+overflow with their allocating transaction, unless one is free already. */
    method ListPages(txid: nat, t: TxPending, allocTxid: nat, head: nat, overflow: nat) returns (ok: bool, txp: TxPending)
      requires Valid() && allocTxid <= txid < MAX_TXID && head >= 2
      requires t == (if txid in pending then pending[txid] else TxPending([], [], 0)) && t.lastReleaseBegin == 0
      modifies `cache
      ensures ok <==> Run(head, overflow + 1) * Tracked(Abs()) == {}
      ensures txp.lastReleaseBegin == 0
      ensures ok ==> AllOk(backend, ids, Ix(), pending[txid := txp], cache)
      ensures ok ==> Entries(pending[txid := txp]) == Entries(pending) + Stamp(Run(head, overflow + 1), txid, allocTxid)
    {
      hide AllOk, Entries, Run, PagesOf, FreePages, Stamping, Stamp;
      txp := t;
      StampStart(backend, ids, Ix(), pending, cache, txid, txp, allocTxid, head);
      ghost var cache0 := cache;
      var id := head;
      while id <= head + overflow
        invariant head <= id <= head + overflow + 1 && txp.lastReleaseBegin == 0
        invariant Stamping(backend, ids, Ix(), pending, cache0, txid, txp, allocTxid, head, id - head, cache)
      {
        if id in cache {
          StampPanic(backend, ids, Ix(), pending, cache0, txid, txp, allocTxid, head, id - head, cache, overflow + 1);
          return false, txp;
        }
        StampStep(backend, ids, Ix(), pending, cache0, txid, txp, allocTxid, head, id - head, cache);
        txp := txp.(ids := txp.ids + [id], alloctx := txp.alloctx + [allocTxid]);
        cache := cache + {id};
        id := id + 1;
      }
      StampDone(backend, ids, Ix(), pending, cache0, txid, txp, allocTxid, head, overflow + 1, cache);
      ok := true;
    }

    /** free: adds a page and its overflow pages to the transaction's pending list. */
    method FreePage(txid: nat, head: nat, overflow: nat, isFreelist: bool) returns (r: FreeOutcome)
      requires Valid() && 1 <= txid < MAX_TXID
      requires forall p :: p in allocs ==> allocs[p] <= txid
      requires txid in pending ==> pending[txid].lastReleaseBegin == 0
      modifies `pending, `allocs, `cache
      ensures r.PanicMetaPage? <==> head <= 1
      ensures r.PanicAlreadyFreed? <==> head > 1 && Run(head, overflow + 1) * old(Tracked(Abs())) != {}
      ensures r.Freed? ==> pending.Keys == old(pending.Keys) + {txid} && pending[txid].lastReleaseBegin == 0
      ensures r.Freed? ==> Valid() && Abs() == FreeRun(old(Abs()), txid, head, overflow + 1, isFreelist)
      ensures r.Freed? ==> forall e: Entry :: head <= e.page <= head + overflow ==>
        (e in Abs().pending <==>
           e.freedBy == txid && e.allocBy == if head in old(allocs) then old(allocs)[head] else if isFreelist then txid - 1 else 0)
    {
      hide AllOk, Entries, Run, Stamp, PagesOf, FreePages, WellFormed;
      if head <= 1 {
        return PanicMetaPage;
      }
      ghost var before := Abs();
      WellFormedAbs();
      var txp := if txid in pending then pending[txid] else TxPending([], [], 0);
      var allocTxid := 0;
      if head in allocs {
        allocTxid := allocs[head];
        allocs := allocs - {head};
      } else if isFreelist {
        allocTxid := txid - 1;
      }
      var ok, txp' := ListPages(txid, txp, allocTxid, head, overflow);
      if !ok {
        return PanicAlreadyFreed;
      }
      pending := pending[txid := txp'];
      Stamped(before, txid, head, overflow, isFreelist);
      r := Freed;
    }

    /** release: frees what transactions up to txid had freed. */
    method Release(txid: nat)
      requires Valid()
      modifies `pending, `ids, `backwardMap, `forwardMap, `freemaps
      ensures Valid() && Abs() == ReleaseUpTo(old(Abs()), txid)
      ensures pending.Keys <= old(pending).Keys
    {
      hide AllOk, StoreOk, Entries, Sweeping, MovedUpTo, TableOk, Elements, PagesOf, Distinct, FreePages;
      var m: seq<nat> := [];
      var todo := pending.Keys;
      ghost var before, moved: set<Entry> := pending, {};
      AllTableOk(backend, ids, Ix(), pending, cache);
      SweepStart(pending);
      NothingMoved(before, txid, 1, 1);
      while todo != {}
        invariant Sweeping(before, pending, todo, m, moved)
        invariant moved == MovedUpTo(before, todo, txid)
        decreases |todo|
        modifies `pending
      {
        SweepKeys(before, pending, todo, m, moved);
        var tid :| tid in todo;
        MovedUpToStep(before, todo, txid, tid);
        if tid <= txid {
          DropStep(before, pending, todo, m, moved, tid);
          m := m + pending[tid].ids;
          moved := moved + EntriesOf(tid, before[tid]);
          pending := pending - {tid};
        } else {
          SkipStep(before, pending, todo, m, moved, tid);
        }
        todo := todo - {tid};
      }
      FinishSweep(m, before, moved);
      AllMoved(before, txid, 1, 1);
    }

    /** The end of a sweep: the swept pages go to the backend. */
    method FinishSweep(m: seq<nat>, ghost before: Table, ghost moved: set<Entry>)
      requires AllOk(backend, ids, Ix(), before, cache)
      requires Sweeping(before, pending, {}, m, moved)
      modifies `ids, `backwardMap, `forwardMap, `freemaps
      ensures Valid() && Abs() == Move(State(old(Free()), Entries(before), allocs), moved)
      ensures pending.Keys <= before.Keys
    {
      hide StoreOk, TableOk, Distinct;
      ghost var ids0, ix0 := ids, Ix();
      SweptFresh(backend, ids, Ix(), before, cache, pending, {}, m, moved);
      AllTableOk(backend, ids, Ix(), before, cache);
      MergeSpans(m);
      SweptOk(backend, ids0, ix0, before, cache, pending, {}, m, moved, ids, Ix());
    }

    /** The inner loop of releaseRange: takes the pages allocated in [begin, end] out of one record, by swapping in the last one. */
    method SweepRecord(tid: nat, r: TxPending, begin: nat, end: nat) returns (t: TxPending, m: seq<nat>, ghost gone: set<Entry>)
      requires RecordOk(tid, r) && 1 <= begin <= tid <= end
      ensures RecordOk(tid, t) && t.lastReleaseBegin == begin
      ensures gone == set e | e in EntriesOf(tid, r) && Within(e, begin, end)
      ensures EntriesOf(tid, t) == EntriesOf(tid, r) - gone && Elements(t.ids) <= Elements(r.ids)
      ensures Distinct(m) && Elements(m) == PagesOf(gone)
    {
      m, gone := [], {};
      var ids, alloctx := r.ids, r.alloctx;
      PickStart(tid, r, begin, end);
      var i := 0;
      while i < |ids|
        invariant Picking(tid, r, TxPending(ids, alloctx, r.lastReleaseBegin), i, m, gone, begin, end)
        decreases |ids| - i
      {
        var atx := alloctx[i];
        if atx < begin || atx > end {
          i := i + 1;
        } else {
          PickStep(tid, r, TxPending(ids, alloctx, r.lastReleaseBegin), i, m, gone, begin, end, r.lastReleaseBegin);
          gone := gone + {Entry(ids[i], tid, alloctx[i])};
          m := m + [ids[i]];
          ids := SwapRemove(ids, i);
          alloctx := SwapRemove(alloctx, i);
        }
      }
      t := TxPending(ids, alloctx, begin);
      assert EntriesOf(tid, t) == EntriesOf(tid, TxPending(ids, alloctx, r.lastReleaseBegin));
      PickDone(tid, r, t, m, gone, begin, end);
    }

    /** releaseRange: frees the pages both allocated and freed within [begin, end]. */
    method ReleaseWithin(begin: nat, end: nat)
      requires Valid() && begin >= 1
      modifies `pending, `ids, `backwardMap, `forwardMap, `freemaps
      ensures Valid() && Abs() == ReleaseRange(old(Abs()), begin, end)
      ensures pending.Keys <= old(pending).Keys
    {
      hide AllOk, StoreOk, Entries, EntriesOf, Sweeping, MovedWithin, TableOk, RecordOk, Elements, PagesOf, Distinct, FreePages;
      if begin > end {
        EmptyRange(Entries(pending), begin, end, Abs());
        return;
      }
      var m: seq<nat> := [];
      var todo := pending.Keys;
      ghost var before, moved: set<Entry> := pending, {};
      AllTableOk(backend, ids, Ix(), pending, cache);
      SweepStart(pending);
      NothingMoved(before, 0, begin, end);
      while todo != {}
        invariant Sweeping(before, pending, todo, m, moved)
        invariant moved == MovedWithin(before, todo, begin, end)
        decreases |todo|
        modifies `pending
      {
        SweepKeys(before, pending, todo, m, moved);
        var tid :| tid in todo;
        var txp := pending[tid];
        MovedWithinStep(before, todo, begin, end, tid);
        SweptRecordOk(before, tid);
        if tid < begin || tid > end || txp.lastReleaseBegin == begin {
          NothingWithin(before, tid, begin, end);
          SkipStep(before, pending, todo, m, moved, tid);
        } else {
          var t, more, gone := SweepRecord(tid, txp, begin, end);
          ghost var table' := ShrinkStep(before, pending, todo, m, moved, tid, t, more, gone);
          m := m + more;
          moved := moved + gone;
          pending := pending[tid := t];
          if |t.ids| == 0 {
            pending := pending - {tid};
          }
          assert pending == table';
        }
        todo := todo - {tid};
      }
      FinishSweep(m, before, moved);
      AllMoved(before, 0, begin, end);
    }

    /**
     * rollback: drops a transaction's pending pages. A page known to come from another transaction gets its
     * allocs entry back; a page the transaction had allocated itself goes to the free pages, but not back
     * into the cache. So the object stays valid exactly when there is no page of the second kind.
     */
    method RollbackTx(txid: nat)
      requires Valid()
      modifies this
      ensures BackendOk() && TableOk(pending) && Free() !! PagesOf(Entries(pending))
      ensures old(OneEntryPerPage(Entries(pending)))
      ensures Abs() == Rollback(old(Abs()), txid)
      ensures cache == old(cache) - PagesOf(old(FreedBy(Abs(), txid)))
      ensures pending == old(pending) - {txid}
      ensures Valid() <==> forall e :: e in old(FreedBy(Abs(), txid)) ==> !OwnPage(e, txid)
    {
      EntriesUnique(pending);
      FreedByRecord(pending, txid);
      if txid !in pending {
        assert Abs() == Rollback(old(Abs()), txid);
        return;
      }
      hide AllOk, StoreOk, Entries, EntriesOf, Undoing, TableOk, RecordOk, Elements, PagesOf, Distinct, OneEntryPerPage, Restored;
      var txp := pending[txid];
      var m: seq<nat> := [];
      ghost var cache0, allocs0, ids0, ix0 := cache, allocs, ids, Ix();
      AllTableOk(backend, ids, Ix(), pending, cache);
      SweptRecordOk(pending, txid);
      UndoStart(txid, txp, cache, allocs);
      RecordLengths(txid, txp);
      for i := 0 to |txp.ids|
        invariant Undoing(txid, txp, i, cache0, cache, allocs0, allocs, m)
        modifies `cache, `allocs
      {
        UndoStep(txid, txp, i, cache0, cache, allocs0, allocs, m);
        var pgid, tx := txp.ids[i], txp.alloctx[i];
        cache := cache - {pgid};
        if tx == 0 {
        } else if tx != txid {
          allocs := allocs[pgid := tx];
        } else {
          m := m + [pgid];
        }
      }
      UndoEnd(txid, txp, cache0, cache, allocs0, allocs, m);
      UndoFresh(backend, ids, Ix(), pending, cache0, txid, m);
      EntriesFilter(pending, txid);
      pending := pending - {txid};
      MergeSpans(m);
      UndoneOk(backend, ids0, ix0, old(pending), cache0, txid, m, ids, Ix(), cache);
    }

    // ---------- counting and listing ----------

    method HashFreeCount() returns (count: nat)
      requires BackendOk() && backend.HashBackend?
      ensures count == |Free()|
    {
      hide ListingSpans, Pages, Consistent, RunSeq, Del;
      count := 0;
      var todo := forwardMap.Keys;
      ghost var rest, m: seq<nat> := Ix(), [];
      ListStart(Ix());
      while todo != {}
        invariant ListingSpans(Ix(), rest, todo, m) && count == |m|
        decreases |todo|
      {
        var start :| start in todo;
        ListStep(Ix(), rest, todo, m, start);
        var size := forwardMap[start];
        RunSeqLength(start, size);
        rest, m := Del(rest, start, size), m + RunSeq(start, size);
        count := count + size;
        todo := todo - {start};
      }
      ListDone(Ix(), rest, m);
    }

    /** The free_count function value. */
    method FreeCount() returns (count: nat)
      requires BackendOk()
      ensures count == |Free()|
    {
      if backend.ArrayBackend? {
        count := |ids|;
        DistinctMultiset(ids);
      } else {
        count := HashFreeCount();
      }
    }

    method PendingCount() returns (count: nat)
      requires TableOk(pending)
      ensures count == |PagesOf(Entries(pending))|
    {
      hide Sweeping, MovedUpTo, Entries, EntriesOf, PagesOf, TableOk;
      count := 0;
      var todo := pending.Keys;
      ghost var rest, m: seq<nat>, moved: set<Entry> := pending, [], {};
      SweepStart(pending);
      NothingMoved(pending, MAX_TXID, 1, 1);
      while todo != {}
        invariant Sweeping(pending, rest, todo, m, moved) && count == |m|
        invariant moved == MovedUpTo(pending, todo, MAX_TXID)
        decreases |todo|
      {
        SweepKeys(pending, rest, todo, m, moved);
        var tid :| tid in todo;
        MovedUpToStep(pending, todo, MAX_TXID, tid);
        SweptRecordOk(pending, tid);
        DropStep(pending, rest, todo, m, moved, tid);
        rest, m, moved := rest - {tid}, m + pending[tid].ids, moved + EntriesOf(tid, pending[tid]);
        count := count + |pending[tid].ids|;
        todo := todo - {tid};
      }
      AllListed(pending, rest, m, moved);
    }

    method Count() returns (count: nat)
      requires Valid()
      ensures count == |Tracked(Abs())|
    {
      AllTableOk(backend, ids, Ix(), pending, cache);
      var free := FreeCount();
      var waiting := PendingCount();
      count := free + waiting;
      assert Free() !! PagesOf(Entries(pending));
    }

    /** The serialized size in bytes. */
    method Size() returns (size: nat)
      requires Valid()
      ensures size == PAGE_HEADER_SIZE + PGID_SIZE * WordsFor(|Tracked(Abs())|)
      ensures size == 16 + 8 * |Tracked(Abs())| + if |Tracked(Abs())| < 65535 then 0 else 8
    {
      var n := Count();
      if n >= 0xFFFF {
        n := n + 1;
      }
      size := PAGE_HEADER_SIZE + PGID_SIZE * n;
    }

    method HashFreePageIds() returns (list: seq<nat>)
      requires BackendOk() && backend.HashBackend?
      ensures StrictlySorted(list) && Elements(list) == Free() && |list| == |Free()|
    {
      hide ListingSpans, Pages, Consistent, RunSeq, Del, Distinct, StrictlySorted, Elements;
      var m: seq<nat> := [];
      var todo := forwardMap.Keys;
      ghost var rest := Ix();
      ListStart(Ix());
      while todo != {}
        invariant ListingSpans(Ix(), rest, todo, m)
        decreases |todo|
      {
        var start :| start in todo;
        ListStep(Ix(), rest, todo, m, start);
        var size := forwardMap[start];
        ghost var before := m;
        RunSeqNext(before, start, 0);
        for i := 0 to size
          invariant m == before + RunSeq(start, i)
        {
          RunSeqNext(before, start, i);
          m := m + [start + i];
        }
        rest := Del(rest, start, size);
        todo := todo - {start};
      }
      ListDone(Ix(), rest, m);
      SortDistinct(m);
      list := Sort(m);
    }

    /** The getFreePageIDs function value: the free pages in increasing order, for both backends. */
    method FreePageIds() returns (list: seq<nat>)
      requires BackendOk()
      ensures StrictlySorted(list) && Elements(list) == Free() && |list| == |Free()|
    {
      if backend.ArrayBackend? {
        list := ids;
        DistinctMultiset(ids);
      } else {
        list := HashFreePageIds();
      }
    }

    method PendingIds() returns (m: seq<nat>)
      requires TableOk(pending)
      ensures Distinct(m) && Elements(m) == PagesOf(Entries(pending)) && |m| == |PagesOf(Entries(pending))|
    {
      hide Sweeping, MovedUpTo, Entries, EntriesOf, PagesOf, TableOk, Elements, Distinct;
      m := [];
      var todo := pending.Keys;
      ghost var rest, moved: set<Entry> := pending, {};
      SweepStart(pending);
      NothingMoved(pending, MAX_TXID, 1, 1);
      while todo != {}
        invariant Sweeping(pending, rest, todo, m, moved)
        invariant moved == MovedUpTo(pending, todo, MAX_TXID)
        decreases |todo|
      {
        SweepKeys(pending, rest, todo, m, moved);
        var tid :| tid in todo;
        MovedUpToStep(pending, todo, MAX_TXID, tid);
        SweptRecordOk(pending, tid);
        DropStep(pending, rest, todo, m, moved, tid);
        rest, moved := rest - {tid}, moved + EntriesOf(tid, pending[tid]);
        m := m + pending[tid].ids;
        todo := todo - {tid};
      }
      AllListed(pending, rest, m, moved);
    }

    /** copyall: the sorted listing of all free and pending ids, written to dst from position off on. */
    method CopyAll(dst: array<nat>, off: nat) returns (ghost listing: seq<nat>)
      requires Valid() && off + |Tracked(Abs())| <= dst.Length
      modifies dst
      ensures StrictlySorted(listing) && Elements(listing) == Tracked(Abs()) && |listing| == |Tracked(Abs())|
      ensures dst[..] == Spliced(old(dst[..]), off, listing)
    {
      AllTableOk(backend, ids, Ix(), pending, cache);
      TrackedSize(backend, ids, Ix(), pending, cache);
      hide AllOk, StoreOk, Entries, TableOk, Elements, PagesOf, Distinct, Sorted, StrictlySorted, FreePages;
      var free := FreePageIds();
      var m := PendingIds();
      ListsMerge(free, m);
      SortDistinct(m);
      var fits, merged := MergePgids(dst, off, free, Sort(m));
      listing := merged;
      ListsMerged(free, m, merged);
    }

    // ---------- the freelist page ----------

    /** write: stores all free and pending ids, since after a crash the pending ones are free as well. */
    method Write(p: FreelistPage)
      requires Valid() && WordsFor(|Tracked(Abs())|) <= p.words.Length
      modifies p, p.words
      ensures p.isFreelist && p.Readable()
      ensures StrictlySorted(p.Ids()) && Elements(p.Ids()) == Tracked(Abs()) && |p.Ids()| == |Tracked(Abs())|
      ensures |p.Ids()| < 65535 ==> p.count == |p.Ids()| && p.words[..p.count] == p.Ids()
      ensures |p.Ids()| >= 65535 ==> p.count == 65535 && p.words[0] == |p.Ids()| && p.words[1..1 + p.words[0]] == p.Ids()
    {
      hide AllOk, Elements, StrictlySorted, Decoded, WordsOk, Entries, PagesOf, FreePages;
      p.isFreelist := true;
      var l := Count();
      ghost var listing: seq<nat>;
      if l < 0xFFFF {
        p.count := l;
        listing := CopyAll(p.words, 0);
        assert p.words[..l] == listing;
      } else {
        p.count := 0xFFFF;
        p.words[0] := l;
        listing := CopyAll(p.words, 1);
        assert p.words[1..1 + l] == listing;
        assert p.words[..][0] == l;
      }
      assert p.words[..][..] == p.words[..];
      DecodeStored(listing, p.words[..], p.count);
    }

    /** reindex: rebuilds the cache from the free and the pending pages. */
    method Reindex()
      requires BackendOk() && TableOk(pending)
      modifies `cache
      ensures cache == Tracked(Abs())
    {
      hide Entries, Elements, PagesOf, StrictlySorted, Distinct, FreePages;
      var free := FreePageIds();
      var waiting := PendingIds();
      cache := {};
      CacheAll(free);
      CacheAll(waiting);
    }

    method CacheAll(list: seq<nat>)
      modifies `cache
      ensures cache == old(cache) + Elements(list)
    {
      for i := 0 to |list|
        invariant cache == old(cache) + Elements(list[..i])
      {
        assert list[..i + 1] == list[..i] + [list[i]];
        ElementsAppend(list[..i], [list[i]]);
        cache := cache + {list[i]};
      }
      assert list[..|list|] == list;
    }

    /** readIDs: installs a new list of free pages. The hashmap backend keeps its old spans when the list is empty. */
    method ReadIds(list: seq<nat>)
      requires BackendOk() && TableOk(pending)
      requires StrictlySorted(list) && NoMetaPage(Elements(list))
      modifies `ids, `backwardMap, `forwardMap, `freemaps, `cache
      ensures BackendOk() && cache == Tracked(Abs())
      ensures Free() == if backend.ArrayBackend? || |list| > 0 then Elements(list) else old(Free())
    {
      if backend.ArrayBackend? {
        ids := list;
      } else {
        HashInit(list);
      }
      Reindex();
    }

    /** read: installs the ids of a freelist page; the source panics on a page of another type. */
    method Read(p: FreelistPage) returns (ok: bool)
      requires BackendOk() && TableOk(pending)
      requires p.Readable() && Distinct(p.Ids()) && NoMetaPage(Elements(p.Ids()))
      modifies `ids, `backwardMap, `forwardMap, `freemaps, `cache
      ensures ok <==> p.isFreelist
      ensures BackendOk()
      ensures ok && (backend.ArrayBackend? || |p.Ids()| > 0) ==> Free() == Elements(p.Ids())
      ensures ok && backend.HashBackend? && |p.Ids()| == 0 ==> Free() == old(Free())
      ensures ok && |p.Ids()| > 0 ==> cache == Tracked(Abs())
      ensures !ok || |p.Ids()| == 0 ==> cache == old(cache)
    {
      if !p.isFreelist {
        return false;
      }
      ok := true;
      var idx, count := 0, p.count;
      if count == 0xFFFF {
        idx, count := 1, p.words[0];
      }
      if count == 0 {
        ids := [];
      } else {
        var idsCopy := p.words[idx..idx + count];
        assert idsCopy == p.Ids();
        SortDistinct(idsCopy);
        ReadIds(Sort(idsCopy));
      }
    }

    /**
     * reload: reads the free pages back from a page and leaves out those that are pending. The outcome is right
     * for the array backend always, and for the hashmap backend exactly when some id remains, or when both the
     * page and the old index were empty.
     */
    method Reload(p: FreelistPage) returns (ok: bool)
      requires BackendOk() && TableOk(pending)
      requires p.Readable() && Distinct(p.Ids()) && NoMetaPage(Elements(p.Ids()))
      modifies `ids, `backwardMap, `forwardMap, `freemaps, `cache
      ensures ok <==> p.isFreelist
      ensures ok && backend.ArrayBackend? ==> Valid()
      ensures pending == old(pending) && allocs == old(allocs)
      ensures ok ==>
        var all := if backend.ArrayBackend? || |p.Ids()| > 0 then Elements(p.Ids()) else old(Free());
        var rest := all - PagesOf(Entries(pending));
        Free() == if backend.ArrayBackend? || rest != {} then rest else all
      ensures ok ==>
        (Free() == Elements(p.Ids()) - PagesOf(Entries(pending)) <==>
          (backend.ArrayBackend? || Elements(p.Ids()) - PagesOf(Entries(pending)) != {}
            || (|p.Ids()| == 0 && old(Free()) == {})))
    {
      hide Elements, Distinct, StrictlySorted, Entries, PagesOf, TableOk, Decoded, WordsOk;
      ok := Read(p);
      if !ok {
        return;
      }
      EmptyElements(p.Ids());
      var pcache := Waiting();
      var all := FreePageIds();
      var a := Without(all, pcache);
      NoMetaIn(Elements(a), Free());
      EmptyElements(a);
      ReadIds(a);
      ReloadExact(backend.ArrayBackend?, |p.Ids()| > 0, Elements(p.Ids()), PagesOf(Entries(pending)), old(Free()), Free());
    }

    /** The set of pending pages, as reload builds it. */
    method Waiting() returns (pcache: set<nat>)
      requires TableOk(pending)
      ensures pcache == PagesOf(Entries(pending))
    {
      var waiting := PendingIds();
      pcache := {};
      for i := 0 to |waiting|
        invariant pcache == Elements(waiting[..i])
      {
        assert waiting[..i + 1] == waiting[..i] + [waiting[i]];
        pcache := pcache + {waiting[i]};
      }
      assert waiting[..|waiting|] == waiting;
    }
  }

  /**
   * What the hashmap backend's reload does when every page listed is pending: all of them become free at once, though
   * readers may still see them.
   */
  method ReloadOfPending(f: Freelist, p: FreelistPage)
    requires f.backend.HashBackend? && f.BackendOk() && TableOk(f.pending)
    requires p.isFreelist && p.Readable() && Distinct(p.Ids()) && NoMetaPage(Elements(p.Ids()))
    requires Elements(p.Ids()) == PagesOf(Entries(f.pending)) != {}
    modifies f
    ensures f.pending == old(f.pending)
    ensures f.Free() == PagesOf(Entries(f.pending)) != {}
  {
    EmptyElements(p.Ids());
    var _ := f.Reload(p);
  }

  /** What is free behind a reload is what is listed and not pending: always, unless that is nothing and there was something to clear. */
  lemma ReloadExact(sorted: bool, some: bool, listed: set<nat>, waiting: set<nat>, before: set<nat>, now: set<nat>)
    requires some <==> listed != {}
    requires var all := if sorted || some then listed else before;
      now == if sorted || all - waiting != {} then all - waiting else all
    ensures now == listed - waiting <==> sorted || listed - waiting != {} || (!some && before == {})
  {
  }

  /** It happens: one page is freed, the freelist written and then read back while the page is pending. */
  method StaleReload() returns (f: Freelist)
    ensures 2 in f.Free() && 2 in PagesOf(Entries(f.pending))
  {
    hide AllOk, StoreOk, FreePages, Entries, PagesOf, Elements, Distinct, StrictlySorted, Decoded, WordsOk, TableOk, Run, FreeRun,
      Tracked, NoMetaPage;
    f := new Freelist(HashBackend);
    OneFreed(f.Abs(), 1);
    var r := f.FreePage(1, 2, 0, false);
    AllTableOk(f.backend, f.ids, f.Ix(), f.pending, f.cache);
    AllStoreOk(f);
    var p := new FreelistPage(1);
    f.Write(p);
    Listed(p.Ids());
    ReloadOfPending(f, p);
  }

  /** A transaction that frees a page it has allocated, and is rolled back, leaves the cache out of step. */
  method OwnPageRollback() returns (f: Freelist)
    ensures !f.Valid()
  {
    hide AllOk, StoreOk, FreePages, Entries, PagesOf, Run, FreeRun, TakeRun, ReleaseUpTo, Rollback, Tracked, FreedBy, OwnPage, NoRun;
    f := new Freelist(ArrayBackend);
    OneFreed(f.Abs(), 1);
    var r := f.FreePage(1, 2, 0, false);
    OneReleased(f.Abs());
    f.Release(1);
    var pid := f.Allocate(5, 1);
    OneTaken(pid);
    OwnFreed(f.Abs());
    r := f.FreePage(5, pid, 0, false);
    f.RollbackTx(5);
  }

  lemma AllStoreOk(f: Freelist)
    requires f.Valid()
    ensures f.BackendOk()
  {
  }

  lemma Listed(ids: seq<nat>)
    requires StrictlySorted(ids) && Elements(ids) == {2}
    ensures Distinct(ids) && NoMetaPage(Elements(ids))
  {
  }

  /** Page 2 freed by a transaction that did not allocate it, in an empty freelist. */
  lemma OneFreed(st: State, txid: nat)
    requires st == State({}, {}, map[])
    ensures Run(2, 1) == {2} && Tracked(st) == {}
    ensures FreeRun(st, txid, 2, 1, false) == State({}, {Entry(2, txid, 0)}, map[])
    ensures Tracked(State({}, {Entry(2, txid, 0)}, map[])) == PagesOf({Entry(2, txid, 0)}) == {2}
  {
    assert PagesOf({}) == {};
    assert Stamp({2}, txid, 0) == {Entry(2, txid, 0)};
    assert st.allocs - {2} == map[];
  }

  lemma OneReleased(st: State)
    requires st == State({}, {Entry(2, 1, 0)}, map[])
    ensures ReleaseUpTo(st, 1) == State({2}, {}, map[])
  {
    assert (set e | e in st.pending && e.freedBy <= 1) == {Entry(2, 1, 0)};
    assert PagesOf({Entry(2, 1, 0)}) == {2};
  }

  /** From page 2 alone, page 2 is taken. */
  lemma OneTaken(pid: nat)
    ensures Run(2, 1) == {2} && !NoRun({2}, 1)
    ensures Run(pid, 1) <= {2} ==> pid == 2
    ensures TakeRun(State({2}, {}, map[]), 5, 2, 1) == State({}, {}, map[2 := 5])
  {
    assert Run(2, 1) <= {2};
    assert pid in Run(pid, 1);
  }

  lemma OwnFreed(st: State)
    requires st == State({}, {}, map[2 := 5])
    ensures Tracked(st) == {}
    ensures FreeRun(st, 5, 2, 1, false) == State({}, {Entry(2, 5, 5)}, map[])
    ensures Entry(2, 5, 5) in FreedBy(FreeRun(st, 5, 2, 1, false), 5) && OwnPage(Entry(2, 5, 5), 5)
  {
    assert PagesOf({}) == {};
    assert Run(2, 1) == {2} && Stamp({2}, 5, 5) == {Entry(2, 5, 5)};
    assert st.allocs - {2} == map[];
  }

  method Without(list: seq<nat>, excluded: set<nat>) returns (a: seq<nat>)
    requires StrictlySorted(list)
    ensures StrictlySorted(a) && Elements(a) == Elements(list) - excluded
  {
    a := [];
    for i := 0 to |list|
      invariant StrictlySorted(a) && Elements(a) == Elements(list[..i]) - excluded
    {
      assert list[..i + 1] == list[..i] + [list[i]];
      ElementsAppend(list[..i], [list[i]]);
      ElementsAppend(a, [list[i]]);
      forall k | 0 <= k < |a| ensures a[k] < list[i] {
        assert a[k] in Elements(a);
      }
      if list[i] !in excluded {
        a := a + [list[i]];
      }
    }
    assert list[..|list|] == list;
  }

  /** FreedEntries for all pages of the run at once. */
  lemma Stamped(st: State, txid: nat, head: nat, overflow: nat, isFreelist: bool)
    requires WellFormed(st) && Run(head, overflow + 1) * Tracked(st) == {} && txid >= 1
    ensures forall e: Entry :: head <= e.page <= head + overflow ==>
      (e in FreeRun(st, txid, head, overflow + 1, isFreelist).pending <==>
         e.freedBy == txid && e.allocBy == if head in st.allocs then st.allocs[head] else if isFreelist then txid - 1 else 0)
  {
    hide WellFormed, Run, Tracked, FreeRun;
    assert forall x :: x in Run(head, overflow + 1) && x in Tracked(st) ==> x in Run(head, overflow + 1) * Tracked(st);
    forall e: Entry | head <= e.page <= head + overflow
      ensures e in FreeRun(st, txid, head, overflow + 1, isFreelist).pending <==>
        e.freedBy == txid && e.allocBy == if head in st.allocs then st.allocs[head] else if isFreelist then txid - 1 else 0
    {
      FreedEntries(st, txid, head, overflow + 1, isFreelist, e);
    }
  }
}
