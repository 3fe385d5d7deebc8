/** The database object's list of open read transactions and the release of pages none of them can see. */
module Db {
  import opened Pgids
  import opened FreelistSpec
  import opened Pending
  import opened FreelistInvariant
  import opened Freelists
  import opened Listing
  import opened ArrayScan

  /** An open read transaction: who holds it, and the transaction id of the version it reads. */
  datatype Tx = Tx(holder: nat, txid: nat)

  ghost predicate ByTxid(s: seq<Tx>) {
    forall i, j :: 0 <= i < j < |s| ==> s[i].txid <= s[j].txid
  }

  ghost function Txids(s: seq<Tx>): set<nat> {
    set t | t in s :: t.txid
  }

  function InsertTx(t: Tx, s: seq<Tx>): (r: seq<Tx>)
    requires ByTxid(s)
    ensures ByTxid(r) && multiset(r) == multiset(s) + multiset{t}
  {
    if s == [] then [t]
    else if t.txid <= s[0].txid then [t] + s
    else
      var rest := InsertTx(t, s[1..]);
      PrependTx(s[0], t, s[1..], rest);
      assert s == [s[0]] + s[1..];
      [s[0]] + rest
  }

  lemma PrependTx(y: Tx, t: Tx, s: seq<Tx>, r: seq<Tx>)
    requires ByTxid(r) && multiset(r) == multiset(s) + multiset{t}
    requires y.txid <= t.txid && forall z :: z in s ==> y.txid <= z.txid
    ensures ByTxid([y] + r) && multiset([y] + r) == multiset([y] + s) + multiset{t}
  {
    forall i | 0 <= i < |r| ensures y.txid <= r[i].txid {
      assert r[i] in multiset(r);
      assert r[i] == t || r[i] in multiset(s);
      assert r[i] == t || r[i] in s;
    }
  }

  /** sort.Sort(txsById(...)). */
  function SortTxs(s: seq<Tx>): (r: seq<Tx>)
    ensures ByTxid(r) && multiset(r) == multiset(s)
  {
    if s == [] then []
    else
      assert s == [s[0]] + s[1..];
      InsertTx(s[0], SortTxs(s[1..]))
  }

  lemma SameTxids(a: seq<Tx>, b: seq<Tx>)
    requires multiset(a) == multiset(b)
    ensures Txids(a) == Txids(b) && |a| == |b|
    ensures forall t :: t in a <==> t in b
  {
    forall t ensures t in a <==> t in b {
      assert t in a <==> t in multiset(a);
      assert t in b <==> t in multiset(b);
    }
    assert |multiset(a)| == |a| && |multiset(b)| == |b|;
  }

  /** The unpinned entries freed before minid: what the release loop has handed over when it stands at minid. */
  ghost function Handed(st: State, readers: set<nat>, minid: nat): set<Entry> {
    set e | e in st.pending && !Pinned(e, readers) && e.freedBy < minid
  }

  lemma MoveTwice(st: State, a: set<Entry>, b: set<Entry>)
    ensures Move(Move(st, a), b) == Move(st, a + b)
  {
    PagesOfUnion(a, b);
    assert st.free + PagesOf(a) + PagesOf(b) == st.free + PagesOf(a + b);
    assert st.pending - a - b == st.pending - (a + b);
  }

  /** Releasing everything freed before the oldest reader hands over unpinned entries only. */
  lemma ReleaseOld(st: State, readers: set<nat>, minid: nat)
    requires WellFormed(st) && minid >= 1
    requires forall r :: r in readers ==> minid <= r
    ensures ReleaseUpTo(st, minid - 1) == Move(st, Handed(st, readers, minid))
  {
    forall e | e in st.pending && e.freedBy <= minid - 1 ensures !Pinned(e, readers) {
    }
    assert (set e | e in st.pending && e.freedBy <= minid - 1) == Handed(st, readers, minid);
  }

  /**
   * Between two neighbouring readers, an entry is unpinned exactly when it was both allocated and freed
   * strictly between them.
   */
  lemma ReleaseGap(st: State, readers: set<nat>, minid: nat, t: nat)
    requires WellFormed(st) && 1 <= minid <= t + 1 && t >= 1 && t in readers
    requires forall r :: r in readers ==> r < minid || t <= r
    requires minid - 1 in readers || forall r :: r in readers ==> minid <= r
    requires minid - 1 !in readers ==> minid == t
    ensures ReleaseRange(Move(st, Handed(st, readers, minid)), minid, t - 1) == Move(st, Handed(st, readers, t + 1))
  {
    var now := Move(st, Handed(st, readers, minid));
    var gap := set e | e in now.pending && Within(e, minid, t - 1);
    forall e | e in st.pending
      ensures e in Handed(st, readers, t + 1) <==> e in Handed(st, readers, minid) || e in gap
    {
      GapEntry(e, readers, minid, t);
    }
    assert Handed(st, readers, t + 1) == Handed(st, readers, minid) + gap;
    MoveTwice(st, Handed(st, readers, minid), gap);
  }

  lemma GapEntry(e: Entry, readers: set<nat>, minid: nat, t: nat)
    requires e.allocBy <= e.freedBy && 1 <= minid <= t + 1 && t >= 1 && t in readers
    requires forall r :: r in readers ==> r < minid || t <= r
    requires minid - 1 in readers || forall r :: r in readers ==> minid <= r
    requires minid - 1 !in readers ==> minid == t
    ensures Within(e, minid, t - 1) ==> !Pinned(e, readers)
    ensures !Pinned(e, readers) && minid <= e.freedBy <= t ==> Within(e, minid, t - 1)
  {
    if !Pinned(e, readers) {
      assert !(e.allocBy <= t <= e.freedBy);
      assert minid - 1 in readers ==> !(e.allocBy <= minid - 1 <= e.freedBy);
    }
  }

  lemma NewEntry(e: Entry, readers: set<nat>, minid: nat)
    requires minid >= 1 && e.allocBy <= e.freedBy < MAX_TXID && forall r :: r in readers ==> r < minid
    requires minid - 1 in readers || (readers == {} && minid == MAX_TXID)
    ensures Within(e, minid, MAX_TXID) ==> !Pinned(e, readers)
    ensures !Pinned(e, readers) && e.freedBy >= minid ==> Within(e, minid, MAX_TXID)
  {
    if !Pinned(e, readers) && minid - 1 in readers {
      assert !(e.allocBy <= minid - 1 <= e.freedBy);
    }
  }

  /** After the newest reader nothing is pinned that was allocated later. */
  lemma ReleaseNew(st: State, readers: set<nat>, minid: nat)
    requires WellFormed(st) && minid >= 1
    requires forall e :: e in st.pending ==> e.freedBy < MAX_TXID
    requires forall r :: r in readers ==> r < minid
    requires minid - 1 in readers || (readers == {} && minid == MAX_TXID)
    ensures ReleaseRange(Move(st, Handed(st, readers, minid)), minid, MAX_TXID) == ReleaseUnpinned(st, readers)
  {
    var now := Move(st, Handed(st, readers, minid));
    var gap := set e | e in now.pending && Within(e, minid, MAX_TXID);
    forall e | e in st.pending
      ensures !Pinned(e, readers) <==> e in Handed(st, readers, minid) || e in gap
    {
      NewEntry(e, readers, minid);
    }
    assert (set e | e in st.pending && !Pinned(e, readers)) == Handed(st, readers, minid) + gap;
    MoveTwice(st, Handed(st, readers, minid), gap);
  }

  /** Pages taken from the freelist if it has that many in a row, else from the high-water mark. */
  ghost predicate Placed(before: State, now: State, txid: nat, high: nat, higher: nat, id: nat, count: nat) {
    if Run(id, count) <= before.free then now == TakeRun(before, txid, id, count) && higher == high
    else now == before && id == high && higher == high + count && NoRun(before.free, count)
  }

  class Db {
    const freelist: Freelist
    const pageSize: nat
    var txs: seq<Tx>
    /** The writer's high-water mark. */
    var pgid: nat

    constructor (freelist: Freelist, pageSize: nat, pgid: nat)
      ensures this.freelist == freelist && this.pageSize == pageSize && this.pgid == pgid && txs == []
    {
      this.freelist, this.pageSize, this.pgid := freelist, pageSize, pgid;
      txs := [];
    }

    /** allocate: pages from the freelist if it has enough in a row, else new ones from the high-water mark. */
    method Allocate(txid: nat, count: nat) returns (id: nat)
      requires freelist.Valid() && count >= 1 && (forall x :: x in Tracked(freelist.Abs()) ==> x < pgid)
      modifies this`pgid, freelist
      ensures freelist.Valid() && id + count <= pgid && Run(id, count) !! Tracked(freelist.Abs())
      ensures Tracked(freelist.Abs()) == old(Tracked(freelist.Abs())) - Run(id, count)
      ensures Placed(old(freelist.Abs()), freelist.Abs(), txid, old(pgid), pgid, id, count) && freelist.pending == old(freelist.pending)
    {
      hide Freelist.Valid, NoRun, PagesOf;
      freelist.WellFormedAbs();
      ghost var before := freelist.Abs();
      id := freelist.Allocate(txid, count);
      InOwnRun(id, count);
      if id == 0 {
        id := pgid;
        pgid := pgid + count;
        InOwnRun(id, count);
        assert id in Run(id, count) && id !in Tracked(before);
      } else {
        assert id + count - 1 in before.free && id + count - 1 in Tracked(before);
      }
    }

    /**
     * commitFreelist: however full the freelist is, the pages asked for before it is written hold all of it, the
     * allocation itself taken into account, and are none of those it lists.
     */
    method CommitFreelist(txid: nat) returns (id: nat, count: nat, p: FreelistPage)
      requires freelist.Valid() && pageSize > PAGE_HEADER_SIZE && (forall x :: x in Tracked(freelist.Abs()) ==> x < pgid)
      modifies this`pgid, freelist
      ensures Placed(old(freelist.Abs()), freelist.Abs(), txid, old(pgid), pgid, id, count) && freelist.pending == old(freelist.pending)
      ensures freelist.Valid() && fresh(p) && fresh(p.words) && count >= 1 && id + count <= pgid
      ensures PAGE_HEADER_SIZE + PGID_SIZE * p.words.Length <= count * pageSize
      ensures p.isFreelist && p.Readable() && StrictlySorted(p.Ids())
      ensures Elements(p.Ids()) == Tracked(freelist.Abs()) == old(Tracked(freelist.Abs())) - Run(id, count)
      ensures Run(id, count) !! Elements(p.Ids())
    {
      hide Freelist.Valid, Elements, StrictlySorted, Run, Placed, Tracked, Freelist.Abs;
      var size := freelist.Size();
      ghost var before := |Tracked(freelist.Abs())|;
      count := size / pageSize + 1;
      ghost var all := Tracked(freelist.Abs());
      id := Allocate(txid, count);
      FewerLeft(all, Run(id, count));
      CommitFits(before, |Tracked(freelist.Abs())|, pageSize, count);
      p := new FreelistPage((count * pageSize - PAGE_HEADER_SIZE) / PGID_SIZE);
      freelist.Write(p);
    }

    /** removeTx: forgets a closed read transaction, by moving the last one into its place. */
    method RemoveTx(tx: Tx)
      modifies this`txs
      ensures multiset(txs) == old(multiset(txs)) - multiset{tx}
    {
      var i := 0;
      while i < |txs| && txs[i] != tx
        invariant 0 <= i <= |txs| && tx !in txs[..i]
        modifies {}
      {
        i := i + 1;
      }
      if i < |txs| {
        SwapOut(txs, i);
        var last := |txs| - 1;
        txs := txs[i := txs[last]][..last];
      } else {
        Absent(txs, tx);
      }
    }

    /**
     * freePages: makes reusable exactly the pending pages no open reader can see. A page allocated by A and
     * freed by F is visible to the readers in [A, F]. Reader ids are at least 1, since the first version is 1.
     */
    method FreePages()
      requires freelist.Valid()
      requires forall t :: t in txs ==> 1 <= t.txid < MAX_TXID
      modifies this`txs, freelist
      ensures multiset(txs) == old(multiset(txs))
      ensures freelist.Valid()
      ensures freelist.Abs() == ReleaseUnpinned(old(freelist.Abs()), Txids(old(txs)))
      ensures freelist.pending.Keys <= old(freelist.pending.Keys)
    {
      hide AllOk, Entries, WellFormed, Handed, Move, Pinned, Txids, ByTxid, ReleaseUnpinned, ReleaseRange, ReleaseUpTo, FreelistInvariant.FreePages;
      ghost var st, readers := freelist.Abs(), Txids(txs);
      ghost var keys := freelist.pending.Keys;
      freelist.WellFormedAbs();
      SortedReaders(txs);
      txs := SortTxs(txs);
      var minid := MAX_TXID;
      if |txs| > 0 {
        minid := txs[0].txid;
      }
      NotBelow(txs, minid);
      freelist.Release(minid - 1);
      ReleaseOld(st, readers, minid);
      ReleaseExtents(st, readers, minid);
    }

    /** The second half of freePages: the extents between neighbouring readers, and the one after the newest. */
    method ReleaseExtents(ghost st: State, ghost readers: set<nat>, first: nat)
      requires freelist.Valid() && WellFormed(st) && forall e :: e in st.pending ==> e.freedBy < MAX_TXID
      requires ByTxid(txs) && readers == Txids(txs) && forall i :: 0 <= i < |txs| ==> 1 <= txs[i].txid < MAX_TXID
      requires first == if |txs| > 0 then txs[0].txid else MAX_TXID
      requires freelist.Abs() == Move(st, Handed(st, readers, first))
      modifies freelist
      ensures freelist.Valid() && freelist.Abs() == ReleaseUnpinned(st, readers)
      ensures freelist.pending.Keys <= old(freelist.pending.Keys)
    {
      hide AllOk, Entries, WellFormed, Handed, Move, Pinned, Txids, ByTxid, ReleaseUnpinned, ReleaseRange, FreelistInvariant.FreePages;
      ghost var keys := freelist.pending.Keys;
      var minid := first;
      for i := 0 to |txs|
        invariant freelist.Valid() && freelist.pending.Keys <= keys
        invariant minid >= 1
        invariant minid == if i > 0 then txs[i - 1].txid + 1 else first
        invariant freelist.Abs() == Move(st, Handed(st, readers, minid))
        modifies freelist
      {
        GapAt(txs, i, minid);
        ReleaseGap(st, readers, minid, txs[i].txid);
        freelist.ReleaseWithin(minid, txs[i].txid - 1);
        minid := txs[i].txid + 1;
      }
      TopOf(txs, minid);
      ReleaseNew(st, readers, minid);
      freelist.ReleaseWithin(minid, MAX_TXID);
    }
  }

  lemma InOwnRun(id: nat, count: nat)
    requires count >= 1
    ensures id in Run(id, count) && id + count - 1 in Run(id, count)
  {
  }

  lemma FewerLeft(all: set<nat>, taken: set<nat>)
    ensures |all - taken| <= |all|
  {
    assert all == (all - taken) + (all * taken);
  }

  lemma Absent(s: seq<Tx>, t: Tx)
    requires t !in s[..|s|]
    ensures multiset(s) == multiset(s) - multiset{t}
  {
    assert s[..|s|] == s;
    assert t !in multiset(s);
  }

  lemma SwapOut(s: seq<Tx>, i: nat)
    requires i < |s|
    ensures multiset(s[i := s[|s| - 1]][..|s| - 1]) == multiset(s) - multiset{s[i]}
  {
    var last := |s| - 1;
    var t := s[..last];
    assert s == t + [s[last]];
    if i < last {
      assert t == t[..i] + [s[i]] + t[i + 1..];
      assert s[i := s[last]][..last] == t[..i] + [s[last]] + t[i + 1..];
    } else {
      assert s[i := s[last]][..last] == t;
    }
  }

  lemma SortedReaders(txs: seq<Tx>)
    requires forall t :: t in txs ==> 1 <= t.txid < MAX_TXID
    ensures Txids(SortTxs(txs)) == Txids(txs)
    ensures forall i :: 0 <= i < |SortTxs(txs)| ==> 1 <= SortTxs(txs)[i].txid < MAX_TXID
  {
    SameTxids(SortTxs(txs), txs);
    forall i | 0 <= i < |SortTxs(txs)| ensures 1 <= SortTxs(txs)[i].txid < MAX_TXID {
      assert SortTxs(txs)[i] in txs;
    }
  }

  lemma NotBelow(s: seq<Tx>, minid: nat)
    requires ByTxid(s) && (forall i :: 0 <= i < |s| ==> s[i].txid >= 1)
    requires minid == if |s| > 0 then s[0].txid else MAX_TXID
    ensures minid >= 1 && forall r :: r in Txids(s) ==> minid <= r
  {
  }

  lemma GapAt(s: seq<Tx>, i: nat, minid: nat)
    requires ByTxid(s) && i < |s| && (forall k :: 0 <= k < |s| ==> s[k].txid >= 1)
    requires minid == if i > 0 then s[i - 1].txid + 1 else s[0].txid
    ensures 1 <= minid <= s[i].txid + 1 && s[i].txid in Txids(s)
    ensures forall r :: r in Txids(s) ==> r < minid || s[i].txid <= r
    ensures minid - 1 in Txids(s) || forall r :: r in Txids(s) ==> minid <= r
    ensures minid - 1 !in Txids(s) ==> minid == s[i].txid
  {
    assert s[i] in s;
    if i > 0 {
      assert s[i - 1] in s;
    }
  }

  lemma TopOf(s: seq<Tx>, minid: nat)
    requires ByTxid(s) && (forall k :: 0 <= k < |s| ==> s[k].txid >= 1)
    requires minid == if |s| > 0 then s[|s| - 1].txid + 1 else MAX_TXID
    ensures minid >= 1 && forall r :: r in Txids(s) ==> r < minid
    ensures minid - 1 in Txids(s) || (Txids(s) == {} && minid == MAX_TXID)
  {
    if |s| > 0 {
      assert s[|s| - 1] in s;
    }
  }

  /**
   * Exactness, in the words of the documentation: a pending page is handed back if and only if it was freed
   * before the oldest reader, or no reader lies between its allocation and its freeing.
   */
  lemma ReleasedExactly(st: State, readers: set<nat>, e: Entry)
    requires WellFormed(st) && e in st.pending
    ensures e.page in ReleaseUnpinned(st, readers).free <==>
      (forall r :: r in readers ==> e.freedBy < r) || (forall r :: r in readers ==> !(e.allocBy <= r <= e.freedBy))
    ensures e in ReleaseUnpinned(st, readers).pending <==> e.page !in ReleaseUnpinned(st, readers).free
  {
    var moved := set f | f in st.pending && !Pinned(f, readers);
    assert e.page in PagesOf(st.pending);
    assert e.page in PagesOf(moved) <==> e in moved;
  }
}
