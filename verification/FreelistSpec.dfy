/**
 * The freelist as a value: what its operations mean, independently of how either backend stores
 * the free pages. The classes are proved against these functions and the transaction protocol
 * is built from them.
 */
module FreelistSpec {
  import opened Pgids

  /** A page freed by one transaction and not yet reusable. allocBy 0 means the allocator is unknown. */
  datatype Entry = Entry(page: nat, freedBy: nat, allocBy: nat)

  datatype State = State(free: set<nat>, pending: set<Entry>, allocs: map<nat, nat>)

  ghost function PagesOf(entries: set<Entry>): set<nat> {
    set e | e in entries :: e.page
  }

  ghost predicate OneEntryPerPage(entries: set<Entry>) {
    forall a, b :: a in entries && b in entries && a.page == b.page ==> a == b
  }

  ghost predicate WellFormed(st: State) {
    && OneEntryPerPage(st.pending)
    && st.free !! PagesOf(st.pending)
    && (forall p :: p in st.free ==> p >= 2)
    && (forall e :: e in st.pending ==> e.page >= 2 && e.allocBy <= e.freedBy)
  }

  /** Every page the freelist tracks, free or pending. */
  ghost function Tracked(st: State): set<nat> {
    st.free + PagesOf(st.pending)
  }

  /** Turns some pending pages into free ones. */
  ghost function Move(st: State, moved: set<Entry>): State {
    State(st.free + PagesOf(moved), st.pending - moved, st.allocs)
  }

  ghost function ReleaseUpTo(st: State, txid: nat): State {
    Move(st, set e | e in st.pending && e.freedBy <= txid)
  }

  predicate Within(e: Entry, begin: nat, end: nat) {
    begin <= e.freedBy <= end && begin <= e.allocBy <= end
  }

  ghost function ReleaseRange(st: State, begin: nat, end: nat): State {
    Move(st, set e | e in st.pending && Within(e, begin, end))
  }

  /** Some reader's version may contain the page: it lies between allocation and freeing. */
  ghost predicate Pinned(e: Entry, readers: set<nat>) {
    exists r :: r in readers && e.allocBy <= r <= e.freedBy
  }

  ghost function ReleaseUnpinned(st: State, readers: set<nat>): State {
    Move(st, set e | e in st.pending && !Pinned(e, readers))
  }

  /** The allocating transaction recorded for a page being freed. */
  ghost function AllocTx(st: State, txid: nat, head: nat, isFreelist: bool): nat {
    if head in st.allocs then st.allocs[head] else if isFreelist && txid >= 1 then txid - 1 else 0
  }

  ghost function Stamp(pages: set<nat>, txid: nat, allocBy: nat): set<Entry> {
    set x | x in pages :: Entry(x, txid, allocBy)
  }

  ghost function FreeRun(st: State, txid: nat, head: nat, len: nat, isFreelist: bool): State {
    State(st.free,
          st.pending + Stamp(Run(head, len), txid, AllocTx(st, txid, head, isFreelist)),
          st.allocs - {head})
  }

  /** Removes n consecutive pages from the free set for a transaction. */
  ghost function TakeRun(st: State, txid: nat, head: nat, n: nat): State {
    State(st.free - Run(head, n), st.pending, st.allocs[head := txid])
  }

  ghost function FreedBy(st: State, txid: nat): set<Entry> {
    set e | e in st.pending && e.freedBy == txid
  }

  /** The entries of a transaction for pages that it had allocated itself. */
  predicate OwnPage(e: Entry, txid: nat) {
    e.allocBy != 0 && e.allocBy == txid
  }

  /** The allocs entries that rolling back txid puts back: its pages known to come from other transactions. */
  ghost function Restored(entries: set<Entry>, txid: nat): map<nat, nat>
    requires OneEntryPerPage(entries)
  {
    map e | e in entries && e.allocBy != 0 && e.allocBy != txid :: e.page := e.allocBy
  }

  ghost function Rollback(st: State, txid: nat): State
    requires OneEntryPerPage(st.pending)
  {
    State(st.free + PagesOf(set e | e in FreedBy(st, txid) && OwnPage(e, txid)),
          st.pending - FreedBy(st, txid),
          st.allocs + Restored(FreedBy(st, txid), txid))
  }

  lemma StampPages(pages: set<nat>, txid: nat, allocBy: nat)
    ensures PagesOf(Stamp(pages, txid, allocBy)) == pages
  {
    forall x ensures x in PagesOf(Stamp(pages, txid, allocBy)) <==> x in pages {
      if x in pages {
        assert Entry(x, txid, allocBy) in Stamp(pages, txid, allocBy);
      }
    }
  }

  lemma PagesOfUnion(a: set<Entry>, b: set<Entry>)
    ensures PagesOf(a + b) == PagesOf(a) + PagesOf(b)
  {
    forall x ensures x in PagesOf(a + b) <==> x in PagesOf(a) + PagesOf(b) {
      if x in PagesOf(a) {
        var e :| e in a && e.page == x;
        assert e in a + b;
      }
      if x in PagesOf(b) {
        var e :| e in b && e.page == x;
        assert e in a + b;
      }
    }
  }

  lemma PagesOfDifference(a: set<Entry>, b: set<Entry>)
    requires OneEntryPerPage(a) && b <= a
    ensures PagesOf(a - b) == PagesOf(a) - PagesOf(b)
  {
    forall x ensures x in PagesOf(a - b) <==> x in PagesOf(a) - PagesOf(b) {
      if x in PagesOf(a - b) {
        var e :| e in a - b && e.page == x;
        assert forall f :: f in b && f.page == x ==> f == e;
      }
      if x in PagesOf(a) - PagesOf(b) {
        var e :| e in a && e.page == x;
        assert e !in b;
        assert e in a - b;
      }
    }
  }

  /** Moving pages from pending to free keeps the freelist well formed and loses or invents no page. */
  lemma MoveConserves(st: State, moved: set<Entry>)
    requires WellFormed(st) && moved <= st.pending
    ensures WellFormed(Move(st, moved))
    ensures Tracked(Move(st, moved)) == Tracked(st)
  {
    var st' := Move(st, moved);
    PagesOfDifference(st.pending, moved);
    forall p | p in PagesOf(moved) ensures p >= 2 && p in PagesOf(st.pending) {
      var e :| e in moved && e.page == p;
      assert e in st.pending;
    }
  }

  /** Freeing a run adds exactly its pages to what is tracked. */
  lemma FreeRunConserves(st: State, txid: nat, head: nat, len: nat, isFreelist: bool)
    requires WellFormed(st) && head >= 2 && Run(head, len) !! Tracked(st)
    requires forall p :: p in st.allocs ==> st.allocs[p] <= txid
    ensures WellFormed(FreeRun(st, txid, head, len, isFreelist))
    ensures Tracked(FreeRun(st, txid, head, len, isFreelist)) == Tracked(st) + Run(head, len)
  {
    var new_ := Stamp(Run(head, len), txid, AllocTx(st, txid, head, isFreelist));
    StampPages(Run(head, len), txid, AllocTx(st, txid, head, isFreelist));
    PagesOfUnion(st.pending, new_);
    assert forall e :: e in st.pending ==> e.page in PagesOf(st.pending);
    assert forall e :: e in new_ ==> e.page in Run(head, len);
  }

  /**
   * What is recorded of a freed run: one entry for each of its pages, stamped with the freeing transaction, and with the
   * transaction that had allocated the run, if that is on record; of freelist pages not on record it was the one before.
   */
  lemma FreedEntries(st: State, txid: nat, head: nat, len: nat, isFreelist: bool, e: Entry)
    requires WellFormed(st) && Run(head, len) !! Tracked(st) && txid >= 1
    ensures var after := FreeRun(st, txid, head, len, isFreelist);
      && (head <= e.page < head + len ==>
            (e in after.pending <==>
               e.freedBy == txid && e.allocBy == if head in st.allocs then st.allocs[head] else if isFreelist then txid - 1 else 0))
      && (!(head <= e.page < head + len) ==> (e in after.pending <==> e in st.pending))
      && after.free == st.free && head !in after.allocs
      && forall p :: p != head ==> (p in after.allocs <==> p in st.allocs) && (p in st.allocs ==> after.allocs[p] == st.allocs[p])
  {
    assert e in st.pending ==> e.page in PagesOf(st.pending);
  }

  lemma TakeRunConserves(st: State, txid: nat, head: nat, n: nat)
    requires WellFormed(st) && Run(head, n) <= st.free
    ensures WellFormed(TakeRun(st, txid, head, n))
    ensures Tracked(TakeRun(st, txid, head, n)) == Tracked(st) - Run(head, n)
  {
  }

  // ---------- what one step leaves for another ----------

  /** Taking pages records the transaction for the first of them, and changes nothing else but the free pages. */
  lemma TakenRecorded(st: State, txid: nat, head: nat, n: nat)
    ensures var after := TakeRun(st, txid, head, n);
      && head in after.allocs && after.allocs[head] == txid
      && (forall p :: p != head ==> (p in after.allocs <==> p in st.allocs) && (p in st.allocs ==> after.allocs[p] == st.allocs[p]))
      && (forall p :: p in after.free <==> p in st.free && !(head <= p < head + n))
      && after.pending == st.pending
  {
  }

  /** Pages taken by a and freed by b can be used again exactly if no reader is open between the two. */
  lemma TakenThenFreed(st: State, a: nat, b: nat, head: nat, n: nat, readers: set<nat>, p: nat)
    requires WellFormed(st) && Run(head, n) <= st.free && 1 <= a <= b && head <= p < head + n
    requires forall q :: q in st.allocs ==> st.allocs[q] <= b
    ensures p in ReleaseUnpinned(FreeRun(TakeRun(st, a, head, n), b, head, n, false), readers).free <==>
      forall r :: r in readers ==> !(a <= r <= b)
  {
    hide PagesOf, Tracked, FreeRun, TakeRun, OneEntryPerPage;
    HeadOk(st, head, n);
    var taken := TakeRun(st, a, head, n);
    var freed := FreeRun(taken, b, head, n, false);
    TakeRunConserves(st, a, head, n);
    TakenRecorded(st, a, head, n);
    FreeRunConserves(taken, b, head, n, false);
    FreedEntries(taken, b, head, n, false, Entry(p, b, a));
    NotFreeAgain(freed, readers, Entry(p, b, a));
  }

  /** A pending page is free behind the release exactly if it was not pinned. */
  lemma NotFreeAgain(st: State, readers: set<nat>, e: Entry)
    requires WellFormed(st) && e in st.pending
    ensures e.page in ReleaseUnpinned(st, readers).free <==> forall r :: r in readers ==> !(e.allocBy <= r <= e.freedBy)
  {
    var moved := set f | f in st.pending && !Pinned(f, readers);
    assert e.page in PagesOf(st.pending);
    assert e.page in PagesOf(moved) <==> e in moved;
  }

  /**
   * Rolling back undoes freeing: nothing is free or pending that was not, and the allocating transaction is on record
   * again, for every page of the run.
   */
  lemma FreedThenRolledBack(st: State, txid: nat, head: nat, len: nat, isFreelist: bool)
    requires WellFormed(st) && head >= 2 && Run(head, len) !! Tracked(st) && txid >= 1 && len >= 1
    requires forall p :: p in st.allocs ==> st.allocs[p] < txid
    requires forall e :: e in st.pending ==> e.freedBy < txid
    ensures var freed := FreeRun(st, txid, head, len, isFreelist);
      && WellFormed(freed)
      && var owner, undone := if head in st.allocs then st.allocs[head] else if isFreelist then txid - 1 else 0, Rollback(freed, txid);
      && undone.free == st.free && undone.pending == st.pending
      && (forall p :: head <= p < head + len && owner != 0 ==> p in undone.allocs && undone.allocs[p] == owner)
      && (forall p :: !(head <= p < head + len) ==> (p in undone.allocs <==> p in st.allocs) && (p in st.allocs ==> undone.allocs[p] == st.allocs[p]))
  {
    hide Run, Tracked, WellFormed, Stamp, Restored, PagesOf, OneEntryPerPage;
    var freed := FreeRun(st, txid, head, len, isFreelist);
    FreeRunConserves(st, txid, head, len, isFreelist);
    WellFormedOne(freed);
    var owner := AllocTx(st, txid, head, isFreelist);
    var stamp := Stamp(Run(head, len), txid, owner);
    StampedRun(head, len, txid, owner);
    StampOnly(st.pending, stamp, txid);
    assert FreedBy(freed, txid) == stamp;
    assert (set e | e in stamp && OwnPage(e, txid)) == {};
    NoEntries();
    StampRestored(stamp, head, len, txid, owner);
  }

  lemma HeadOk(st: State, head: nat, n: nat)
    requires WellFormed(st) && Run(head, n) <= st.free && n >= 1
    ensures head >= 2
  {
    assert head in Run(head, n);
  }

  lemma StampRestored(stamp: set<Entry>, head: nat, len: nat, txid: nat, owner: nat)
    requires OneEntryPerPage(stamp) && owner < txid
    requires forall e :: e in stamp <==> head <= e.page < head + len && e.freedBy == txid && e.allocBy == owner
    ensures forall p :: p in Restored(stamp, txid) ==> head <= p < head + len
    ensures owner != 0 ==> forall p :: head <= p < head + len ==> p in Restored(stamp, txid) && Restored(stamp, txid)[p] == owner
  {
    if owner != 0 {
      forall p | head <= p < head + len ensures p in Restored(stamp, txid) && Restored(stamp, txid)[p] == owner {
        assert Entry(p, txid, owner) in stamp;
      }
    }
  }

  lemma WellFormedOne(st: State)
    requires WellFormed(st)
    ensures OneEntryPerPage(st.pending)
  {
  }

  lemma StampOnly(pending: set<Entry>, stamp: set<Entry>, txid: nat)
    requires (forall e :: e in pending ==> e.freedBy < txid) && (forall e :: e in stamp ==> e.freedBy == txid)
    ensures pending + stamp - stamp == pending
  {
  }

  lemma StampedRun(head: nat, len: nat, txid: nat, owner: nat)
    ensures forall e :: e in Stamp(Run(head, len), txid, owner) <==> head <= e.page < head + len && e.freedBy == txid && e.allocBy == owner
  {
  }

  lemma NoEntries()
    ensures PagesOf({}) == {}
  {
  }
}
