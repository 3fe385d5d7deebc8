/**
 * The freelist object under the transaction protocol: what the code calls in each step takes the object's value to the
 * freelist of the protocol's next state, and everything those calls rely on follows from the protocol's invariant.
 */
module ProtocolBackend {
  import opened Options
  import opened Pgids
  import opened ArrayScan
  import opened Listing
  import opened FreelistSpec
  import opened Pending
  import opened FreelistInvariant
  import opened Freelists
  import opened Protocol
  import opened ProtocolSteps
  import opened ProtocolCommit
  import D = Db

  /** The object holds the protocol's freelist; transaction ids have not run out. */
  ghost predicate Coupled(f: Freelist, s: DbState)
    reads f
  {
    && f.Valid() && f.Abs() == s.fl && s.latest + 2 < MAX_TXID
    && (forall x :: x in f.pending ==> x <= s.latest + (if s.writer.Working? then 1 else 0))
    && (s.writer.Working? && s.latest + 1 in f.pending ==> f.pending[s.latest + 1].lastReleaseBegin == 0)
  }

  /** The step is possible, and the objects are where it leads. */
  ghost predicate Took(db: D.Db, s: DbState, a: Action)
    reads db, db.freelist
  {
    Enabled(s, a) && Coupled(db.freelist, Apply(s, a)) && (Apply(s, a).writer.Working? ==> db.pgid == Apply(s, a).writer.work.hwm)
  }

  /** A writer that is still building its tree, and the objects it works on. */
  ghost predicate Building(db: D.Db, s: DbState)
    reads db, db.freelist
  {
    && Inv(s) && s.latest in s.versions && Coupled(db.freelist, s)
    && s.writer.Working? && s.writer.work.phase.Building? && s.writer.work.fl.None? && db.pgid == s.writer.work.hwm
  }

  // ---------- what the invariant gives ----------

  lemma SlotsTwo(s: DbState)
    requires Inv(s)
    ensures |s.slots| == 2 && s.latest in s.versions
  {
  }

  lemma ReadersKnown(s: DbState, v: nat)
    requires Inv(s) && v in Readers(s)
    ensures 1 <= v <= s.latest
  {
    hide WorkOk, FreelistOk, SlotsOk, SnapshotOk, Reads, Durable, VersionOk;
    assert v in Watched(s);
    assert KnownVersion(s, v);
  }

  lemma WorkParts(s: DbState, w: Work)
    requires s.latest in s.versions && WorkOk(s, w)
    ensures s.fl.pending == w.base.pending + FreedBy(s.fl, s.latest + 1)
    ensures PagesOf(FreedBy(s.fl, s.latest + 1)) <= Stock(w, s.versions[s.latest])
    ensures forall p :: p in s.fl.allocs ==> s.fl.allocs[p] <= s.latest + 1
  {
    hide Separate, TreePages, NewOrOld, WorkDisk, WorkPages, WellFormed, Traced, FreedBy, PagesOf, Stock, OwnPage;
  }

  /** All tracked pages lie below the writer's high-water mark. */
  lemma TrackedBelow(s: DbState, w: Work)
    requires Settled(s, w.base) && WorkOk(s, w) && s.latest in s.versions
    ensures forall x :: x in Tracked(s.fl) ==> x < w.hwm
    ensures forall p :: p in s.fl.allocs ==> s.fl.allocs[p] <= s.latest + 1
  {
    hide Settled, WorkOk, FreedBy, PagesOf, Stock, Upto;
    WorkParts(s, w);
    StockApart(s, w);
    FreedByAll(s.fl, w.base.pending, s.latest + 1);
    UptoBelow(w.hwm);
  }

  lemma InvParts(s: DbState)
    requires Inv(s) && s.writer.Working? && s.latest in s.versions
    ensures Settled(s, s.writer.work.base) && WorkOk(s, s.writer.work)
  {
    hide Settled, WorkOk;
  }

  // ---------- the steps ----------

  /** A step that leaves the freelist alone: reading, writing, syncing, and making the new version current. */
  lemma Elsewhere(f: Freelist, s: DbState, a: Action)
    requires Inv(s) && Enabled(s, a) && Coupled(f, s)
    requires a.BeginRead? || a.CloseRead? || a.WriteData? || a.SyncData? || a.SyncMeta? || (a.WriteMeta? && s.latest + 3 < MAX_TXID)
    ensures Coupled(f, Apply(s, a))
  {
    hide Inv, Freelist.Valid;
  }

  /** beginRWTx: release what no reader sees, and start from the current version's high-water mark. */
  method BeginWriting(db: D.Db, high: nat, ghost s: DbState)
    requires Inv(s) && s.writer.Idle? && s.latest in s.versions && high == s.versions[s.latest].meta.hwm
    requires Coupled(db.freelist, s) && D.Txids(db.txs) == Readers(s)
    modifies db`pgid, db`txs, db.freelist
    ensures Took(db, s, BeginWrite) && D.Txids(db.txs) == Readers(s)
  {
    hide Inv, Freelist.Valid, ReleaseUnpinned;
    SlotsTwo(s);
    forall t | t in db.txs ensures 1 <= t.txid < MAX_TXID {
      assert t.txid in D.Txids(db.txs);
      ReadersKnown(s, t.txid);
    }
    ghost var txs := db.txs;
    db.FreePages();
    D.SameTxids(db.txs, txs);
    db.pgid := high;
  }

  /** allocate, for pages of the tree, whatever is written to them. */
  method AllocateTree(db: D.Db, txid: nat, len: nat, ghost s: DbState) returns (head: nat)
    requires Building(db, s) && txid == s.latest + 1 && len >= 1
    modifies db`pgid, db.freelist
    ensures forall content: map<nat, PageVal> :: content.Keys == Run(head, len) ==> Took(db, s, AllocTree(head, len, content))
  {
    hide Inv, Freelist.Valid, Run;
    SlotsTwo(s);
    WriterFits(s);
    ghost var before := db.freelist.Abs();
    head := db.Allocate(txid, len);
    TookFrom(before, db.freelist.Abs(), txid, s.writer.work.hwm, db.pgid, head, len);
  }

  /** free, for pages of the tree. */
  method FreeTreePages(db: D.Db, txid: nat, head: nat, len: nat, ghost s: DbState)
    requires Building(db, s) && txid == s.latest + 1 && Extent(head, len) in s.writer.work.tree
    modifies db.freelist
    ensures Took(db, s, FreeTree(Extent(head, len)))
  {
    hide Inv, Freelist.Valid, Run;
    SlotsTwo(s);
    WriterFits(s);
    TreeUntracked(s, Extent(head, len));
    var r := db.freelist.FreePage(txid, head, len - 1, false);
  }

  /** Commit's way with the freelist: the old pages are freed, new ones allocated and written. */
  method WriteFreelist(db: D.Db, txid: nat, head: nat, len: nat, ghost s: DbState) returns (id: nat, count: nat, p: FreelistPage)
    requires Building(db, s) && txid == s.latest + 1 && db.pageSize > 16 && s.versions[s.latest].fl == Extent(head, len)
    modifies db`pgid, db.freelist
    ensures p.Readable()
    ensures forall content: map<nat, PageVal> :: Holds(content, id, count, p) ==> Took(db, s, CommitFreelist(id, count, content))
  {
    hide Inv, Freelist.Valid, Run, Elements, D.Placed, StrictlySorted, FreeRun, Tracked, Take, Raise, MayTake, Holds, Took, Coupled;
    FreeOldPages(db, txid, head, len, s);
    id, count, p := db.CommitFreelist(txid);
    forall content: map<nat, PageVal> | Holds(content, id, count, p) ensures Took(db, s, CommitFreelist(id, count, content)) {
      Committed(db, s, id, count, p, content);
    }
  }

  /** The contents of the new freelist's pages: the first one lists the ids written. */
  ghost predicate Holds(content: map<nat, PageVal>, id: nat, count: nat, p: FreelistPage)
    reads p, p.words
  {
    content.Keys == Run(id, count) && id in content && p.Readable() && content[id] == FreelistIds(Elements(p.Ids()))
  }

  /** Only the old freelist's pages have been freed since the protocol's state. */
  ghost predicate Freed(f: Freelist, s: DbState)
    requires s.latest in s.versions
    reads f
  {
    && f.Valid() && f.Abs() == FreedFreelist(s) && s.latest + 2 < MAX_TXID
    && (forall x :: x in f.pending ==> x <= s.latest + 1)
    && (s.latest + 1 in f.pending ==> f.pending[s.latest + 1].lastReleaseBegin == 0)
  }

  method FreeOldPages(db: D.Db, txid: nat, head: nat, len: nat, ghost s: DbState)
    requires Building(db, s) && txid == s.latest + 1 && s.versions[s.latest].fl == Extent(head, len)
    modifies db.freelist
    ensures Freed(db.freelist, s) && forall x :: x in Tracked(db.freelist.Abs()) ==> x < db.pgid
  {
    hide Inv, Freelist.Valid, Run, FreeRun, Tracked;
    WriterFits(s);
    HeldUntracked(s);
    StillBelow(s);
    var r := db.freelist.FreePage(txid, head, len - 1, true);
    assert len - 1 + 1 == len;
  }

  lemma Committed(db: D.Db, s: DbState, id: nat, count: nat, p: FreelistPage, content: map<nat, PageVal>)
    requires Inv(s) && s.latest in s.versions && s.writer.Working? && s.writer.work.phase.Building? && s.writer.work.fl.None?
    requires count >= 1 && D.Placed(FreedFreelist(s), db.freelist.Abs(), s.latest + 1, s.writer.work.hwm, db.pgid, id, count)
    requires Holds(content, id, count, p) && Elements(p.Ids()) == Tracked(db.freelist.Abs())
    requires db.freelist.Valid() && s.latest + 2 < MAX_TXID && forall x :: x in db.freelist.pending ==> x <= s.latest + 1
    requires s.latest + 1 in db.freelist.pending ==> db.freelist.pending[s.latest + 1].lastReleaseBegin == 0
    ensures Took(db, s, CommitFreelist(id, count, content))
  {
    hide Inv, Freelist.Valid, Run, FreeRun, Tracked, Elements, D.Placed, Take, Raise, MayTake, Freelist.Abs;
    SlotsTwo(s);
    TookFrom(FreedFreelist(s), db.freelist.Abs(), s.latest + 1, s.writer.work.hwm, db.pgid, id, count);
  }

  /** rollback, before anything has been allocated. */
  method RollBack(db: D.Db, txid: nat, ghost s: DbState)
    requires Inv(s) && s.latest in s.versions && Coupled(db.freelist, s) && s.writer.Working? && txid == s.latest + 1
    requires s.writer.work.pages == map[]
    modifies db.freelist
    ensures Took(db, s, UserRollback)
  {
    hide Inv, Run, Rollback;
    SlotsTwo(s);
    NothingOwn(s, txid);
    db.freelist.RollbackTx(txid);
  }

  /** rollback of a failed commit, with the array backend: undo the transaction's pending pages, and reload the old freelist. */
  method Abort(db: D.Db, txid: nat, p: FreelistPage, ghost s: DbState)
    requires Inv(s) && s.latest in s.versions && Coupled(db.freelist, s) && s.writer.Working? && txid == s.latest + 1
    requires !s.writer.work.phase.DataSynced? && db.freelist.backend.ArrayBackend?
    requires p.isFreelist && p.Readable() && Distinct(p.Ids()) && Elements(p.Ids()) == s.versions[s.latest].ids
    modifies db.freelist
    ensures Took(db, s, AbortCommit)
  {
    hide Inv, Run, Rollback, Elements, Distinct, Decoded, WordsOk;
    SlotsTwo(s);
    ListedOk(s);
    db.freelist.RollbackTx(txid);
    var ok := db.freelist.Reload(p);
  }

  /** Opening a file: a new freelist with the ids of the version found. */
  method Reopen(p: FreelistPage, ghost s: DbState, ghost disk: map<nat, PageVal>, ghost seen: seq<Slot>) returns (f: Freelist)
    requires Enabled(s, Crash(disk, seen)) && Apply(s, Crash(disk, seen)).latest + 2 < MAX_TXID
    requires p.isFreelist && p.Readable() && Distinct(p.Ids()) && NoMetaPage(Elements(p.Ids()))
    requires Elements(p.Ids()) == disk[SelectMeta(seen).value.freelist].ids
    ensures Coupled(f, Apply(s, Crash(disk, seen)))
  {
    hide Elements, Distinct, Decoded, WordsOk, SlotsSeen;
    f := new Freelist(ArrayBackend);
    var ok := f.Reload(p);
    NothingPending();
  }

  // ---------- why they may be taken ----------

  lemma NothingPending()
    ensures PagesOf(Entries(map[])) == {} && Entries(map[]) == {}
  {
  }

  lemma WriterFits(s: DbState)
    requires Inv(s) && s.writer.Working? && s.latest in s.versions
    ensures forall x :: x in Tracked(s.fl) ==> x < s.writer.work.hwm
    ensures forall p :: p in s.fl.allocs ==> s.fl.allocs[p] <= s.latest + 1
  {
    TrackedBelow(s, s.writer.work);
  }

  lemma TookFrom(before: State, now: State, txid: nat, high: nat, higher: nat, head: nat, len: nat)
    requires D.Placed(before, now, txid, high, higher, head, len) && len >= 1
    ensures MayTake(before, high, head, len) && now == Take(before, txid, head, len) && higher == Raise(before, high, head, len)
  {
  }

  lemma TreeUntracked(s: DbState, x: Extent)
    requires Inv(s) && s.writer.Working? && s.latest in s.versions && x in s.writer.work.tree
    ensures Run(x.head, x.len) * Tracked(s.fl) == {} && x.head > 1 && x.len >= 1
  {
    var w := s.writer.work;
    TreePagesDrop(w.tree, x);
    Untracked(s, w, PagesIn(x));
    HeadIn(x);
  }

  lemma HeldUntracked(s: DbState)
    requires Inv(s) && s.writer.Working? && s.latest in s.versions && s.writer.work.fl.None?
    ensures var x := s.versions[s.latest].fl; Run(x.head, x.len) * Tracked(s.fl) == {} && x.head > 1 && x.len >= 1
  {
    var w := s.writer.work;
    LatestPartition(s, w.base);
    Untracked(s, w, PagesIn(s.versions[s.latest].fl));
    HeadIn(s.versions[s.latest].fl);
  }

  /** With the old freelist's pages freed as well, all tracked pages still lie below the high-water mark. */
  lemma StillBelow(s: DbState)
    requires Inv(s) && s.writer.Working? && s.latest in s.versions && s.writer.work.fl.None?
    ensures forall x :: x in Tracked(FreedFreelist(s)) ==> x < s.writer.work.hwm
  {
    hide Inv, Settled, WorkOk, Run, PagesOf, Upto, Stamp, TreePages;
    var w, old_ := s.writer.work, s.versions[s.latest].fl;
    InvParts(s);
    TrackedBelow(s, w);
    StockApart(s, w);
    var stamp := Stamp(Run(old_.head, old_.len), s.latest + 1, AllocTx(s.fl, s.latest + 1, old_.head, true));
    StampPages(Run(old_.head, old_.len), s.latest + 1, AllocTx(s.fl, s.latest + 1, old_.head, true));
    PagesOfUnion(s.fl.pending, stamp);
    UptoBelow(w.hwm);
    assert FreedFreelist(s).pending == s.fl.pending + stamp && FreedFreelist(s).free == s.fl.free;
    assert Run(old_.head, old_.len) <= Upto(w.hwm);
    assert Tracked(FreedFreelist(s)) == Tracked(s.fl) + Run(old_.head, old_.len);
  }

  /** A transaction that has allocated nothing has freed no page of its own. */
  lemma NothingOwn(s: DbState, txid: nat)
    requires Inv(s) && s.writer.Working? && s.latest in s.versions && s.writer.work.pages == map[] && txid == s.latest + 1
    ensures OneEntryPerPage(s.fl.pending)
    ensures forall e :: e in FreedBy(s.fl, txid) ==> !OwnPage(e, txid)
  {
  }

  lemma ListedOk(s: DbState)
    requires Inv(s) && s.writer.Working? && s.latest in s.versions
    ensures OneEntryPerPage(s.fl.pending) && NoMetaPage(s.versions[s.latest].ids)
  {
    var w := s.writer.work;
    LatestPartition(s, w.base);
    hide Settled, Separate, TreePages, Run;
    UptoBelow(s.versions[s.latest].meta.hwm);
  }
}
