/** Committing, undoing and crashing keep the protocol's invariant. */
module ProtocolCommit {
  import opened Pgids
  import opened FreelistSpec
  import opened Protocol
  import opened ProtocolSteps

  // ---------- the new version ----------

  /** The set algebra behind the new partition. */
  lemma Covering(tree: set<nat>, held: set<nat>, freed: set<nat>, stock: set<nat>, free: set<nat>, waiting: set<nat>,
                 baseFree: set<nat>, pages: set<nat>, old_: set<nat>, low: set<nat>, high: set<nat>)
    requires tree + held + freed == stock && stock == old_ + pages
    requires tree !! held && (tree + held) !! freed && stock !! free && stock !! waiting
    requires pages == (baseFree - free) + (high - low) && free <= baseFree && low <= high
    requires old_ + (baseFree + waiting) == low
    ensures tree + held + (free + (waiting + freed)) == high
    ensures tree !! free + (waiting + freed) && held !! free + (waiting + freed)
  {
    forall x ensures x in tree + held + (free + (waiting + freed)) <==> x in high {
      assert x in tree + held + freed <==> x in old_ + pages;
    }
  }

  lemma BaseCover(s: DbState, w: Work)
    requires Settled(s, w.base) && WorkOk(s, w) && s.latest in s.versions
    ensures var v := s.versions[s.latest];
      TreePages(v.tree) + PagesIn(v.fl) + (w.base.free + PagesOf(w.base.pending)) == Upto(v.meta.hwm)
    ensures Upto(s.versions[s.latest].meta.hwm) <= Upto(w.hwm)
  {
    hide WorkFreelist, WorkDisk, Balance, NewOrOld, SlotsOk, KnownVersion, Covered, SnapshotOk, Reads, Durable, Separate, TreePages, Run, Closed, PagesOf, Upto;
    LatestPartition(s, w.base);
    UptoMono(s.versions[s.latest].meta.hwm, w.hwm);
  }

  lemma IdsSplit(s: DbState, w: Work)
    requires s.latest in s.versions && WorkFreelist(w, s.fl, s.versions[s.latest], s.latest + 1) && w.ids == Tracked(s.fl)
    ensures w.ids == s.fl.free + (PagesOf(w.base.pending) + PagesOf(FreedBy(s.fl, s.latest + 1)))
  {
    FreedByAll(s.fl, w.base.pending, s.latest + 1);
  }

  /** After the new freelist is written, tree, freelist pages and listed ids partition the file. */
  lemma NewPartition(s: DbState, w: Work)
    requires Settled(s, w.base) && WorkOk(s, w) && w.fl.Some? && s.latest in s.versions
    ensures Partition(w.tree, w.fl.value, w.ids, w.hwm) && w.fl.value.len >= 1
  {
    hide Settled, WorkDisk, NewOrOld, TreePages, Separate, Upto, PagesOf, Run, FreedBy, WorkFreelist, Tracked;
    var v := s.versions[s.latest];
    StockApart(s, w);
    BaseCover(s, w);
    IdsSplit(s, w);
    Covering(TreePages(w.tree), PagesIn(w.fl.value), PagesOf(FreedBy(s.fl, s.latest + 1)), Stock(w, v), s.fl.free,
             PagesOf(w.base.pending), w.base.free, w.pages.Keys,
             TreePages(v.tree) + PagesIn(v.fl), Upto(v.meta.hwm), Upto(w.hwm));
  }

  lemma NewContentKeys(s: DbState, w: Work)
    requires Settled(s, w.base) && WorkOk(s, w) && w.fl.Some? && s.latest in s.versions
    ensures NewContent(w, s.versions[s.latest]).Keys == TreePages(w.tree) + PagesIn(w.fl.value)
  {
    hide SlotsOk, FreelistOk, WorkDisk, WorkFreelist, WorkPages, NewOrOld, TreePages, Separate, Upto, PagesOf, Run, FreedBy, Closed, Covered, Reads, Durable, SnapshotOk;
    var v := s.versions[s.latest];
    LatestContent(s);
    assert TreePages(w.tree) + PagesIn(w.fl.value) <= Stock(w, v);
  }

  lemma NewVersionOk(s: DbState, w: Work, root: nat)
    requires Settled(s, w.base) && WorkOk(s, w) && w.fl.Some? && s.latest in s.versions
    requires Closed(w.tree, NewContent(w, s.versions[s.latest]), root)
    ensures VersionOk(NewVersion(s, w, root))
  {
    hide Settled, WorkFreelist, WorkPages, WorkDisk, Balance, NewOrOld, Partition, Closed, TreePages;
    NewPartition(s, w);
    NewContentKeys(s, w);
    HeadIn(w.fl.value);
  }

  lemma TracedAll(w: Work, fl: State, v: Version, txid: nat)
    requires WorkFreelist(w, fl, v, txid)
    ensures w.base.pending <= fl.pending && forall x :: x in v.tree ==> Traced(x, w, fl, txid)
  {
  }

  /** Every version still watched stays covered when the writer's tree becomes current. */
  lemma CommitCovered(tree: set<Extent>, w: Work, fl: State, latest: nat, v: nat, x: Extent)
    requires w.base.pending <= fl.pending && forall y :: y in tree ==> Traced(y, w, fl, latest + 1)
    requires v <= latest && Covered(x, v, tree, w.base)
    ensures Covered(x, v, w.tree, fl)
  {
    hide Traced, PendingFor;
    if x in tree && (x.head in w.base.allocs ==> w.base.allocs[x.head] <= v) {
      TracedCovered(x, w, fl, latest + 1, v);
    } else {
      PendingGrows(x, v, w.base, fl);
    }
  }

  lemma TracedCovered(x: Extent, w: Work, fl: State, txid: nat, v: nat)
    requires Traced(x, w, fl, txid) && v < txid && (x.head in w.base.allocs ==> w.base.allocs[x.head] <= v)
    ensures Covered(x, v, w.tree, fl)
  {
    if x.head !in fl.allocs && forall p :: p in PagesIn(x) ==> Entry(p, txid, BaseAlloc(w.base, x)) in fl.pending {
      forall p | p in PagesIn(x) ensures PendingFor(p, v, fl) {
        assert Entry(p, txid, BaseAlloc(w.base, x)) in fl.pending;
      }
    }
  }

  lemma PendingGrows(x: Extent, v: nat, base: State, fl: State)
    requires (forall p :: p in PagesIn(x) ==> PendingFor(p, v, base)) && base.pending <= fl.pending
    ensures forall p :: p in PagesIn(x) ==> PendingFor(p, v, fl)
  {
    forall p | p in PagesIn(x) ensures PendingFor(p, v, fl) {
      assert PendingFor(p, v, base);
    }
  }

  /** The new version is on disk, page for page. */
  lemma NewOnDisk(s: DbState, w: Work, root: nat)
    requires Settled(s, w.base) && WorkDisk(w, s) && w.phase.DataSynced? && w.fl.Some? && s.latest in s.versions
    ensures Durable(NewVersion(s, w, root), s)
  {
    hide FreelistOk, SnapshotOk, SlotsOk, VersionOk, TreePages, Reads;
    SettledReads(s, w.base);
  }

  lemma NewFreelistOk(s: DbState, s': DbState, w: Work, root: nat)
    requires s.latest in s.versions && WorkFreelist(w, s.fl, s.versions[s.latest], s.latest + 1) && w.fl.Some?
    requires w.ids == Tracked(s.fl)
    requires s'.latest == s.latest + 1 && s'.versions == s.versions[s'.latest := NewVersion(s, w, root)]
    ensures FreelistOk(s', s.fl)
  {
  }

  lemma NewSlotsOk(s: DbState, s': DbState, w: Work, root: nat)
    requires SlotsOk(s) && s.writer.Working? && w.fl.Some? && s.latest >= 1 && s.versions[s.latest].meta.txid == s.latest
    requires s'.latest == s.latest + 1 && s'.versions == s.versions[s'.latest := NewVersion(s, w, root)]
    requires s'.slots == s.slots && s'.writer == SyncingMeta(Slot(NewVersion(s, w, root).meta, true))
    ensures SlotsOk(s')
  {
  }

  /** One watched version after the commit: the new one, or an older one. */
  lemma CommitWatched(s: DbState, s': DbState, w: Work, root: nat, v: nat)
    requires Settled(s, w.base) && WorkOk(s, w) && w.fl.Some? && w.phase.DataSynced? && s.writer.Working? && s.latest in s.versions
    requires VersionOk(NewVersion(s, w, root))
    requires s'.latest == s.latest + 1 && s'.versions == s.versions[s'.latest := NewVersion(s, w, root)]
    requires v == s.latest + 1 || v in Watched(s)
    requires View(s') == View(s)
    ensures v in s'.versions && KnownVersion(s', v) && SnapshotOk(v, s'.versions[v], w.tree, s.fl) && Reads(s'.versions[v], View(s'))
  {
    hide WorkPages, WorkFreelist, WorkDisk, Balance, NewOrOld, VersionOk, FreelistOk, SlotsOk, Covered, Reads, Durable, NewContent, TreePages, View;
    if v == s.latest + 1 {
      NewSnapshot(s, w, root);
      NewOnDisk(s, w, root);
      DurableReads(NewVersion(s, w, root), s, View(s));
    } else {
      assert KnownVersion(s, v) && SnapshotOk(v, s.versions[v], s.versions[s.latest].tree, w.base);
      TracedAll(w, s.fl, s.versions[s.latest], s.latest + 1);
      forall x | x in s.versions[v].tree ensures Covered(x, v, w.tree, s.fl) {
        CommitCovered(s.versions[s.latest].tree, w, s.fl, s.latest, v, x);
      }
    }
  }

  lemma SettledIntro(s: DbState, fl: State)
    requires KnownVersion(s, s.latest) && SlotsOk(s) && FreelistOk(s, fl)
    requires forall v :: v in Watched(s) ==>
      v in s.versions && KnownVersion(s, v) && SnapshotOk(v, s.versions[v], s.versions[s.latest].tree, fl) && Reads(s.versions[v], View(s))
    requires forall v :: v in Kept(s) ==> v in s.versions && Durable(s.versions[v], s)
    ensures Settled(s, fl)
  {
  }

  lemma WriteMetaKeeps(s: DbState, root: nat)
    requires Inv(s) && Enabled(s, WriteMeta(root))
    ensures Inv(Apply(s, WriteMeta(root)))
  {
    hide WorkOk, Settled, VersionOk, FreelistOk, SlotsOk, Reads, Durable, SnapshotOk, NewContent, KnownVersion, Closed;
    var w, s' := s.writer.work, Apply(s, WriteMeta(root));
    NewVersionOk(s, w, root);
    CommitFacts(s, w);
    NewOnDisk(s, w, root);
    NewFreelistOk(s, s', w, root);
    NewSlotsOk(s, s', w, root);
    DurableFrame(NewVersion(s, w, root), s, s');
    DurableFrame(s.versions[s.latest], s, s');
    assert View(s') == View(s);
    CommitWatched(s, s', w, root, s'.latest);
    forall v | v in Watched(s')
      ensures v in s'.versions && KnownVersion(s', v) && SnapshotOk(v, s'.versions[v], w.tree, s.fl) && Reads(s'.versions[v], View(s'))
    {
      assert v == s.latest + 1 || v in Watched(s);
      CommitWatched(s, s', w, root, v);
    }
    SettledIntro(s', s.fl);
  }

  /** The parts of the invariant a commit needs by name. */
  lemma CommitFacts(s: DbState, w: Work)
    requires Settled(s, w.base) && WorkOk(s, w) && w.fl.Some? && s.writer.Working?
    ensures s.latest in s.versions && s.latest >= 1 && s.versions[s.latest].meta.txid == s.latest
    ensures WorkFreelist(w, s.fl, s.versions[s.latest], s.latest + 1) && WorkDisk(w, s) && w.ids == Tracked(s.fl)
    ensures SlotsOk(s) && Durable(s.versions[s.latest], s)
  {
    hide WorkFreelist, WorkPages, Balance, NewOrOld, FreelistOk, Reads, SnapshotOk, VersionOk, SlotsOk, Tracked, Durable;
    assert s.latest in Kept(s);
  }

  lemma DurableReads(version: Version, s: DbState, view: map<nat, PageVal>)
    requires Durable(version, s) && view == View(s) && VersionOk(version)
    ensures Reads(version, view)
  {
    hide Partition, Closed, TreePages;
  }

  lemma DurableFrame(version: Version, s: DbState, s': DbState)
    requires Durable(version, s) && s'.disk == s.disk && s'.dirty == s.dirty
    ensures Durable(version, s')
  {
  }

  lemma NewSnapshot(s: DbState, w: Work, root: nat)
    requires s.latest in s.versions && WorkFreelist(w, s.fl, s.versions[s.latest], s.latest + 1) && w.fl.Some?
    ensures SnapshotOk(s.latest + 1, NewVersion(s, w, root), w.tree, s.fl)
  {
  }

  // ---------- undoing ----------

  /** Undoing a transaction gives the old tree's extents the allocs entries they had. */
  lemma UndoAllocs(w: Work, fl: State, v: Version, txid: nat, x: Extent)
    requires WorkFreelist(w, fl, v, txid) && x in v.tree && x.len >= 1 && OneEntryPerPage(fl.pending)
    requires x in w.tree ==> PagesIn(x) !! PagesOf(FreedBy(fl, txid))
    ensures x.head in Rollback(fl, txid).allocs ==> x.head in w.base.allocs && Rollback(fl, txid).allocs[x.head] == w.base.allocs[x.head]
  {
    HeadIn(x);
    assert Traced(x, w, fl, txid);
    var restored := Restored(FreedBy(fl, txid), txid);
    if x.head in restored {
      var e :| e in FreedBy(fl, txid) && e.allocBy != 0 && e.allocBy != txid && e.page == x.head && restored[x.head] == e.allocBy;
      assert x.head in PagesOf(FreedBy(fl, txid));
      assert Entry(x.head, txid, BaseAlloc(w.base, x)) in fl.pending;
      assert e == Entry(x.head, txid, BaseAlloc(w.base, x));
    }
  }

  lemma UndoBounds(w: Work, fl: State, v: Version, txid: nat)
    requires WorkFreelist(w, fl, v, txid) && OneEntryPerPage(fl.pending)
    ensures Rollback(fl, txid).pending == w.base.pending
    ensures forall p :: p in Rollback(fl, txid).allocs ==> Rollback(fl, txid).allocs[p] <= txid
    ensures v.fl.head in Rollback(fl, txid).allocs ==> Rollback(fl, txid).allocs[v.fl.head] < txid
    ensures w.pages == map[] ==> Rollback(fl, txid).free == fl.free
  {
    var fl' := Rollback(fl, txid);
    assert fl.pending - FreedBy(fl, txid) == w.base.pending;
    if w.pages == map[] {
      assert (set e | e in FreedBy(fl, txid) && OwnPage(e, txid)) == {};
      assert PagesOf({}) == {};
      assert fl'.free == fl.free;
    }
  }

  /** A freelist with the old free and pending pages and the old extents' allocs entries settles the old version again. */
  lemma UndoSettled(s: DbState, w: Work, s': DbState)
    requires Settled(s, w.base) && WorkOk(s, w) && s.writer.Working? && s'.writer.Idle?
    requires s.latest in s.versions && OneEntryPerPage(s.fl.pending)
    requires s' == s.(fl := s'.fl, writer := Idle)
    requires s'.fl.free == w.base.free && s'.fl.pending == w.base.pending
    requires s'.fl.allocs == Rollback(s.fl, s.latest + 1).allocs
    ensures Settled(s', s'.fl)
  {
    hide WorkPages, WorkDisk, NewOrOld, FreelistOk, SlotsOk, KnownVersion, Covered, Reads, Durable, Rollback, Stock;
    UndoFreelistOk(s, w, s');
    SlotsFrame(s, s');
    SettledReads(s, w.base);
    forall u | u in Watched(s')
      ensures u in s'.versions && KnownVersion(s', u) && SnapshotOk(u, s'.versions[u], s.versions[s.latest].tree, s'.fl)
    {
      assert u in Watched(s) && u in s.versions;
      assert KnownVersion(s, u) && SnapshotOk(u, s.versions[u], s.versions[s.latest].tree, w.base);
      KnownFrame(s, s', u);
      forall x | x in s.versions[u].tree ensures Covered(x, u, s.versions[s.latest].tree, s'.fl) {
        UndoCovered(s, w, s', u, x);
      }
    }
    KnownFrame(s, s', s.latest);
    DurableFrame(s.versions[s.latest], s, s');
  }

  lemma SlotsFrame(s: DbState, s': DbState)
    requires SlotsOk(s) && s.writer.Working? && s'.writer.Idle?
    requires s'.slots == s.slots && s'.latest == s.latest && s'.versions == s.versions
    ensures SlotsOk(s')
  {
  }

  lemma KnownFrame(s: DbState, s': DbState, v: nat)
    requires KnownVersion(s, v) && s'.latest == s.latest && s'.versions == s.versions
    ensures v in s.versions && KnownVersion(s', v)
  {
  }

  lemma OldExtent(s: DbState, w: Work, x: Extent)
    requires Settled(s, w.base) && WorkOk(s, w) && s.latest in s.versions && x in s.versions[s.latest].tree
    ensures x.len >= 1 && (x in w.tree ==> PagesIn(x) !! PagesOf(FreedBy(s.fl, s.latest + 1)))
  {
    hide WorkPages, WorkDisk, NewOrOld, SlotsOk, Covered, SnapshotOk, Reads, Durable, WorkFreelist, TreePages, PagesOf, Run, Closed;
    LatestPartition(s, w.base);
    TreePagesDrop(s.versions[s.latest].tree, x);
    if x in w.tree {
      TreePagesDrop(w.tree, x);
    }
  }

  lemma UndoFreelistOk(s: DbState, w: Work, s': DbState)
    requires Settled(s, w.base) && WorkOk(s, w) && s.latest in s.versions && OneEntryPerPage(s.fl.pending)
    requires s'.latest == s.latest && s'.versions == s.versions
    requires s'.fl.free == w.base.free && s'.fl.pending == w.base.pending
    requires s'.fl.allocs == Rollback(s.fl, s.latest + 1).allocs
    ensures FreelistOk(s', s'.fl)
  {
    hide WorkPages, WorkDisk, NewOrOld, SlotsOk, KnownVersion, SnapshotOk, Reads, Durable, Rollback, WorkFreelist, Balance, Tracked;
    var v := s.versions[s.latest];
    UndoBounds(w, s.fl, v, s.latest + 1);
    SameTracked(s'.fl, w.base);
    forall x | x in v.tree && x.head in s'.fl.allocs ensures s'.fl.allocs[x.head] <= s.latest {
      OldExtent(s, w, x);
      UndoAllocs(w, s.fl, v, s.latest + 1, x);
    }
  }

  lemma SameTracked(a: State, b: State)
    requires a.free == b.free && a.pending == b.pending
    ensures Tracked(a) == Tracked(b) && (WellFormed(b) ==> WellFormed(a))
  {
  }

  lemma UndoCovered(s: DbState, w: Work, s': DbState, u: nat, x: Extent)
    requires Settled(s, w.base) && WorkOk(s, w) && s.latest in s.versions && OneEntryPerPage(s.fl.pending)
    requires s'.fl.pending == w.base.pending && s'.fl.allocs == Rollback(s.fl, s.latest + 1).allocs
    requires Covered(x, u, s.versions[s.latest].tree, w.base)
    ensures Covered(x, u, s.versions[s.latest].tree, s'.fl)
  {
    hide WorkPages, WorkDisk, NewOrOld, SlotsOk, KnownVersion, SnapshotOk, Reads, Durable, Rollback, WorkFreelist, Balance, FreelistOk;
    var tree := s.versions[s.latest].tree;
    if x in tree && (x.head in w.base.allocs ==> w.base.allocs[x.head] <= u) {
      OldExtent(s, w, x);
      UndoAllocs(w, s.fl, s.versions[s.latest], s.latest + 1, x);
    } else {
      PendingGrows(x, u, w.base, s'.fl);
    }
  }

  lemma UserRollbackKeeps(s: DbState)
    requires Inv(s) && Enabled(s, UserRollback)
    ensures Inv(Apply(s, UserRollback))
  {
    hide Settled, WorkFreelist, WorkDisk, Balance, NewOrOld, Rollback;
    var w, s' := s.writer.work, Apply(s, UserRollback);
    UndoBounds(w, s.fl, s.versions[s.latest], s.latest + 1);
    assert w.pages.Keys == {};
    assert w.base.free - s.fl.free == {};
    forall p | p in w.base.free ensures p in s.fl.free {
      assert p !in w.base.free - s.fl.free;
    }
    assert s.fl.free == w.base.free;
    UndoSettled(s, w, s');
  }

  lemma AbortCommitKeeps(s: DbState)
    requires Inv(s) && Enabled(s, AbortCommit)
    ensures Inv(Apply(s, AbortCommit))
  {
    hide Settled, WorkFreelist, WorkDisk, WorkPages, Balance, NewOrOld, Rollback, PagesOf;
    var w, s' := s.writer.work, Apply(s, AbortCommit);
    UndoBounds(w, s.fl, s.versions[s.latest], s.latest + 1);
    LatestPartition(s, w.base);
    assert s'.fl.free == w.base.free;
    UndoSettled(s, w, s');
  }

  // ---------- crashing ----------

  /** After a crash the chosen version's pages are on disk as written, and its freelist page gives back its ids. */
  lemma CrashKeeps(s: DbState, disk: map<nat, PageVal>, seen: seq<Slot>)
    requires Inv(s) && Enabled(s, Crash(disk, seen))
    ensures Inv(Apply(s, Crash(disk, seen)))
    ensures Apply(s, Crash(disk, seen)).latest in Kept(s)
  {
    hide WorkOk, SlotsOk, VersionOk, SnapshotOk, Reads, TreePages, Closed, Durable, SelectMeta, FreelistOk;
    var fl0 := if s.writer.Working? then s.writer.work.base else s.fl;
    SelectKept(s, fl0, seen);
    var s', t := Apply(s, Crash(disk, seen)), SelectMeta(seen).value.txid;
    var v := s.versions[t];
    assert KnownVersion(s, t);
    SettledReads(s, fl0);
    SurvivesCrash(s, v, disk);
    FreelistSurvives(v, disk);
    CrashFreelistOk(s', v);
    DurableAfter(v, s');
    CrashSlots(s', v);
    forall x | x in v.tree ensures Covered(x, t, v.tree, s'.fl) {
    }
    assert SnapshotOk(t, v, v.tree, s'.fl) by { CrashSnapshot(s', v); }
    assert Reads(v, View(s')) by { DurableReads(v, s', View(s')); }
    assert Watched(s') == {t};
    SettledIntro(s', s'.fl);
  }

  lemma CrashSnapshot(s: DbState, v: Version)
    requires s.fl.allocs == map[]
    ensures SnapshotOk(s.latest, v, v.tree, s.fl)
  {
  }

  /** A crash loses or garbles unsynced writes only, so a durable version survives it. */
  lemma SurvivesCrash(s: DbState, v: Version, disk: map<nat, PageVal>)
    requires Durable(v, s) && forall p :: p in s.disk && p !in s.dirty ==> p in disk && disk[p] == s.disk[p]
    ensures forall p :: p in v.content ==> p in disk && disk[p] == v.content[p]
  {
  }

  lemma FreelistSurvives(v: Version, disk: map<nat, PageVal>)
    requires VersionOk(v) && forall p :: p in v.content ==> p in disk && disk[p] == v.content[p]
    ensures v.meta.freelist in disk && disk[v.meta.freelist] == FreelistIds(v.ids)
  {
    HeadIn(v.fl);
  }

  lemma CrashFreelistOk(s: DbState, v: Version)
    requires VersionOk(v) && s.latest in s.versions && s.versions[s.latest] == v && s.fl == State(v.ids, {}, map[])
    ensures FreelistOk(s, s.fl)
  {
    hide TreePages, Separate, Closed;
    assert PagesOf({}) == {};
    UptoMono(v.meta.hwm, v.meta.hwm);
    assert forall p :: p in v.ids ==> p in Upto(v.meta.hwm);
  }

  lemma DurableAfter(v: Version, s: DbState)
    requires s.dirty == map[] && forall p :: p in v.content ==> p in s.disk && s.disk[p] == v.content[p]
    ensures Durable(v, s)
  {
  }

  lemma CrashSlots(s: DbState, v: Version)
    requires s.writer.Idle? && |s.slots| == 2 && s.latest in s.versions && s.versions[s.latest] == v
    requires s.slots[s.latest % 2] == Slot(v.meta, true)
    requires s.slots[(s.latest + 1) % 2].valid ==> s.slots[(s.latest + 1) % 2].meta.txid + 1 == s.latest
    ensures SlotsOk(s)
  {
  }
}
