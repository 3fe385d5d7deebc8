/** The remaining steps of the protocol keep its invariant: reading, beginning, writing out, committing, undoing, crashing. */
module ProtocolSteps {
  import opened Options
  import opened Pgids
  import opened FreelistSpec
  import opened Protocol

  // ---------- meta selection ----------

  /** Whatever is seen of the slots, db.meta() picks a version whose pages are intact. */
  lemma SelectKept(s: DbState, fl: State, seen: seq<Slot>)
    requires Settled(s, fl) && SlotsSeen(s, seen)
    ensures SelectMeta(seen).Some?
    ensures exists v :: v in Kept(s) && v in s.versions && SelectMeta(seen).value == s.versions[v].meta
    ensures SelectMeta(seen).value.txid in Kept(s) && SelectMeta(seen).value.txid in s.versions
    ensures SelectMeta(seen).value == s.versions[SelectMeta(seen).value.txid].meta
    ensures var v := SelectMeta(seen).value.txid;
      && seen[v % 2] == Slot(s.versions[v].meta, true)
      && (seen[(v + 1) % 2].valid ==> seen[(v + 1) % 2].meta.txid + 1 == v)
  {
    hide FreelistOk, SnapshotOk, Reads, Durable, VersionOk;
    assert KnownVersion(s, s.latest);
    assert s.latest in Kept(s);
    if s.writer.SyncingMeta? {
      assert s.latest - 1 in Kept(s);
      assert KnownVersion(s, s.latest - 1);
    }
  }

  // ---------- readers ----------

  lemma FewerWatched(s: DbState, s': DbState, fl: State)
    requires Settled(s, fl) && s' == s.(readers := s'.readers) && Watched(s') <= Watched(s)
    ensures Settled(s', fl)
  {
    hide FreelistOk, SnapshotOk, Reads, VersionOk, Covered;
    FreelistFrame(s, s', fl);
    assert View(s') == View(s);
  }

  lemma ReadersKeep(s: DbState, s': DbState)
    requires Inv(s) && s' == s.(readers := s'.readers) && Watched(s') <= Watched(s)
    ensures Inv(s')
  {
    hide Settled, WorkPages, WorkFreelist, Balance, NewOrOld, Watched;
    FewerWatched(s, s', if s.writer.Working? then s.writer.work.base else s.fl);
  }

  lemma BeginReadKeeps(s: DbState, r: nat, seen: seq<Slot>)
    requires Inv(s) && Enabled(s, BeginRead(r, seen))
    ensures Inv(Apply(s, BeginRead(r, seen)))
  {
    hide Settled, WorkOk, SelectMeta;
    var s' := Apply(s, BeginRead(r, seen));
    SelectKept(s, if s.writer.Working? then s.writer.work.base else s.fl, seen);
    assert Readers(s') <= Readers(s) + {SelectMeta(seen).value.txid};
    ReadersKeep(s, s');
  }

  lemma CloseReadKeeps(s: DbState, r: nat)
    requires Inv(s) && Enabled(s, CloseRead(r))
    ensures Inv(Apply(s, CloseRead(r)))
  {
    hide Settled, WorkOk;
    var s' := Apply(s, CloseRead(r));
    forall v | v in Readers(s') ensures v in Readers(s) {
      var q :| q in s'.readers && s'.readers[q] == v;
      assert q in s.readers && s.readers[q] == v;
    }
    ReadersKeep(s, s');
  }

  // ---------- beginning a write transaction ----------

  /** Releasing unpinned pages keeps the cover of every open reader. */
  lemma ReleaseCovered(x: Extent, v: nat, tree: set<Extent>, fl: State, readers: set<nat>)
    requires Covered(x, v, tree, fl) && (v in readers || x in tree)
    requires x in tree && x.head in fl.allocs && v !in readers ==> fl.allocs[x.head] <= v
    ensures Covered(x, v, tree, ReleaseUnpinned(fl, readers))
  {
    var fl' := ReleaseUnpinned(fl, readers);
    if x in tree && (x.head in fl.allocs ==> fl.allocs[x.head] <= v) {
    } else {
      forall p | p in PagesIn(x) ensures PendingFor(p, v, fl') {
        assert PendingFor(p, v, fl);
        var e :| e in fl.pending && e.page == p && e.allocBy <= v < e.freedBy;
        assert Pinned(e, readers);
        assert e in fl'.pending;
      }
    }
  }

  lemma ReleaseFreelistOk(s: DbState, fl: State, readers: set<nat>)
    requires s.latest in s.versions && FreelistOk(s, fl)
    ensures FreelistOk(s, ReleaseUnpinned(fl, readers))
  {
    MoveConserves(fl, set e | e in fl.pending && !Pinned(e, readers));
    hide WellFormed, Tracked;
  }

  lemma BeginWriteKeeps(s: DbState)
    requires Inv(s) && Enabled(s, BeginWrite)
    ensures Inv(Apply(s, BeginWrite))
  {
    hide FreelistOk, VersionOk, Covered, Reads, ReleaseUnpinned, WorkPages, WorkFreelist, Balance, NewOrOld;
    var s' := Apply(s, BeginWrite);
    var fl', v := s'.fl, s.versions[s.latest];
    ReleaseFreelistOk(s, s.fl, Readers(s));
    FreelistFrame(s, s', fl');
    LatestHeads(s, s.fl);
    forall u, x | u in Watched(s') && x in s.versions[u].tree ensures Covered(x, u, v.tree, fl') {
      assert SnapshotOk(u, s.versions[u], v.tree, s.fl);
      ReleaseCovered(x, u, v.tree, s.fl, Readers(s));
    }
    assert Settled(s', fl');
    FreshWork(s', s'.writer.work);
  }

  lemma FreelistFrame(s: DbState, s': DbState, fl: State)
    requires s.latest in s.versions && s'.latest == s.latest && s'.versions == s.versions && FreelistOk(s, fl)
    ensures FreelistOk(s', fl)
  {
  }

  lemma LatestHeads(s: DbState, fl: State)
    requires s.latest in s.versions && FreelistOk(s, fl)
    ensures forall x :: x in s.versions[s.latest].tree && x.head in fl.allocs ==> fl.allocs[x.head] <= s.latest
  {
  }

  lemma FreshWork(s: DbState, w: Work)
    requires Settled(s, s.fl)
    requires w == Work(Building, s.versions[s.latest].tree, map[], None, {}, s.versions[s.latest].meta.hwm, s.fl)
    ensures WorkOk(s, w)
  {
    hide Covered, SnapshotOk, Reads, Durable, SlotsOk, TreePages, Run, Closed;
    LatestPartition(s, s.fl);
    var v := s.versions[s.latest];
    assert FreedBy(s.fl, s.latest + 1) == {};
    assert PagesOf({}) == {};
    assert Upto(w.hwm) - Upto(v.meta.hwm) == {};
    forall x | x in v.tree ensures Traced(x, w, s.fl, s.latest + 1) {
    }
  }

  // ---------- writing out ----------

  /**
   * The pages a writer has allocated belong to no version that anybody may still read: not to an open
   * reader's snapshot, and not to the current version, freelist included.
   */
  lemma SnapshotUntouched(s: DbState, w: Work, v: nat)
    requires Settled(s, w.base) && WorkOk(s, w) && v in Watched(s)
    ensures v in s.versions && TreePages(s.versions[v].tree) !! w.pages.Keys
    ensures v in s.versions && TreePages(s.versions[v].tree) !! w.base.free
  {
    NewPagesApart(s, w);
    LatestPartition(s, w.base);
    hide WorkOk, FreelistOk, SlotsOk, Reads, Durable, Run, Closed, WellFormed;
    assert KnownVersion(s, v);
    assert SnapshotOk(v, s.versions[v], s.versions[s.latest].tree, w.base);
    forall p | p in TreePages(s.versions[v].tree) ensures p !in w.pages.Keys && p !in w.base.free {
      var x :| x in s.versions[v].tree && p in PagesIn(x);
      assert Covered(x, v, s.versions[s.latest].tree, w.base);
      CoveredPage(x, v, s.versions[s.latest].tree, w.base, p);
    }
  }

  lemma CoveredPage(x: Extent, v: nat, tree: set<Extent>, fl: State, p: nat)
    requires Covered(x, v, tree, fl) && p in PagesIn(x)
    ensures p in TreePages(tree) || p in PagesOf(fl.pending)
  {
    if !(x in tree) {
      assert PendingFor(p, v, fl);
    }
  }

  /** Moving on to the next phase changes nothing that the bookkeeping looks at. */
  lemma PhaseOnly(s: DbState, s': DbState, w: Work, w': Work)
    requires s.latest in s.versions && WorkOk(s, w) && w' == w.(phase := w'.phase)
    requires s'.latest == s.latest && s'.versions == s.versions && s'.fl == s.fl && WorkDisk(w', s')
    ensures WorkOk(s', w')
  {
    hide Balance, NewOrOld, WorkDisk, FreedBy, PagesOf, TreePages, Run, WellFormed;
    forall x | x in s.versions[s.latest].tree ensures Traced(x, w', s.fl, s.latest + 1) {
      assert Traced(x, w, s.fl, s.latest + 1);
    }
  }

  /** Changing only the disk keeps everything settled as long as the versions still read as written. */
  lemma DiskChange(s: DbState, s': DbState, fl: State)
    requires Settled(s, fl) && s.writer.Working? && s'.writer.Working?
    requires s'.slots == s.slots && s'.versions == s.versions && s'.latest == s.latest && s'.readers == s.readers
    requires forall v :: v in Watched(s) && v in s.versions ==> Reads(s.versions[v], View(s'))
    requires s.latest in s.versions && Durable(s.versions[s.latest], s')
    ensures Settled(s', fl)
  {
    hide FreelistOk, VersionOk, SnapshotOk, Reads, Durable;
    FreelistFrame(s, s', fl);
  }

  lemma SettledReads(s: DbState, fl: State)
    requires Settled(s, fl)
    ensures s.latest in s.versions && KnownVersion(s, s.latest)
    ensures forall v :: v in Watched(s) ==> v in s.versions && Reads(s.versions[v], View(s))
    ensures forall v :: v in Kept(s) ==> v in s.versions && Durable(s.versions[v], s)
    ensures s.latest in Kept(s)
  {
    hide FreelistOk, VersionOk, SnapshotOk, Reads, Durable, View, Readers;
  }

  lemma WriteDataKeeps(s: DbState)
    requires Inv(s) && Enabled(s, WriteData)
    ensures Inv(Apply(s, WriteData))
  {
    hide Settled, FreelistOk, VersionOk, WorkPages, WorkFreelist, Balance, NewOrOld, TreePages, PagesOf, Tracked, Watched;
    var s', w := Apply(s, WriteData), s.writer.work;
    SettledReads(s, w.base);
    NewPagesApart(s, w);
    LatestContent(s);
    forall v | v in Watched(s) && v in s.versions ensures Reads(s.versions[v], View(s')) {
      SnapshotUntouched(s, w, v);
    }
    assert Durable(s.versions[s.latest], s');
    DiskChange(s, s', w.base);
    PhaseOnly(s, s', w, s'.writer.work);
  }

  lemma LatestContent(s: DbState)
    requires KnownVersion(s, s.latest)
    ensures s.versions[s.latest].content.Keys == TreePages(s.versions[s.latest].tree) + PagesIn(s.versions[s.latest].fl)
  {
  }

  lemma SyncDataKeeps(s: DbState)
    requires Inv(s) && Enabled(s, SyncData)
    ensures Inv(Apply(s, SyncData))
  {
    hide Settled, FreelistOk, VersionOk, WorkPages, WorkFreelist, Balance, NewOrOld, TreePages, PagesOf, Tracked, Watched, Reads;
    var s', w := Apply(s, SyncData), s.writer.work;
    SettledReads(s, w.base);
    assert View(s') == View(s);
    DiskChange(s, s', w.base);
    PhaseOnly(s, s', w, s'.writer.work);
  }

  lemma SyncMetaKeeps(s: DbState)
    requires Inv(s) && Enabled(s, SyncMeta)
    ensures Inv(Apply(s, SyncMeta))
  {
    hide FreelistOk, VersionOk, Covered, SnapshotOk, Reads, TreePages;
    var s' := Apply(s, SyncMeta);
    FreelistFrame(s, s', s.fl);
    assert KnownVersion(s, s.latest) && KnownVersion(s, s.latest - 1);
    assert Settled(s', s.fl);
  }
}
