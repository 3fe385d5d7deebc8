/** What the transaction protocol guarantees over every run, crashes included. */
module ProtocolSafety {
  import opened Pgids
  import opened FreelistSpec
  import opened Protocol
  import opened ProtocolSteps
  import opened ProtocolCommit

  /** A freshly initialised file: metas 0 and 1, an empty freelist in page 2, an empty root leaf in page 3. */
  ghost function Init(): DbState {
    var content := map[2 := FreelistIds({}), 3 := TreePage({}, 0)];
    var m0, m1 := Meta(0, 3, 2, 4), Meta(1, 3, 2, 4);
    var v := Version(m1, {Extent(3, 1)}, Extent(2, 1), {}, content);
    DbState(content, map[], [Slot(m0, true), Slot(m1, true)], map[1 := v], 1, map[], State({}, {}, map[]), Idle)
  }

  lemma InitOk()
    ensures Inv(Init())
  {
    var s := Init();
    var v := s.versions[1];
    InitVersion(v);
    assert Watched(s) == {1} && Kept(s) == {1};
    assert SnapshotOk(1, v, v.tree, s.fl);
    CrashFreelistOk(s, v);
    assert Durable(v, s);
    DurableReads(v, s, View(s));
    SettledIntro(s, s.fl);
  }

  lemma InitVersion(v: Version)
    requires v == Version(Meta(1, 3, 2, 4), {Extent(3, 1)}, Extent(2, 1), {}, map[2 := FreelistIds({}), 3 := TreePage({}, 0)])
    ensures VersionOk(v)
  {
    assert Run(3, 1) == {3} && Run(2, 1) == {2} && Run(2, 2) == {2, 3};
    TreePagesAdd({}, Extent(3, 1));
    assert TreePages({}) == {};
    assert {} + {Extent(3, 1)} == v.tree;
    assert HasHead(v.tree, 3);
  }

  /** Every step of the protocol keeps the invariant. */
  lemma StepKeeps(s: DbState, a: Action)
    requires Inv(s) && Enabled(s, a)
    ensures Inv(Apply(s, a))
  {
    hide Inv, Enabled, Apply;
    match a
    case BeginRead(r, seen) => BeginReadKeeps(s, r, seen);
    case CloseRead(r) => CloseReadKeeps(s, r);
    case BeginWrite => BeginWriteKeeps(s);
    case AllocTree(head, len, content) => AllocTreeKeeps(s, head, len, content);
    case FreeTree(x) => FreeTreeKeeps(s, x);
    case CommitFreelist(head, len, content) => CommitFreelistKeeps(s, head, len, content);
    case WriteData => WriteDataKeeps(s);
    case SyncData => SyncDataKeeps(s);
    case WriteMeta(root) => WriteMetaKeeps(s, root);
    case SyncMeta => SyncMetaKeeps(s);
    case UserRollback => UserRollbackKeeps(s);
    case AbortCommit => AbortCommitKeeps(s);
    case Crash(disk, seen) => CrashKeeps(s, disk, seen);
  }

  /** A run: states linked by enabled actions. */
  ghost predicate IsRun(states: seq<DbState>, actions: seq<Action>) {
    && |states| == |actions| + 1
    && states[0] == Init()
    && (forall i {:trigger actions[i]} :: 0 <= i < |actions| ==>
          Enabled(states[i], actions[i]) && states[i + 1] == Apply(states[i], actions[i]))
  }

  lemma {:induction false} RunInv(states: seq<DbState>, actions: seq<Action>, i: nat)
    requires IsRun(states, actions) && i < |states|
    ensures Inv(states[i])
  {
    hide Inv, Init;
    if i == 0 {
      InitOk();
    } else {
      RunInv(states, actions, i - 1);
      assert Enabled(states[i - 1], actions[i - 1]);
      StepKeeps(states[i - 1], actions[i - 1]);
    }
  }

  /**
   * Isolation: over every run, no page of an open reader's tree is free, is among the pages the writer may
   * still take, or is one the writer has allocated and will write.
   */
  lemma ReaderPagesUntouched(states: seq<DbState>, actions: seq<Action>, i: nat, r: nat)
    requires IsRun(states, actions) && i < |states| && r in states[i].readers
    ensures var s := states[i];
      && s.readers[r] in s.versions
      && TreePages(s.versions[s.readers[r]].tree) !! s.fl.free
      && (s.writer.Working? ==> TreePages(s.versions[s.readers[r]].tree) !! s.writer.work.pages.Keys)
  {
    RunInv(states, actions, i);
    var s := states[i];
    assert s.readers[r] in Readers(s);
    assert s.readers[r] in Watched(s);
    if s.writer.Working? {
      SnapshotUntouched(s, s.writer.work, s.readers[r]);
      WorkFree(s, s.writer.work);
    } else {
      IdleUntouched(s, s.readers[r]);
    }
  }

  lemma WorkFree(s: DbState, w: Work)
    requires s.latest in s.versions && WorkOk(s, w)
    ensures s.fl.free <= w.base.free
  {
  }

  lemma IdleUntouched(s: DbState, v: nat)
    requires Settled(s, s.fl) && v in Watched(s)
    ensures v in s.versions && TreePages(s.versions[v].tree) !! s.fl.free
  {
    LatestPartition(s, s.fl);
    hide FreelistOk, SlotsOk, Reads, Durable, Run, Closed, WellFormed;
    assert KnownVersion(s, v);
    assert SnapshotOk(v, s.versions[v], s.versions[s.latest].tree, s.fl);
    forall p | p in TreePages(s.versions[v].tree) ensures p !in s.fl.free {
      var x :| x in s.versions[v].tree && p in PagesIn(x);
      assert Covered(x, v, s.versions[s.latest].tree, s.fl);
      CoveredPage(x, v, s.versions[s.latest].tree, s.fl, p);
    }
  }

  /** A reader that stays open over a step keeps its version, and the version's description does not change. */
  lemma StepKeepsVersion(s: DbState, a: Action, r: nat)
    requires Inv(s) && Enabled(s, a) && r in s.readers && r in Apply(s, a).readers
    ensures Apply(s, a).readers[r] == s.readers[r] && s.readers[r] in s.versions
    ensures s.readers[r] in Apply(s, a).versions && Apply(s, a).versions[s.readers[r]] == s.versions[s.readers[r]]
  {
    hide WorkOk, FreelistOk, SlotsOk, SnapshotOk, Reads, Durable, VersionOk, SelectMeta, SlotsSeen;
    assert s.readers[r] in Watched(s);
    assert KnownVersion(s, s.readers[r]);
  }

  /**
   * Snapshot reads: while a reader stays open, every page of its tree reads exactly as when it began,
   * whatever the writer commits, rolls back or aborts in between.
   */
  lemma {:induction false} SnapshotStable(states: seq<DbState>, actions: seq<Action>, i: nat, j: nat, r: nat)
    requires IsRun(states, actions) && i <= j < |states|
    requires forall k :: i <= k <= j ==> r in states[k].readers
    ensures states[j].readers[r] == states[i].readers[r]
    ensures states[i].readers[r] in states[i].versions && states[i].readers[r] in states[j].versions
    ensures states[j].versions[states[i].readers[r]] == states[i].versions[states[i].readers[r]]
    ensures forall p :: p in TreePages(states[i].versions[states[i].readers[r]].tree) ==>
      p in View(states[i]) && p in View(states[j]) && View(states[j])[p] == View(states[i])[p]
    decreases j
  {
    hide IsRun, Enabled, Apply, Inv, View, TreePages;
    RunInv(states, actions, i);
    RunInv(states, actions, j);
    ReaderReads(states[i], r);
    ReaderReads(states[j], r);
    if i < j {
      SnapshotStable(states, actions, i, j - 1, r);
      RunInv(states, actions, j - 1);
      RunStep(states, actions, j - 1);
      StepKeepsVersion(states[j - 1], actions[j - 1], r);
    }
  }

  lemma RunStep(states: seq<DbState>, actions: seq<Action>, i: nat)
    requires IsRun(states, actions) && i + 1 < |states|
    ensures i < |actions| && Enabled(states[i], actions[i]) && states[i + 1] == Apply(states[i], actions[i])
  {
    assert Enabled(states[i], actions[i]);
  }

  lemma ReaderReads(s: DbState, r: nat)
    requires Inv(s) && r in s.readers
    ensures s.readers[r] in s.versions && VersionOk(s.versions[s.readers[r]])
    ensures forall p :: p in TreePages(s.versions[s.readers[r]].tree) ==>
      p in s.versions[s.readers[r]].content && p in View(s) && View(s)[p] == s.versions[s.readers[r]].content[p]
  {
    hide WorkOk, FreelistOk, SlotsOk, SnapshotOk, Durable, VersionOk;
    assert s.readers[r] in Watched(s);
    assert KnownVersion(s, s.readers[r]);
  }

  // ---------- crashes ----------

  /** A path of child pointers through the pages on a disk. */
  ghost predicate IsPath(disk: map<nat, PageVal>, path: seq<nat>) {
    && |path| > 0
    && (forall i :: 0 <= i < |path| - 1 ==>
          path[i] in disk && disk[path[i]].TreePage? && path[i + 1] in disk[path[i]].children)
  }

  /** Following child pointers from the root never leaves the pages of the version. */
  lemma {:induction false} PathInTree(v: Version, disk: map<nat, PageVal>, path: seq<nat>)
    requires VersionOk(v) && forall p :: p in v.content ==> p in disk && disk[p] == v.content[p]
    requires IsPath(disk, path) && path[0] == v.meta.root
    ensures HasHead(v.tree, path[|path| - 1])
    ensures path[|path| - 1] in v.content && disk[path[|path| - 1]] == v.content[path[|path| - 1]]
    decreases |path|
  {
    hide TreePages, Partition;
    if |path| > 1 {
      var shorter := path[..|path| - 1];
      PathInTree(v, disk, shorter);
      var last := path[|path| - 2];
      assert last == shorter[|shorter| - 1];
      assert path[|path| - 1] in disk[last].children;
    }
  }

  /**
   * Recovery: whatever subset of the unsynced writes is lost or garbled, and whether or not the meta being
   * written is torn, a valid meta is selected. It is the last committed one or, only while the new meta is being
   * synced, the previous one, and all pages of its version are on disk as they were committed.
   */
  lemma Recovery(s: DbState, disk: map<nat, PageVal>, seen: seq<Slot>)
    requires Inv(s) && SlotsSeen(s, seen)
    requires forall p :: p in s.disk && p !in s.dirty ==> p in disk && disk[p] == s.disk[p]
    ensures SelectMeta(seen).Some?
    ensures var m := SelectMeta(seen).value;
      && (m.txid == s.latest || (s.writer.SyncingMeta? && m.txid + 1 == s.latest))
      && m.txid in s.versions && m == s.versions[m.txid].meta && VersionOk(s.versions[m.txid])
      && (forall p :: p in s.versions[m.txid].content ==> p in disk && disk[p] == s.versions[m.txid].content[p])
      && m.freelist in disk && disk[m.freelist] == FreelistIds(s.versions[m.txid].ids)
  {
    hide Inv, SelectMeta, VersionOk, Durable, Settled, View, Watched, Reads;
    var fl0 := if s.writer.Working? then s.writer.work.base else s.fl;
    SettledOf(s, fl0);
    SelectKept(s, fl0, seen);
    SettledReads(s, fl0);
    var v := s.versions[SelectMeta(seen).value.txid];
    SurvivesCrash(s, v, disk);
    KeptKnown(s, fl0, SelectMeta(seen).value.txid);
    FreelistSurvives(v, disk);
  }

  /**
   * Crash atomicity: over every run, a crash leaves exactly the last committed version or, only while a new meta
   * is being synced, the previous one, and every page reachable on the disk from the chosen root is a page of that
   * version with the contents it was committed with; so is its freelist page.
   */
  lemma CrashAtomic(states: seq<DbState>, actions: seq<Action>, disk: map<nat, PageVal>, seen: seq<Slot>)
    requires IsRun(states, actions)
    requires var s := states[|states| - 1];
      SlotsSeen(s, seen) && forall p :: p in s.disk && p !in s.dirty ==> p in disk && disk[p] == s.disk[p]
    ensures var s := states[|states| - 1];
      && SelectMeta(seen).Some?
      && var m := SelectMeta(seen).value;
      && (m.txid == s.latest || (s.writer.SyncingMeta? && m.txid + 1 == s.latest))
      && m.txid in s.versions && m == s.versions[m.txid].meta
      && (forall p :: p in s.versions[m.txid].content ==> p in disk && disk[p] == s.versions[m.txid].content[p])
      && (m.freelist in disk && disk[m.freelist] == FreelistIds(s.versions[m.txid].ids))
      && (forall path :: IsPath(disk, path) && path[0] == m.root ==>
            path[|path| - 1] in s.versions[m.txid].content)
  {
    hide Inv, Enabled, Apply, SelectMeta, VersionOk;
    var s := states[|states| - 1];
    RunInv(states, actions, |states| - 1);
    Recovery(s, disk, seen);
    var v := s.versions[SelectMeta(seen).value.txid];
    forall path | IsPath(disk, path) && path[0] == v.meta.root ensures path[|path| - 1] in v.content {
      PathInTree(v, disk, path);
    }
  }

  lemma SettledOf(s: DbState, fl0: State)
    requires Inv(s) && fl0 == if s.writer.Working? then s.writer.work.base else s.fl
    ensures Settled(s, fl0)
  {
  }

  lemma KeptKnown(s: DbState, fl0: State, v: nat)
    requires Settled(s, fl0) && v in Kept(s)
    ensures v in s.versions && VersionOk(s.versions[v])
  {
    hide FreelistOk, SlotsOk, SnapshotOk, Reads, Durable, VersionOk;
    assert KnownVersion(s, v);
  }

  /** Such a crash step is always possible, and the run goes on from it: recovery never finds both metas invalid. */
  lemma CrashEnabled(s: DbState, disk: map<nat, PageVal>, seen: seq<Slot>)
    requires Inv(s) && SlotsSeen(s, seen)
    requires forall p :: p in s.disk && p !in s.dirty ==> p in disk && disk[p] == s.disk[p]
    ensures Enabled(s, Crash(disk, seen))
  {
    hide Inv, SelectMeta, SlotsSeen, VersionOk;
    Recovery(s, disk, seen);
    InvLatest(s);
  }

  lemma InvLatest(s: DbState)
    requires Inv(s)
    ensures |s.slots| == 2 && s.latest in s.versions
  {
  }

  /** Between write transactions, tree, freelist pages, free and pending pages partition the file: no page is lost or used twice. */
  lemma NoPageLost(states: seq<DbState>, actions: seq<Action>, i: nat)
    requires IsRun(states, actions) && i < |states| && !states[i].writer.Working?
    ensures var s := states[i];
      && s.latest in s.versions
      && var v := s.versions[s.latest];
      && s.fl.free !! PagesOf(s.fl.pending)
      && (TreePages(v.tree) + PagesIn(v.fl)) !! Tracked(s.fl)
      && TreePages(v.tree) !! PagesIn(v.fl)
      && TreePages(v.tree) + PagesIn(v.fl) + s.fl.free + PagesOf(s.fl.pending) == Upto(v.meta.hwm)
  {
    RunInv(states, actions, i);
    var s := states[i];
    hide FreelistOk, SlotsOk, SnapshotOk, Reads, Durable, TreePages, PagesOf, Run, Upto, IsRun, Inv;
    assert Settled(s, s.fl) by { SettledOf(s, s.fl); }
    LatestPartition(s, s.fl);
  }

  /** An aborted commit gives back exactly the free and pending pages the transaction began with. */
  lemma AbortRestores(s: DbState)
    requires Inv(s) && Enabled(s, AbortCommit)
    ensures Apply(s, AbortCommit).fl.free == s.writer.work.base.free
    ensures Apply(s, AbortCommit).fl.pending == s.writer.work.base.pending
  {
    hide Settled, WorkFreelist, WorkDisk, WorkPages, Balance, NewOrOld, Rollback, PagesOf;
    var w := s.writer.work;
    UndoBounds(w, s.fl, s.versions[s.latest], s.latest + 1);
    LatestPartition(s, w.base);
  }

  /** Meta slots: the one of the current version is valid, and the other, unless torn, holds the version just before it. */
  lemma SlotsConsecutive(states: seq<DbState>, actions: seq<Action>, i: nat)
    requires IsRun(states, actions) && i < |states| && !states[i].writer.SyncingMeta?
    ensures var s := states[i];
      && |s.slots| == 2
      && s.slots[s.latest % 2].valid && s.slots[s.latest % 2].meta.txid == s.latest
      && (s.slots[(s.latest + 1) % 2].valid ==> s.slots[(s.latest + 1) % 2].meta.txid + 1 == s.latest)
  {
    hide IsRun, Inv, Settled;
    RunInv(states, actions, i);
    var s := states[i];
    var fl0 := if s.writer.Working? then s.writer.work.base else s.fl;
    SettledOf(s, fl0);
    SettledSlots(s, fl0);
  }

  lemma SettledSlots(s: DbState, fl0: State)
    requires Settled(s, fl0)
    ensures SlotsOk(s) && KnownVersion(s, s.latest)
  {
  }
}
