/** When the pages of an old freelist can be used again: the transactions that had them, over every run of the protocol. */
module ProtocolRelease {
  import opened Pgids
  import opened FreelistSpec
  import opened Protocol
  import opened ProtocolSafety

  // ---------- what is on record ----------

  /** The pending pages that belonged to a version's freelist, freed by the next transaction, were allocated by the version's own. */
  ghost predicate Stamps(versions: map<nat, Version>, latest: nat, pending: set<Entry>) {
    forall v, e :: v in versions && v <= latest && e in pending && e.freedBy == v + 1 && e.page in PagesIn(versions[v].fl)
      ==> e.allocBy == v
  }

  /** All pages of a freelist are pending, freed by the transaction after v, which had allocated them. */
  ghost predicate Freed(pending: set<Entry>, fl: Extent, v: nat) {
    forall p :: p in PagesIn(fl) ==> Entry(p, v + 1, v) in pending
  }

  /** If a page starts an extent on record, the record names this transaction. */
  ghost predicate By(fl: State, head: nat, txid: nat) {
    head in fl.allocs ==> fl.allocs[head] == txid
  }

  ghost predicate AllocsBelow(fl: State, hwm: nat) {
    forall p :: p in fl.allocs ==> p < hwm
  }

  /** The pages a transaction has freed lie below the mark, if another transaction is on record for them. */
  ghost predicate FreedBelow(fl: State, txid: nat, hwm: nat) {
    forall e :: e in fl.pending && e.freedBy == txid && e.allocBy != 0 && e.allocBy != txid ==> e.page < hwm
  }

  ghost predicate TreeBy(fl: State, tree: set<Extent>, old_: set<Extent>, txid: nat) {
    forall x :: x in tree && x !in old_ ==> By(fl, x.head, txid)
  }

  /** What a write transaction has allocated and freed so far is on record as it should be. */
  ghost predicate WorkDated(w: Work, v: Version, fl: State, txid: nat) {
    && FreedBelow(fl, txid, v.meta.hwm) && TreeBy(fl, w.tree, v.tree, txid) && txid >= 1
    && if w.fl.Some? then v.fl.head !in fl.allocs && By(fl, w.fl.value.head, txid) && Freed(fl.pending, v.fl, txid - 1)
       else By(fl, v.fl.head, txid - 1)
  }

  /** Pages on record lie below the high-water mark, and those of the freelist are recorded for its own transaction. */
  ghost predicate Dated(s: DbState) {
    && s.latest in s.versions && Stamps(s.versions, s.latest, s.fl.pending)
    && AllocsBelow(s.fl, s.versions[s.latest].meta.hwm)
    && match s.writer
       case Working(w) => WorkDated(w, s.versions[s.latest], s.fl, s.latest + 1)
       case SyncingMeta(_) =>
         By(s.fl, s.versions[s.latest].fl.head, s.latest)
         && s.latest >= 1 && s.latest - 1 in s.versions && Freed(s.fl.pending, s.versions[s.latest - 1].fl, s.latest - 1)
       case Idle => By(s.fl, s.versions[s.latest].fl.head, s.latest)
  }

  // ---------- what the protocol's invariant provides ----------

  lemma Bounds(s: DbState, w: Work)
    requires Settled(s, w.base) && WorkOk(s, w)
    ensures s.latest in s.versions
    ensures var v := s.versions[s.latest];
      && v.meta.hwm <= w.hwm
      && (forall p :: p in TreePages(v.tree) ==> p < v.meta.hwm)
      && (forall p :: p in PagesIn(v.fl) ==> p < v.meta.hwm)
      && (forall p :: p in s.fl.free ==> p < v.meta.hwm)
  {
    hide WorkFreelist, WorkDisk, Balance, NewOrOld, SlotsOk, KnownVersion, Covered, SnapshotOk, Reads, Durable, Separate, Upto, PagesOf, TreePages, Closed, Run;
    LatestPartition(s, w.base);
    UptoBelow(s.versions[s.latest].meta.hwm);
  }

  lemma Trees(s: DbState, w: Work)
    requires s.latest in s.versions && WorkOk(s, w)
    ensures Separate(w.tree) && TreePages(w.tree) !! PagesIn(HeldFl(w, s.versions[s.latest]))
    ensures TreePages(w.tree) <= Stock(w, s.versions[s.latest])
  {
    hide WorkPages, WorkFreelist, WorkDisk, NewOrOld, Separate, TreePages, Run, PagesOf, FreedBy;
  }

  lemma Parts(s: DbState)
    requires Inv(s) && s.writer.Working?
    ensures s.latest in s.versions && Settled(s, s.writer.work.base) && WorkOk(s, s.writer.work)
  {
    hide WorkOk, SnapshotOk, Reads, Durable, FreelistOk, SlotsOk, VersionOk;
  }

  lemma ExtentIn(tree: set<Extent>, x: Extent)
    requires Separate(tree) && x in tree
    ensures PagesIn(x) <= TreePages(tree) && x.head in PagesIn(x)
  {
    TreePagesDrop(tree, x);
  }

  lemma Entries(s: DbState, w: Work)
    requires s.latest in s.versions && Settled(s, w.base) && WorkOk(s, w)
    ensures OneEntryPerPage(s.fl.pending) && s.latest >= 1
    ensures forall e :: e in s.fl.pending ==> e.freedBy <= s.latest + 1
    ensures forall e :: e in s.fl.pending && e.freedBy == s.latest + 1 ==> e.page in PagesOf(FreedBy(s.fl, s.latest + 1))
    ensures PagesIn(HeldFl(w, s.versions[s.latest])) !! PagesOf(FreedBy(s.fl, s.latest + 1))
  {
    hide WorkPages, WorkDisk, NewOrOld, Traced, SlotsOk, SnapshotOk, Reads, Durable, VersionOk, TreePages, Run, Separate, Covered;
  }

  // ---------- the steps ----------

  lemma InitDated()
    ensures Dated(Init())
  {
  }

  lemma BeginWriteDated(s: DbState)
    requires Inv(s) && Dated(s) && Enabled(s, BeginWrite)
    ensures Dated(Apply(s, BeginWrite))
  {
    hide WorkOk, SnapshotOk, Reads, Durable, VersionOk, WellFormed, Run, SlotsOk, Pinned, PagesOf;
  }

  /** Pages taken for a transaction, from the freelist or from above the mark. */
  lemma TakeDated(fl: State, txid: nat, head: nat, len: nat, hwm: nat, tree: set<Extent>, old_: set<Extent>)
    requires AllocsBelow(fl, hwm) && TreeBy(fl, tree, old_, txid) && forall x :: x in tree ==> x.head != head
    requires if Run(head, len) <= fl.free then head < hwm else head >= hwm
    ensures var fl' := Take(fl, txid, head, len);
      && AllocsBelow(fl', hwm) && TreeBy(fl', tree + {Extent(head, len)}, old_, txid) && By(fl', head, txid)
      && (forall p, t :: p != head && By(fl, p, t) ==> By(fl', p, t)) && (forall p :: p != head && p !in fl.allocs ==> p !in fl'.allocs)
      && fl'.pending == fl.pending
  {
    hide Run;
  }

  /** Where taken pages lie, and what they are not. */
  lemma TakenFacts(s: DbState, w: Work, fl: State, head: nat, len: nat)
    requires Settled(s, w.base) && WorkOk(s, w) && s.latest in s.versions && MayTake(fl, w.hwm, head, len) && fl.free == s.fl.free
    ensures var v := s.versions[s.latest];
      && (if Run(head, len) <= fl.free then head < v.meta.hwm else head >= v.meta.hwm)
      && head != v.fl.head && forall x :: x in w.tree ==> x.head != head
  {
    hide WorkOk, Settled, TreePages, Separate, Stock, Upto, Run;
    var v := s.versions[s.latest];
    WriterFacts(s, w);
    Bounds(s, w);
    Trees(s, w);
    StockApart(s, w);
    TakeFresh(s, w, fl, head, len);
    HeadIn(v.fl);
    HeldInStock(w, v);
    forall x | x in w.tree ensures x.head != head {
      ExtentIn(w.tree, x);
    }
  }

  lemma HeldInStock(w: Work, v: Version)
    ensures PagesIn(v.fl) <= Stock(w, v)
  {
  }

  lemma AllocTreeDated(s: DbState, head: nat, len: nat, content: map<nat, PageVal>)
    requires Inv(s) && Dated(s) && Enabled(s, AllocTree(head, len, content))
    ensures Dated(Apply(s, AllocTree(head, len, content)))
  {
    hide Inv, Run, Take, Stamps, AllocsBelow, TreeBy, By, Freed, FreedBelow, MayTake, WorkOk, Settled;
    var w, v, s' := s.writer.work, s.versions[s.latest], Apply(s, AllocTree(head, len, content));
    Parts(s);
    TakenFacts(s, w, s.fl, head, len);
    TakeDated(s.fl, s.latest + 1, head, len, v.meta.hwm, w.tree, v.tree);
    SameFreedBelow(s.fl, s'.fl, s.latest + 1, v.meta.hwm);
  }

  /** A run freed by a transaction: what is on record of others only shrinks. */
  lemma FreeDated(fl: State, txid: nat, x: Extent, isFreelist: bool, hwm: nat, tree: set<Extent>, old_: set<Extent>)
    requires AllocsBelow(fl, hwm) && TreeBy(fl, tree, old_, txid) && FreedBelow(fl, txid, hwm) && txid >= 1
    requires By(fl, x.head, txid) || forall p :: p in PagesIn(x) ==> p < hwm
    requires isFreelist ==> forall p :: p in PagesIn(x) ==> p < hwm
    ensures var fl' := FreeRun(fl, txid, x.head, x.len, isFreelist);
      && AllocsBelow(fl', hwm) && TreeBy(fl', tree - {x}, old_, txid) && TreeBy(fl', tree, old_, txid) && FreedBelow(fl', txid, hwm)
      && (forall p, t :: By(fl, p, t) ==> By(fl', p, t))
      && x.head !in fl'.allocs && fl.pending <= fl'.pending
      && (forall e :: e in fl'.pending ==> e in fl.pending || (e.freedBy == txid && e.page in PagesIn(x)))
  {
    hide Run;
    var fl' := FreeRun(fl, txid, x.head, x.len, isFreelist);
    forall e | e in fl'.pending && e.freedBy == txid && e.allocBy != 0 && e.allocBy != txid ensures e.page < hwm {
      if e !in fl.pending {
        assert e.page in PagesIn(x);
      }
    }
  }

  /** New entries of pages outside the current freelist change nothing for it. */
  lemma StampsGrow(versions: map<nat, Version>, latest: nat, pending: set<Entry>, pending': set<Entry>)
    requires latest in versions && Stamps(versions, latest, pending)
    requires forall e :: e in pending' && e !in pending ==>
      e.freedBy == latest + 1 && (e.page in PagesIn(versions[latest].fl) ==> e.allocBy == latest)
    ensures Stamps(versions, latest, pending')
  {
    hide Run;
  }

  lemma FreeTreeDated(s: DbState, x: Extent)
    requires Inv(s) && Dated(s) && Enabled(s, FreeTree(x))
    ensures Dated(Apply(s, FreeTree(x)))
  {
    hide Inv, Run, TreePages, FreeRun, Stamps, AllocsBelow, TreeBy, Freed, Settled, WorkOk, Separate, FreedBelow, By;
    var w, v, s', txid := s.writer.work, s.versions[s.latest], Apply(s, FreeTree(x)), s.latest + 1;
    Parts(s);
    Bounds(s, w);
    Trees(s, w);
    ExtentIn(w.tree, x);
    OldOrBy(s.fl, w.tree, v.tree, x, txid, v.meta.hwm);
    FreeDated(s.fl, txid, x, false, v.meta.hwm, w.tree, v.tree);
    forall e | e in s'.fl.pending && e !in s.fl.pending
      ensures e.freedBy == txid && (e.page in PagesIn(v.fl) ==> e.allocBy == s.latest)
    {
      assert e.page in PagesIn(x) && e.page in TreePages(w.tree);
    }
    StampsGrow(s.versions, s.latest, s.fl.pending, s'.fl.pending);
  }

  lemma OldOrBy(fl: State, tree: set<Extent>, old_: set<Extent>, x: Extent, txid: nat, hwm: nat)
    requires TreeBy(fl, tree, old_, txid) && x in tree && forall p :: p in TreePages(old_) ==> p < hwm
    ensures By(fl, x.head, txid) || forall p :: p in PagesIn(x) ==> p < hwm
  {
    hide Run;
    if x in old_ {
      assert forall p :: p in PagesIn(x) ==> p in TreePages(old_);
    }
  }

  lemma CommitFreelistDated(s: DbState, head: nat, len: nat, content: map<nat, PageVal>)
    requires Inv(s) && Dated(s) && Enabled(s, CommitFreelist(head, len, content))
    ensures Dated(Apply(s, CommitFreelist(head, len, content)))
    ensures Freed(Apply(s, CommitFreelist(head, len, content)).fl.pending, s.versions[s.latest].fl, s.latest)
  {
    hide Inv, Run, TreePages, FreeRun, Take, MayTake, Stamps, AllocsBelow, TreeBy, Freed, Settled, WorkOk, Separate, FreedBelow, By, Tracked;
    var w, v, s', txid := s.writer.work, s.versions[s.latest], Apply(s, CommitFreelist(head, len, content)), s.latest + 1;
    var freed := FreedFreelist(s);
    Parts(s);
    Bounds(s, w);
    FreeDated(s.fl, txid, v.fl, true, v.meta.hwm, w.tree, v.tree);
    OldFreed(s.fl, v.fl, s.latest);
    TakenFacts(s, w, freed, head, len);
    TakeDated(freed, txid, head, len, v.meta.hwm, w.tree, v.tree);
    FewerBy(s'.fl, w.tree, Extent(head, len), v.tree, txid);
    SameFreedBelow(freed, s'.fl, txid, v.meta.hwm);
    StampsGrow(s.versions, s.latest, s.fl.pending, s'.fl.pending);
  }

  lemma FewerBy(fl: State, tree: set<Extent>, x: Extent, old_: set<Extent>, txid: nat)
    requires TreeBy(fl, tree + {x}, old_, txid)
    ensures TreeBy(fl, tree, old_, txid)
  {
  }

  lemma SameFreedBelow(fl: State, fl': State, txid: nat, hwm: nat)
    requires FreedBelow(fl, txid, hwm) && fl'.pending == fl.pending
    ensures FreedBelow(fl', txid, hwm)
  {
  }

  /** The old freelist's pages go with the transaction that had allocated them, on record or not. */
  lemma OldFreed(fl: State, x: Extent, v: nat)
    requires By(fl, x.head, v)
    ensures var fl' := FreeRun(fl, v + 1, x.head, x.len, true);
      && Freed(fl'.pending, x, v) && fl'.free == fl.free
      && forall e :: e in fl'.pending && e !in fl.pending ==> e.freedBy == v + 1 && e.allocBy == v
  {
  }

  lemma WriteMetaDated(s: DbState, root: nat)
    requires Inv(s) && Dated(s) && Enabled(s, WriteMeta(root))
    ensures Dated(Apply(s, WriteMeta(root)))
  {
    hide Inv, Run, TreePages, Settled, WorkOk, By, Freed, NewContent, Closed;
    Parts(s);
    Bounds(s, s.writer.work);
    Entries(s, s.writer.work);
  }

  /** Undoing a transaction puts back what was on record of others, which lies below the mark. */
  lemma UndoDated(s: DbState, w: Work)
    requires Settled(s, w.base) && WorkOk(s, w) && Dated(s) && s.writer == Working(w)
    ensures OneEntryPerPage(s.fl.pending)
    ensures var fl := Rollback(s.fl, s.latest + 1);
      && AllocsBelow(fl, s.versions[s.latest].meta.hwm) && By(fl, s.versions[s.latest].fl.head, s.latest)
  {
    hide Settled, WorkOk, Run, TreePages, Stamps, TreeBy;
    var v, txid := s.versions[s.latest], s.latest + 1;
    Entries(s, w);
    WriterFacts(s, w);
    HeadIn(v.fl);
    if w.fl.Some? {
      assert Entry(v.fl.head, txid, s.latest) in s.fl.pending;
    }
  }

  lemma UndoneDated(s: DbState, s': DbState)
    requires Inv(s) && Dated(s) && s.writer.Working? && OneEntryPerPage(s.fl.pending)
    requires s' == s.(fl := s'.fl, writer := Idle) && s'.fl.pending == Rollback(s.fl, s.latest + 1).pending
    requires s'.fl.allocs == Rollback(s.fl, s.latest + 1).allocs
    ensures Dated(s')
  {
    hide Settled, WorkOk, Run;
    Parts(s);
    UndoDated(s, s.writer.work);
  }

  lemma UserRollbackDated(s: DbState)
    requires Inv(s) && Dated(s) && Enabled(s, UserRollback)
    ensures Dated(Apply(s, UserRollback))
  {
    hide Inv, Dated, Rollback, PagesOf, VersionOk, FreedBy;
    UndoneDated(s, Apply(s, UserRollback));
  }

  lemma AbortCommitDated(s: DbState)
    requires Inv(s) && Dated(s) && Enabled(s, AbortCommit)
    ensures Dated(Apply(s, AbortCommit))
  {
    hide Inv, Dated, Rollback, PagesOf, VersionOk, FreedBy;
    UndoneDated(s, Apply(s, AbortCommit));
  }

  lemma CrashDated(s: DbState, disk: map<nat, PageVal>, seen: seq<Slot>)
    requires Inv(s) && Dated(s) && Enabled(s, Crash(disk, seen))
    ensures Dated(Apply(s, Crash(disk, seen)))
  {
    hide Inv, SelectMeta, VersionOk, SlotsSeen, Run;
    Recovery(s, disk, seen);
  }

  /** Every step keeps the record right. */
  lemma StepDated(s: DbState, a: Action)
    requires Inv(s) && Dated(s) && Enabled(s, a)
    ensures Dated(Apply(s, a))
  {
    hide Inv, Dated, SelectMeta, SlotsSeen, FreeRun, Take, MayTake, Rollback, ReleaseUnpinned, Run, NewVersion, Closed, FreedFreelist, Tracked, Raise;
    match a
    case BeginRead(r, seen) => ReadDated(s, Apply(s, a));
    case CloseRead(r) => ReadDated(s, Apply(s, a));
    case BeginWrite => BeginWriteDated(s);
    case AllocTree(head, len, content) => AllocTreeDated(s, head, len, content);
    case FreeTree(x) => FreeTreeDated(s, x);
    case CommitFreelist(head, len, content) => CommitFreelistDated(s, head, len, content);
    case WriteData => PhaseDated(s, Apply(s, a));
    case SyncData => PhaseDated(s, Apply(s, a));
    case WriteMeta(root) => WriteMetaDated(s, root);
    case SyncMeta => SyncDated(s);
    case UserRollback => UserRollbackDated(s);
    case AbortCommit => AbortCommitDated(s);
    case Crash(disk, seen) => CrashDated(s, disk, seen);
  }

  lemma ReadDated(s: DbState, s': DbState)
    requires Dated(s) && s' == s.(readers := s'.readers)
    ensures Dated(s')
  {
    hide Stamps, AllocsBelow, By, Freed, WorkDated;
  }

  lemma PhaseDated(s: DbState, s': DbState)
    requires Dated(s) && s.writer.Working? && s'.writer.Working? && s'.writer.work == s.writer.work.(phase := s'.writer.work.phase)
    requires s'.versions == s.versions && s'.latest == s.latest && s'.fl == s.fl
    ensures Dated(s')
  {
    hide Stamps, AllocsBelow, By, Freed, FreedBelow, TreeBy;
  }

  lemma SyncDated(s: DbState)
    requires Dated(s) && Enabled(s, SyncMeta)
    ensures Dated(Apply(s, SyncMeta))
  {
    hide Stamps, AllocsBelow, By, Freed;
  }

  lemma {:induction false} RunDated(states: seq<DbState>, actions: seq<Action>, i: nat)
    requires IsRun(states, actions) && i < |states|
    ensures Inv(states[i]) && Dated(states[i])
  {
    hide Inv, Init, Dated, Enabled, Apply;
    RunInv(states, actions, i);
    if i == 0 {
      InitDated();
    } else {
      RunDated(states, actions, i - 1);
      RunStep(states, actions, i - 1);
      StepDated(states[i - 1], actions[i - 1]);
    }
  }

  // ---------- when the pages come back ----------

  /**
   * Over every run: when a writer begins, a pending page of the freelist of version v that the next transaction, v + 1,
   * has freed is made reusable exactly if no reader is open at v or v + 1, whether its allocation was on record or not.
   */
  lemma FreelistPageReleased(states: seq<DbState>, actions: seq<Action>, i: nat, v: nat, e: Entry)
    requires IsRun(states, actions) && i < |actions| && actions[i] == BeginWrite
    requires v in states[i].versions && v <= states[i].latest && e.page in PagesIn(states[i].versions[v].fl)
    requires e in states[i].fl.pending && e.freedBy == v + 1
    ensures e.allocBy == v && i + 1 < |states|
    ensures e.page in states[i + 1].fl.free <==> forall r :: r in states[i].readers.Values ==> !(v <= r <= v + 1)
    ensures e in states[i + 1].fl.pending <==> e.page !in states[i + 1].fl.free
  {
    hide Inv, IsRun, Run;
    RunLength(states, actions);
    RunDated(states, actions, i);
    RunStep(states, actions, i);
    Pending(states[i]);
    var st := states[i].fl;
    var moved := set f | f in st.pending && !Pinned(f, Readers(states[i]));
    assert e.page in PagesOf(st.pending);
    assert e.page in PagesOf(moved) <==> e in moved;
  }

  lemma RunLength(states: seq<DbState>, actions: seq<Action>)
    requires IsRun(states, actions)
    ensures |states| == |actions| + 1
  {
  }

  lemma Pending(s: DbState)
    requires Inv(s) && !s.writer.Working?
    ensures WellFormed(s.fl)
  {
    hide SnapshotOk, Reads, Durable, SlotsOk, KnownVersion;
  }

  /**
   * Over every run: the freelist of the version before comes back with the first writer after a commit. Transaction
   * v + 1 has freed all its pages, and each becomes reusable then exactly if no reader is open at v or v + 1.
   */
  lemma OldFreelistReleased(states: seq<DbState>, actions: seq<Action>, i: nat, j: nat, p: nat)
    requires IsRun(states, actions) && i < j < |actions| && actions[i] == SyncMeta && actions[j] == BeginWrite
    requires forall k :: i < k < j ==> actions[k].BeginRead? || actions[k].CloseRead?
    requires states[j].latest >= 1 && states[j].latest - 1 in states[j].versions
    requires p in PagesIn(states[j].versions[states[j].latest - 1].fl)
    ensures j + 1 < |states|
    ensures var v := states[j].latest - 1;
      p in states[j + 1].fl.free <==> forall r :: r in states[j].readers.Values ==> !(v <= r <= v + 1)
  {
    hide Inv, IsRun, Run, Apply, Enabled, Freed;
    RunLength(states, actions);
    RunDated(states, actions, i);
    RunStep(states, actions, i);
    Committed(states[i]);
    Reading(states, actions, i + 1, j);
    var v := states[j].latest - 1;
    FreedPage(states[j].fl.pending, states[j].versions[v].fl, v, p);
    FreelistPageReleased(states, actions, j, v, Entry(p, v + 1, v));
  }

  lemma Committed(s: DbState)
    requires Dated(s) && Enabled(s, SyncMeta)
    ensures var s' := Apply(s, SyncMeta);
      s'.latest >= 1 && s'.latest - 1 in s'.versions && Freed(s'.fl.pending, s'.versions[s'.latest - 1].fl, s'.latest - 1)
  {
    hide Stamps, AllocsBelow, By, Freed;
  }

  lemma FreedPage(pending: set<Entry>, fl: Extent, v: nat, p: nat)
    requires Freed(pending, fl, v) && p in PagesIn(fl)
    ensures Entry(p, v + 1, v) in pending
  {
  }

  /** Readers come and go without touching anything else. */
  lemma {:induction false} Reading(states: seq<DbState>, actions: seq<Action>, i: nat, j: nat)
    requires IsRun(states, actions) && i <= j < |states|
    requires forall k :: i <= k < j ==> actions[k].BeginRead? || actions[k].CloseRead?
    ensures states[j].fl == states[i].fl && states[j].latest == states[i].latest && states[j].versions == states[i].versions
    decreases j
  {
    hide IsRun, SelectMeta, SlotsSeen;
    if i < j {
      Reading(states, actions, i, j - 1);
      RunStep(states, actions, j - 1);
    }
  }
}
