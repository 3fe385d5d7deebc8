/**
 * The transaction protocol as a state machine: readers pinned at versions, one writer, copy-on-write
 * pages taken from and returned to the freelist, a disk with unsynced writes, and two meta slots.
 */
module Protocol {
  import opened Options
  import opened Pgids
  import opened FreelistSpec

  /** Consecutive pages that live and die together: a page and its overflow pages. */
  datatype Extent = Extent(head: nat, len: nat)

  datatype PageVal = TreePage(children: set<nat>, data: int) | FreelistIds(ids: set<nat>) | Other(data: int)

  datatype Meta = Meta(txid: nat, root: nat, freelist: nat, hwm: nat)

  /** A meta page as found on disk; validate() fails on a torn one, whatever its fields say. */
  datatype Slot = Slot(meta: Meta, valid: bool)

  /** A committed version: its meta, its tree, the pages of its freelist, the ids stored there, and all page contents. */
  datatype Version = Version(meta: Meta, tree: set<Extent>, fl: Extent, ids: set<nat>, content: map<nat, PageVal>)

  datatype Phase = Building | DataWritten | DataSynced

  /**
   * A write transaction: the tree it has built so far, the pages it has allocated with their contents,
   * its new freelist pages with the ids stored there, its high-water mark, and (for the proof) the
   * freelist as it was when the transaction began.
   */
  datatype Work = Work(phase: Phase, tree: set<Extent>, pages: map<nat, PageVal>, fl: Opt<Extent>, ids: set<nat>,
                       hwm: nat, base: State)

  datatype Writer = Idle | Working(work: Work) | SyncingMeta(slot: Slot)

  datatype DbState = DbState(
    disk: map<nat, PageVal>,
    dirty: map<nat, PageVal>,
    slots: seq<Slot>,
    versions: map<nat, Version>,
    latest: nat,
    readers: map<nat, nat>,
    fl: State,
    writer: Writer)

  // ---------- pages and trees ----------

  ghost function PagesIn(x: Extent): set<nat> {
    Run(x.head, x.len)
  }

  ghost function TreePages(tree: set<Extent>): set<nat> {
    set x, p | x in tree && p in PagesIn(x) :: p
  }

  ghost function Upto(hwm: nat): set<nat> {
    if hwm <= 2 then {} else Run(2, hwm - 2)
  }

  ghost predicate Separate(tree: set<Extent>) {
    && (forall x :: x in tree ==> x.len >= 1)
    && (forall x, y :: x in tree && y in tree && x != y ==> PagesIn(x) !! PagesIn(y))
  }

  /** The tree holds the root and every child of its pages. */
  ghost predicate Closed(tree: set<Extent>, content: map<nat, PageVal>, root: nat) {
    && HasHead(tree, root)
    && (forall x :: x in tree ==> x.head in content && content[x.head].TreePage?)
    && (forall x, c :: x in tree && c in content[x.head].children ==> HasHead(tree, c))
  }

  ghost predicate HasHead(tree: set<Extent>, head: nat) {
    exists x :: x in tree && x.head == head
  }

  /** Tree, freelist pages and listed ids partition the pages below the high-water mark. */
  ghost predicate Partition(tree: set<Extent>, fl: Extent, ids: set<nat>, hwm: nat) {
    && Separate(tree)
    && TreePages(tree) !! PagesIn(fl) && TreePages(tree) !! ids && PagesIn(fl) !! ids
    && TreePages(tree) + PagesIn(fl) + ids == Upto(hwm)
  }

  ghost predicate VersionOk(v: Version) {
    && Partition(v.tree, v.fl, v.ids, v.meta.hwm) && v.fl.len >= 1
    && v.content.Keys == TreePages(v.tree) + PagesIn(v.fl)
    && v.meta.freelist == v.fl.head && v.content[v.fl.head] == FreelistIds(v.ids)
    && Closed(v.tree, v.content, v.meta.root)
  }

  // ---------- meta selection ----------

  /** db.meta(): the meta with the higher txid if it validates, else the other one. */
  function SelectMeta(slots: seq<Slot>): Opt<Meta>
    requires |slots| == 2
  {
    var a, b := if slots[1].meta.txid > slots[0].meta.txid then slots[1] else slots[0],
                if slots[1].meta.txid > slots[0].meta.txid then slots[0] else slots[1];
    if a.valid then Some(a.meta) else if b.valid then Some(b.meta) else None
  }

  /** What may be seen of the slots, through the map or after a crash, while one is being written: old, new or torn. */
  ghost predicate SlotsSeen(s: DbState, seen: seq<Slot>) {
    && |s.slots| == 2 && |seen| == 2
    && match s.writer
       case SyncingMeta(slot) =>
         var i := s.latest % 2;
         && seen[1 - i] == s.slots[1 - i]
         && (seen[i] == s.slots[i] || seen[i] == slot || !seen[i].valid)
       case _ => seen == s.slots
  }

  // ---------- steps ----------

  datatype Action =
    | BeginRead(reader: nat, seen: seq<Slot>)
    | CloseRead(reader: nat)
    | BeginWrite
    | AllocTree(head: nat, len: nat, content: map<nat, PageVal>)
    | FreeTree(extent: Extent)
    | CommitFreelist(head: nat, len: nat, content: map<nat, PageVal>)
    | WriteData
    | SyncData
    | WriteMeta(root: nat)
    | SyncMeta
    | UserRollback
    | AbortCommit
    | Crash(disk: map<nat, PageVal>, seen: seq<Slot>)

  ghost function View(s: DbState): map<nat, PageVal> {
    s.disk + s.dirty
  }

  ghost function Readers(s: DbState): set<nat> {
    s.readers.Values
  }

  /** allocate: from the freelist if it has len consecutive pages, else at the high-water mark. */
  ghost predicate MayTake(fl: State, hwm: nat, head: nat, len: nat) {
    len >= 1 && (Run(head, len) <= fl.free || (head == hwm && forall p: nat :: !(Run(p, len) <= fl.free)))
  }

  ghost function Take(fl: State, txid: nat, head: nat, len: nat): State {
    if Run(head, len) <= fl.free then TakeRun(fl, txid, head, len) else fl
  }

  ghost function Raise(fl: State, hwm: nat, head: nat, len: nat): nat {
    if Run(head, len) <= fl.free then hwm else hwm + len
  }

  ghost function FreedFreelist(s: DbState): State
    requires s.latest in s.versions
  {
    var old_ := s.versions[s.latest].fl;
    FreeRun(s.fl, s.latest + 1, old_.head, old_.len, true)
  }

  /** The contents a version would have: the writer's own pages, and the rest from the version it started from. */
  ghost function NewContent(w: Work, v: Version): map<nat, PageVal>
    requires w.fl.Some?
  {
    var all := v.content + w.pages;
    all - (all.Keys - (TreePages(w.tree) + PagesIn(w.fl.value)))
  }

  ghost function NewVersion(s: DbState, w: Work, root: nat): Version
    requires s.latest in s.versions && w.fl.Some?
  {
    Version(Meta(s.latest + 1, root, w.fl.value.head, w.hwm), w.tree, w.fl.value, w.ids,
            NewContent(w, s.versions[s.latest]))
  }

  ghost predicate Enabled(s: DbState, a: Action) {
    && |s.slots| == 2 && s.latest in s.versions
    && match a
       case BeginRead(r, seen) => r !in s.readers && SlotsSeen(s, seen) && SelectMeta(seen).Some?
       case CloseRead(r) => r in s.readers
       case BeginWrite => s.writer.Idle?
       case AllocTree(head, len, content) =>
         && s.writer.Working? && s.writer.work.phase.Building? && s.writer.work.fl.None?
         && MayTake(s.fl, s.writer.work.hwm, head, len) && content.Keys == Run(head, len)
       case FreeTree(x) =>
         s.writer.Working? && s.writer.work.phase.Building? && s.writer.work.fl.None? && x in s.writer.work.tree
       case CommitFreelist(head, len, content) =>
         && s.writer.Working? && s.writer.work.phase.Building? && s.writer.work.fl.None?
         && MayTake(FreedFreelist(s), s.writer.work.hwm, head, len)
         && content.Keys == Run(head, len)
         && content[head] == FreelistIds(Tracked(Take(FreedFreelist(s), s.latest + 1, head, len)))
       case WriteData => s.writer.Working? && s.writer.work.phase.Building? && s.writer.work.fl.Some?
       case SyncData => s.writer.Working? && s.writer.work.phase.DataWritten?
       case WriteMeta(root) =>
         && s.writer.Working? && s.writer.work.phase.DataSynced? && s.writer.work.fl.Some?
         && Closed(s.writer.work.tree, NewContent(s.writer.work, s.versions[s.latest]), root)
       case SyncMeta => s.writer.SyncingMeta?
       case UserRollback => s.writer.Working? && s.writer.work.pages == map[] && OneEntryPerPage(s.fl.pending)
       case AbortCommit => s.writer.Working? && !s.writer.work.phase.DataSynced? && OneEntryPerPage(s.fl.pending)
       case Crash(disk, seen) =>
         && SlotsSeen(s, seen) && SelectMeta(seen).Some?
         && (forall p :: p in s.disk && p !in s.dirty ==> p in disk && disk[p] == s.disk[p])
         && SelectMeta(seen).value.freelist in disk && disk[SelectMeta(seen).value.freelist].FreelistIds?
  }

  ghost function Apply(s: DbState, a: Action): DbState
    requires Enabled(s, a)
  {
    match a
    case BeginRead(r, seen) => s.(readers := s.readers[r := SelectMeta(seen).value.txid])
    case CloseRead(r) => s.(readers := s.readers - {r})
    case BeginWrite =>
      var v := s.versions[s.latest];
      var fl := ReleaseUnpinned(s.fl, Readers(s));
      s.(fl := fl, writer := Working(Work(Building, v.tree, map[], None, {}, v.meta.hwm, fl)))
    case AllocTree(head, len, content) =>
      var w := s.writer.work;
      s.(fl := Take(s.fl, s.latest + 1, head, len),
         writer := Working(w.(tree := w.tree + {Extent(head, len)}, pages := w.pages + content,
                              hwm := Raise(s.fl, w.hwm, head, len))))
    case FreeTree(x) =>
      var w := s.writer.work;
      s.(fl := FreeRun(s.fl, s.latest + 1, x.head, x.len, false), writer := Working(w.(tree := w.tree - {x})))
    case CommitFreelist(head, len, content) =>
      var w, freed := s.writer.work, FreedFreelist(s);
      var fl := Take(freed, s.latest + 1, head, len);
      s.(fl := fl,
         writer := Working(w.(pages := w.pages + content, fl := Some(Extent(head, len)), ids := Tracked(fl),
                              hwm := Raise(freed, w.hwm, head, len))))
    case WriteData =>
      s.(dirty := s.dirty + s.writer.work.pages, writer := Working(s.writer.work.(phase := DataWritten)))
    case SyncData =>
      s.(disk := s.disk + s.dirty, dirty := map[], writer := Working(s.writer.work.(phase := DataSynced)))
    case WriteMeta(root) =>
      var v := NewVersion(s, s.writer.work, root);
      s.(versions := s.versions[s.latest + 1 := v], latest := s.latest + 1, writer := SyncingMeta(Slot(v.meta, true)))
    case SyncMeta =>
      s.(slots := s.slots[s.latest % 2 := s.writer.slot], writer := Idle)
    case UserRollback =>
      s.(fl := Rollback(s.fl, s.latest + 1), writer := Idle)
    case AbortCommit =>
      var v := s.versions[s.latest];
      var fl := Rollback(s.fl, s.latest + 1);
      s.(fl := fl.(free := v.ids - PagesOf(fl.pending)), writer := Idle)
    case Crash(disk, seen) =>
      var m := SelectMeta(seen).value;
      DbState(disk, map[], seen, s.versions, m.txid, map[], State(disk[m.freelist].ids, {}, map[]), Idle)
  }

  // ---------- the invariant ----------

  /** The versions whose durable pages must stay intact: the current one, and its predecessor while the new meta may be lost. */
  ghost function Kept(s: DbState): set<nat> {
    if s.writer.SyncingMeta? && s.latest >= 1 then {s.latest, s.latest - 1} else {s.latest}
  }

  /** The versions somebody may read. */
  ghost function Watched(s: DbState): set<nat> {
    Readers(s) + Kept(s)
  }

  /** An extent of version v is still in the current tree, or pending with v between its allocation and its freeing. */
  ghost predicate Covered(x: Extent, v: nat, tree: set<Extent>, fl: State) {
    || (x in tree && (x.head in fl.allocs ==> fl.allocs[x.head] <= v))
    || (forall p :: p in PagesIn(x) ==> PendingFor(p, v, fl))
  }

  ghost predicate PendingFor(p: nat, v: nat, fl: State) {
    exists e :: e in fl.pending && e.page == p && e.allocBy <= v < e.freedBy
  }

  ghost predicate SnapshotOk(v: nat, version: Version, tree: set<Extent>, fl: State) {
    forall x :: x in version.tree ==> Covered(x, v, tree, fl)
  }

  /** The pages of a version's tree read as they were written. */
  ghost predicate Reads(version: Version, view: map<nat, PageVal>) {
    forall p :: p in TreePages(version.tree) ==> p in version.content && p in view && view[p] == version.content[p]
  }

  /** All pages of a version, freelist included, are on disk with no unsynced write over them. */
  ghost predicate Durable(version: Version, s: DbState) {
    forall p :: p in version.content ==> p in s.disk && s.disk[p] == version.content[p] && p !in s.dirty
  }

  ghost predicate KnownVersion(s: DbState, v: nat) {
    1 <= v <= s.latest && v in s.versions && s.versions[v].meta.txid == v && VersionOk(s.versions[v])
  }

  /** The freelist (as of the last begin of a writer) matches the current version. */
  ghost predicate FreelistOk(s: DbState, fl: State)
    requires s.latest in s.versions
  {
    && WellFormed(fl) && Tracked(fl) == s.versions[s.latest].ids
    && (forall e :: e in fl.pending ==> e.freedBy <= s.latest)
    && (forall p :: p in fl.allocs ==> fl.allocs[p] <= s.latest + 1)
    && (forall x :: x in s.versions[s.latest].tree && x.head in fl.allocs ==> fl.allocs[x.head] <= s.latest)
    && (s.versions[s.latest].fl.head in fl.allocs ==> fl.allocs[s.versions[s.latest].fl.head] <= s.latest)
  }

  ghost predicate SlotsOk(s: DbState) {
    && |s.slots| == 2 && s.latest in s.versions
    && match s.writer
       case SyncingMeta(slot) =>
         && s.latest >= 2 && s.latest - 1 in s.versions
         && slot == Slot(s.versions[s.latest].meta, true)
         && s.slots[(s.latest - 1) % 2] == Slot(s.versions[s.latest - 1].meta, true)
         && (s.slots[s.latest % 2].valid ==> s.slots[s.latest % 2].meta.txid + 2 == s.latest)
       case _ =>
         && s.slots[s.latest % 2] == Slot(s.versions[s.latest].meta, true)
         && (s.slots[(s.latest + 1) % 2].valid ==> s.slots[(s.latest + 1) % 2].meta.txid + 1 == s.latest)
  }

  ghost predicate Settled(s: DbState, fl: State) {
    && KnownVersion(s, s.latest)
    && SlotsOk(s)
    && FreelistOk(s, fl)
    && (forall v :: v in Watched(s) ==> KnownVersion(s, v))
    && (forall v :: v in Watched(s) ==> SnapshotOk(v, s.versions[v], s.versions[s.latest].tree, fl))
    && (forall v :: v in Watched(s) ==> Reads(s.versions[v], View(s)))
    && (forall v :: v in Kept(s) ==> Durable(s.versions[v], s))
  }

  /** The freelist pages currently held: the old version's until the new freelist is allocated. */
  ghost function HeldFl(w: Work, v: Version): Extent {
    if w.fl.Some? then w.fl.value else v.fl
  }

  /** The allocating transaction the base freelist knows for an extent; 0 if none. */
  ghost function BaseAlloc(base: State, x: Extent): nat {
    if x.head in base.allocs then base.allocs[x.head] else 0
  }

  /** An extent of the old tree is untouched, or freed by this transaction with its allocator on record. */
  ghost predicate Traced(x: Extent, w: Work, fl: State, txid: nat) {
    || (x in w.tree && (x.head in fl.allocs <==> x.head in w.base.allocs)
        && (x.head in fl.allocs ==> fl.allocs[x.head] == w.base.allocs[x.head]))
    || (x.head !in fl.allocs
        && forall p :: p in PagesIn(x) ==> Entry(p, txid, BaseAlloc(w.base, x)) in fl.pending)
  }

  ghost predicate WorkPages(w: Work, fl: State, v: Version) {
    && v.meta.hwm <= w.hwm
    && fl.free <= w.base.free
    && w.pages.Keys == (w.base.free - fl.free) + (Upto(w.hwm) - Upto(v.meta.hwm))
  }

  /** What the old version held, plus what the transaction has allocated. */
  ghost function Stock(w: Work, v: Version): set<nat> {
    TreePages(v.tree) + PagesIn(v.fl) + w.pages.Keys
  }

  /** The stock is split between the tree, the freelist pages held, and the pages freed by the transaction. */
  ghost predicate Balance(tree: set<Extent>, held: set<nat>, freed: set<nat>, stock: set<nat>) {
    && Separate(tree)
    && TreePages(tree) !! held && (TreePages(tree) + held) !! freed
    && TreePages(tree) + held + freed == stock
  }

  ghost predicate NewOrOld(tree: set<Extent>, old_: set<Extent>, pages: set<nat>) {
    forall x :: x in tree ==> x in old_ || PagesIn(x) <= pages
  }

  ghost predicate WorkFreelist(w: Work, fl: State, v: Version, txid: nat) {
    && WellFormed(fl)
    && fl.pending == w.base.pending + FreedBy(fl, txid)
    && (forall e :: e in w.base.pending ==> e.freedBy < txid)
    && (forall e :: e in FreedBy(fl, txid) && OwnPage(e, txid) ==> e.page in w.pages)
    && (forall p :: p in fl.allocs ==> fl.allocs[p] <= txid)
    && (v.fl.head in fl.allocs ==> fl.allocs[v.fl.head] < txid)
    && (forall x :: x in v.tree ==> Traced(x, w, fl, txid))
  }

  ghost predicate WorkDisk(w: Work, s: DbState) {
    match w.phase
    case Building => true
    case DataWritten => w.fl.Some? && forall p :: p in w.pages ==> p in s.dirty && s.dirty[p] == w.pages[p]
    case DataSynced => w.fl.Some? && s.dirty == map[] && forall p :: p in w.pages ==> p in s.disk && s.disk[p] == w.pages[p]
  }

  ghost predicate WorkOk(s: DbState, w: Work)
    requires s.latest in s.versions
  {
    var v := s.versions[s.latest];
    && WorkPages(w, s.fl, v) && WorkFreelist(w, s.fl, v, s.latest + 1) && WorkDisk(w, s)
    && Balance(w.tree, PagesIn(HeldFl(w, v)), PagesOf(FreedBy(s.fl, s.latest + 1)), Stock(w, v))
    && NewOrOld(w.tree, v.tree, w.pages.Keys)
    && (w.fl.Some? ==> w.fl.value.len >= 1 && PagesIn(w.fl.value) <= w.pages.Keys && w.fl.value.head in w.pages
                       && w.pages[w.fl.value.head] == FreelistIds(w.ids) && w.ids == Tracked(s.fl))
  }

  ghost predicate Inv(s: DbState) {
    match s.writer
    case Working(w) => Settled(s, w.base) && WorkOk(s, w)
    case _ => Settled(s, s.fl)
  }

  // ---------- set facts ----------

  lemma TreePagesAdd(tree: set<Extent>, x: Extent)
    ensures TreePages(tree + {x}) == TreePages(tree) + PagesIn(x)
  {
    forall p | p in TreePages(tree) + PagesIn(x) ensures p in TreePages(tree + {x}) {
      if p in TreePages(tree) {
        var y :| y in tree && p in PagesIn(y);
        assert y in tree + {x};
      } else {
        assert x in tree + {x};
      }
    }
  }

  lemma TreePagesDrop(tree: set<Extent>, x: Extent)
    requires Separate(tree) && x in tree
    ensures Separate(tree - {x}) && TreePages(tree - {x}) == TreePages(tree) - PagesIn(x)
    ensures PagesIn(x) <= TreePages(tree) && x.head in PagesIn(x) && x.len >= 1
  {
    forall p | p in TreePages(tree) - PagesIn(x) ensures p in TreePages(tree - {x}) {
      var y :| y in tree && p in PagesIn(y);
      assert y in tree - {x};
    }
    forall p | p in TreePages(tree - {x}) ensures p in TreePages(tree) && p !in PagesIn(x) {
      var y :| y in tree - {x} && p in PagesIn(y);
    }
  }

  lemma SeparateAdd(tree: set<Extent>, x: Extent)
    requires Separate(tree) && x.len >= 1 && PagesIn(x) !! TreePages(tree)
    ensures Separate(tree + {x})
  {
    forall y | y in tree ensures PagesIn(y) <= TreePages(tree) {
      TreePagesDrop(tree, y);
    }
  }

  lemma HeadIn(x: Extent)
    requires x.len >= 1
    ensures x.head in PagesIn(x)
  {
  }

  lemma UptoGrows(a: nat, b: nat)
    requires 2 <= a
    ensures Upto(a) !! Run(a, b) && Upto(a + b) == Upto(a) + Run(a, b)
    ensures forall p :: p in Upto(a) <==> 2 <= p < a
  {
  }

  lemma UptoMono(a: nat, b: nat)
    requires a <= b
    ensures Upto(a) <= Upto(b) && forall p :: p in Upto(a) ==> p >= 2
  {
  }

  lemma UptoBelow(hwm: nat)
    ensures forall x :: x in Upto(hwm) ==> 2 <= x < hwm
  {
  }

  lemma FreedByAll(fl: State, base: set<Entry>, txid: nat)
    requires fl.pending == base + FreedBy(fl, txid)
    ensures PagesOf(fl.pending) == PagesOf(base) + PagesOf(FreedBy(fl, txid))
  {
    PagesOfUnion(base, FreedBy(fl, txid));
  }

  // ---------- what a write transaction may touch ----------

  /** The stock has nothing in common with the free pages or with the pages that were pending before. */
  lemma StockApart(s: DbState, w: Work)
    requires Settled(s, w.base) && WorkOk(s, w)
    ensures Stock(w, s.versions[s.latest]) !! s.fl.free
    ensures Stock(w, s.versions[s.latest]) !! PagesOf(w.base.pending)
    ensures Stock(w, s.versions[s.latest]) <= Upto(w.hwm)
    ensures s.fl.free <= Upto(w.hwm) && PagesOf(w.base.pending) <= Upto(w.hwm)
  {
    hide WorkFreelist, WorkDisk, Balance, NewOrOld, SlotsOk, KnownVersion, Covered, SnapshotOk, Reads, Durable, Separate, Upto, PagesOf, TreePages, Closed;
    LatestPartition(s, w.base);
    var v := s.versions[s.latest];
    UptoMono(v.meta.hwm, w.hwm);
  }

  lemma LatestPartition(s: DbState, fl: State)
    requires Settled(s, fl)
    ensures s.latest in s.versions && WellFormed(fl)
    ensures Partition(s.versions[s.latest].tree, s.versions[s.latest].fl, s.versions[s.latest].ids, s.versions[s.latest].meta.hwm)
    ensures VersionOk(s.versions[s.latest]) && s.versions[s.latest].fl.len >= 1
    ensures s.versions[s.latest].ids == fl.free + PagesOf(fl.pending) && fl.free !! PagesOf(fl.pending)
  {
  }

  /** Pages a writer may take: not in the stock, hence in no version it must preserve. */
  lemma TakeFresh(s: DbState, w: Work, fl: State, head: nat, len: nat)
    requires s.latest in s.versions && MayTake(fl, w.hwm, head, len)
    requires fl.free <= Upto(w.hwm) && Stock(w, s.versions[s.latest]) <= Upto(w.hwm) && w.hwm >= 2
    requires Stock(w, s.versions[s.latest]) !! fl.free
    ensures Run(head, len) !! Stock(w, s.versions[s.latest])
    ensures Run(head, len) !! Take(fl, s.latest + 1, head, len).free
    ensures head in Run(head, len) && len >= 1
  {
    UptoGrows(w.hwm, len);
  }

  /** Taking pages keeps the bookkeeping of what has been allocated. */
  lemma TakeWorkPages(w: Work, fl: State, v: Version, txid: nat, head: nat, len: nat, content: map<nat, PageVal>)
    requires WorkPages(w, fl, v) && MayTake(fl, w.hwm, head, len) && content.Keys == Run(head, len)
    requires v.meta.hwm >= 2 && w.base.free <= Upto(v.meta.hwm)
    ensures WorkPages(w.(pages := w.pages + content, hwm := Raise(fl, w.hwm, head, len)), Take(fl, txid, head, len), v)
  {
    var hwm' := Raise(fl, w.hwm, head, len);
    if Run(head, len) <= fl.free {
      assert w.base.free - (fl.free - Run(head, len)) == (w.base.free - fl.free) + Run(head, len);
    } else {
      UptoGrows(w.hwm, len);
      UptoMono(v.meta.hwm, w.hwm);
      hide Upto, Run;
      assert Upto(hwm') - Upto(v.meta.hwm) == (Upto(w.hwm) - Upto(v.meta.hwm)) + Run(head, len);
    }
  }

  lemma TakeFreedBy(fl: State, txid: nat, head: nat, len: nat)
    ensures FreedBy(Take(fl, txid, head, len), txid) == FreedBy(fl, txid)
    ensures Take(fl, txid, head, len).pending == fl.pending
  {
  }

  /** Taking pages keeps the freelist's own bookkeeping: no live extent starts at a page that was free. */
  lemma TakeWorkFreelist(w: Work, fl: State, v: Version, txid: nat, head: nat, len: nat, w': Work)
    requires WorkFreelist(w, fl, v, txid) && len >= 1
    requires w'.base == w.base && w.tree <= w'.tree && w.pages.Keys <= w'.pages.Keys
    requires Separate(v.tree) && TreePages(v.tree) !! fl.free && v.fl.len >= 1 && PagesIn(v.fl) !! fl.free
    ensures WorkFreelist(w', Take(fl, txid, head, len), v, txid)
  {
    var fl' := Take(fl, txid, head, len);
    TakeFreedBy(fl, txid, head, len);
    if Run(head, len) <= fl.free {
      TakeRunConserves(fl, txid, head, len);
      assert head in Run(head, len);
    }
    assert v.fl.head in PagesIn(v.fl);
    forall x | x in v.tree ensures Traced(x, w', fl', txid) {
      TreePagesDrop(v.tree, x);
      assert Traced(x, w, fl, txid);
      assert x.head != head || fl' == fl;
    }
  }

  /** Allocating an extent for the tree keeps the balance. */
  lemma TakeBalance(tree: set<Extent>, held: set<nat>, freed: set<nat>, stock: set<nat>, x: Extent)
    requires Balance(tree, held, freed, stock) && x.len >= 1 && PagesIn(x) !! stock
    ensures Balance(tree + {x}, held, freed, stock + PagesIn(x))
  {
    SeparateAdd(tree, x);
    TreePagesAdd(tree, x);
    hide TreePages, Separate;
  }

  /** What the latest version and the base freelist guarantee to a writer. */
  lemma WriterFacts(s: DbState, w: Work)
    requires Settled(s, w.base) && WorkOk(s, w)
    ensures s.latest in s.versions
    ensures var v := s.versions[s.latest];
      && v.meta.hwm >= 2 && w.hwm >= 2 && Separate(v.tree) && v.fl.len >= 1
      && TreePages(v.tree) !! s.fl.free && PagesIn(v.fl) !! s.fl.free
      && w.base.free <= Upto(v.meta.hwm)
  {
    StockApart(s, w);
    LatestPartition(s, w.base);
    HeadIn(s.versions[s.latest].fl);
  }

  lemma AllocTreeKeeps(s: DbState, head: nat, len: nat, content: map<nat, PageVal>)
    requires Inv(s) && Enabled(s, AllocTree(head, len, content))
    ensures Inv(Apply(s, AllocTree(head, len, content)))
  {
    hide Balance, WorkPages, WorkFreelist, NewOrOld, Upto, Run, MayTake, Take, Raise, Settled, TreePages, Separate, FreedBy, PagesOf;
    var w, s' := s.writer.work, Apply(s, AllocTree(head, len, content));
    var w', v, x := s'.writer.work, s.versions[s.latest], Extent(head, len);
    SameBase(s, s', w.base);
    WriterFacts(s, w);
    StockApart(s, w);
    TakeFresh(s, w, s.fl, head, len);
    TakeWorkPages(w, s.fl, v, s.latest + 1, head, len, content);
    AddedExtent(w.tree, v.tree, w.pages.Keys, w'.pages.Keys, x);
    WorkPagesTree(w', w.(pages := w.pages + content, hwm := Raise(s.fl, w.hwm, head, len)), s'.fl, v);
    TakeWorkFreelist(w, s.fl, v, s.latest + 1, head, len, w');
    TakeFreedBy(s.fl, s.latest + 1, head, len);
    TakeBalance(w.tree, PagesIn(HeldFl(w, v)), PagesOf(FreedBy(s.fl, s.latest + 1)), Stock(w, v), x);
    assert Stock(w', v) == Stock(w, v) + PagesIn(x);
  }

  lemma WorkPagesTree(w: Work, w': Work, fl: State, v: Version)
    requires WorkPages(w', fl, v) && w.base == w'.base && w.pages == w'.pages && w.hwm == w'.hwm
    ensures WorkPages(w, fl, v)
  {
  }

  lemma AddedExtent(tree: set<Extent>, old_: set<Extent>, pages: set<nat>, pages': set<nat>, x: Extent)
    requires NewOrOld(tree, old_, pages) && pages' == pages + PagesIn(x)
    ensures NewOrOld(tree + {x}, old_, pages')
  {
  }

  /** Settled looks only at the disk, the versions, the readers and whether a meta is being written. */
  lemma SameBase(s: DbState, s': DbState, fl: State)
    requires Settled(s, fl) && s.writer.Working? && s'.writer.Working?
    requires s'.disk == s.disk && s'.dirty == s.dirty && s'.slots == s.slots && s'.versions == s.versions
    requires s'.latest == s.latest && s'.readers == s.readers
    ensures Settled(s', fl)
  {
    hide SnapshotOk, Reads, VersionOk;
  }

  // ---------- freeing ----------

  lemma FreeRunFreedBy(fl: State, txid: nat, head: nat, len: nat, isFreelist: bool)
    ensures var fl' := FreeRun(fl, txid, head, len, isFreelist);
      && FreedBy(fl', txid) == FreedBy(fl, txid) + Stamp(Run(head, len), txid, AllocTx(fl, txid, head, isFreelist))
      && PagesOf(FreedBy(fl', txid)) == PagesOf(FreedBy(fl, txid)) + Run(head, len)
      && fl'.pending == fl.pending + Stamp(Run(head, len), txid, AllocTx(fl, txid, head, isFreelist))
  {
    var stamp := Stamp(Run(head, len), txid, AllocTx(fl, txid, head, isFreelist));
    PagesOfUnion(FreedBy(fl, txid), stamp);
    StampPages(Run(head, len), txid, AllocTx(fl, txid, head, isFreelist));
    assert FreedBy(FreeRun(fl, txid, head, len, isFreelist), txid) == FreedBy(fl, txid) + stamp;
  }

  /** A part of the tree or of the freelist pages held may be freed: it is tracked nowhere else. */
  lemma Untracked(s: DbState, w: Work, pages: set<nat>)
    requires Settled(s, w.base) && WorkOk(s, w) && s.latest in s.versions
    requires pages <= TreePages(w.tree) + PagesIn(HeldFl(w, s.versions[s.latest]))
    ensures pages !! Tracked(s.fl)
    ensures forall p :: p in pages ==> p >= 2
  {
    hide WorkPages, WorkDisk, NewOrOld, Settled, TreePages, Separate, Stock, Upto;
    StockApart(s, w);
    FreedByAll(s.fl, w.base.pending, s.latest + 1);
    UptoMono(w.hwm, w.hwm);
  }

  /** Freeing an extent keeps the freelist's bookkeeping. */
  lemma FreeWorkFreelist(w: Work, fl: State, v: Version, txid: nat, x: Extent, isFreelist: bool, w': Work)
    requires WorkFreelist(w, fl, v, txid) && x.len >= 1 && x.head >= 2 && txid >= 1
    requires PagesIn(x) !! Tracked(fl)
    requires w'.base == w.base && w'.pages == w.pages && w'.tree == w.tree - {x}
    requires x !in v.tree ==> PagesIn(x) <= w.pages.Keys || x == v.fl
    requires x in v.tree ==> x in w.tree && !isFreelist && BaseAlloc(w.base, x) < txid
    requires x == v.fl ==> x !in v.tree
    requires forall y :: y in v.tree && y != x ==> y.head != x.head
    ensures WorkFreelist(w', FreeRun(fl, txid, x.head, x.len, isFreelist), v, txid)
  {
    var fl' := FreeRun(fl, txid, x.head, x.len, isFreelist);
    FreeRunFreedBy(fl, txid, x.head, x.len, isFreelist);
    FreeRunConserves(fl, txid, x.head, x.len, isFreelist);
    FreeTraced(w, fl, v, txid, x, isFreelist, w');
    FreeOwn(w, fl, v, txid, x, isFreelist);
    hide Traced, PagesOf, WellFormed, Stamp, FreedBy;
  }

  lemma FreeOwn(w: Work, fl: State, v: Version, txid: nat, x: Extent, isFreelist: bool)
    requires WorkFreelist(w, fl, v, txid) && x.len >= 1 && PagesIn(x) !! Tracked(fl) && txid >= 1
    requires x !in v.tree ==> PagesIn(x) <= w.pages.Keys || x == v.fl
    requires x in v.tree ==> x in w.tree && !isFreelist && BaseAlloc(w.base, x) < txid
    ensures forall e :: e in Stamp(PagesIn(x), txid, AllocTx(fl, txid, x.head, isFreelist)) && OwnPage(e, txid) ==> e.page in w.pages
  {
    if x in v.tree {
      assert Traced(x, w, fl, txid);
      TracedInTree(x, w, fl, txid);
    }
  }

  /** An extent whose pages are not pending is traced by its allocs entry, the one the base freelist has. */
  lemma TracedInTree(x: Extent, w: Work, fl: State, txid: nat)
    requires Traced(x, w, fl, txid) && x.len >= 1 && PagesIn(x) !! PagesOf(fl.pending)
    ensures x.head in fl.allocs <==> x.head in w.base.allocs
    ensures x.head in fl.allocs ==> fl.allocs[x.head] == w.base.allocs[x.head]
    ensures x in w.tree
  {
    HeadIn(x);
    var e := Entry(x.head, txid, BaseAlloc(w.base, x));
    assert e in fl.pending ==> e.page in PagesOf(fl.pending);
  }

  lemma FreeTraced(w: Work, fl: State, v: Version, txid: nat, x: Extent, isFreelist: bool, w': Work)
    requires WorkFreelist(w, fl, v, txid) && x.len >= 1 && PagesIn(x) !! Tracked(fl)
    requires w'.base == w.base && w'.tree == w.tree - {x}
    requires x in v.tree ==> x in w.tree && !isFreelist
    requires forall y :: y in v.tree && y != x ==> y.head != x.head
    ensures forall y :: y in v.tree ==> Traced(y, w', FreeRun(fl, txid, x.head, x.len, isFreelist), txid)
  {
    var fl' := FreeRun(fl, txid, x.head, x.len, isFreelist);
    forall y | y in v.tree ensures Traced(y, w', fl', txid) {
      assert Traced(y, w, fl, txid);
      if y == x {
        TracedInTree(x, w, fl, txid);
        assert AllocTx(fl, txid, x.head, false) == BaseAlloc(w.base, x);
      }
    }
  }

  lemma FreeBalance(tree: set<Extent>, held: set<nat>, freed: set<nat>, stock: set<nat>, x: Extent)
    requires Balance(tree, held, freed, stock) && x in tree
    ensures Balance(tree - {x}, held, freed + PagesIn(x), stock)
  {
    TreePagesDrop(tree, x);
    hide TreePages, Separate;
  }

  lemma OtherHeads(tree: set<Extent>, tree': set<Extent>, x: Extent)
    requires Separate(tree) && Separate(tree') && x in tree'
    requires x in tree || PagesIn(x) !! TreePages(tree)
    ensures forall y :: y in tree && y != x ==> y.head != x.head
  {
    TreePagesDrop(tree', x);
    forall y | y in tree && y != x ensures y.head != x.head {
      TreePagesDrop(tree, y);
    }
  }

  lemma FreeTreeKeeps(s: DbState, x: Extent)
    requires Inv(s) && Enabled(s, FreeTree(x))
    ensures Inv(Apply(s, FreeTree(x)))
  {
    hide WorkPages, WorkFreelist, Upto, Run, Settled, TreePages, Separate, FreedBy, PagesOf, FreeRun;
    var w, s' := s.writer.work, Apply(s, FreeTree(x));
    var w', v, txid := s'.writer.work, s.versions[s.latest], s.latest + 1;
    SameBase(s, s', w.base);
    WriterFacts(s, w);
    TreePagesDrop(w.tree, x);
    Untracked(s, w, PagesIn(x));
    NewExtentApart(s, w, x);
    OtherHeads(v.tree, w.tree, x);
    BaseAllocs(s, w.base);
    FreeWorkFreelist(w, s.fl, v, txid, x, false, w');
    FreeRunFreedBy(s.fl, txid, x.head, x.len, false);
    FreeBalance(w.tree, PagesIn(HeldFl(w, v)), PagesOf(FreedBy(s.fl, txid)), Stock(w, v), x);
    FreeWorkPages(w, s.fl, v, txid, x, false);
    WorkPagesTree(w', w, s'.fl, v);
  }

  lemma FreeWorkPages(w: Work, fl: State, v: Version, txid: nat, x: Extent, isFreelist: bool)
    requires WorkPages(w, fl, v)
    ensures WorkPages(w, FreeRun(fl, txid, x.head, x.len, isFreelist), v)
  {
  }

  lemma BaseAllocs(s: DbState, base: State)
    requires Settled(s, base)
    ensures s.latest in s.versions
    ensures forall x :: x in s.versions[s.latest].tree ==> BaseAlloc(base, x) <= s.latest
  {
  }

  /** An extent of the writer's tree is one of the old tree's, or made of newly allocated pages and then apart from all old ones. */
  lemma NewExtentApart(s: DbState, w: Work, x: Extent)
    requires Settled(s, w.base) && WorkOk(s, w) && x in w.tree && s.latest in s.versions
    ensures var v := s.versions[s.latest];
      && (x !in v.tree ==> PagesIn(x) <= w.pages.Keys && PagesIn(x) !! TreePages(v.tree) && x != v.fl)
      && (x == v.fl ==> x !in v.tree)
  {
    var v := s.versions[s.latest];
    hide WorkFreelist, WorkDisk, Balance, SlotsOk, KnownVersion, Covered, SnapshotOk, Reads, Durable, Separate, TreePages, Run, Closed, PagesOf;
    assert NewOrOld(w.tree, v.tree, w.pages.Keys);
    LatestPartition(s, w.base);
    NewPagesApart(s, w);
    assert v.fl.len >= 1;
    HeadIn(v.fl);
    if x == v.fl && x in v.tree {
      TreePagesDrop(v.tree, x);
    }
  }

  lemma NewPagesApart(s: DbState, w: Work)
    requires Settled(s, w.base) && WorkOk(s, w) && s.latest in s.versions
    ensures w.pages.Keys !! TreePages(s.versions[s.latest].tree) + PagesIn(s.versions[s.latest].fl)
    ensures w.pages.Keys !! PagesOf(w.base.pending)
  {
    hide WorkFreelist, WorkDisk, Balance, NewOrOld, SlotsOk, KnownVersion, Covered, SnapshotOk, Reads, Durable, Separate, TreePages, Run, Closed, PagesOf, Upto;
    LatestPartition(s, w.base);
  }

  // ---------- the new freelist ----------

  /** Between freeing the old freelist and allocating the new one, no freelist pages are held. */
  lemma FreeHeldBalance(tree: set<Extent>, held: set<nat>, freed: set<nat>, stock: set<nat>)
    requires Balance(tree, held, freed, stock)
    ensures Balance(tree, {}, freed + held, stock)
  {
    hide TreePages, Separate;
  }

  lemma HoldNewBalance(tree: set<Extent>, freed: set<nat>, stock: set<nat>, taken: set<nat>)
    requires Balance(tree, {}, freed, stock) && taken !! stock
    ensures Balance(tree, taken, freed, stock + taken)
  {
    hide TreePages, Separate;
  }

  lemma MorePages(tree: set<Extent>, old_: set<Extent>, pages: set<nat>, pages': set<nat>)
    requires NewOrOld(tree, old_, pages) && pages <= pages'
    ensures NewOrOld(tree, old_, pages')
  {
  }

  /** The old freelist's pages are freed with an allocator older than this transaction. */
  lemma FreeOldFreelist(s: DbState, w: Work)
    requires Settled(s, w.base) && WorkOk(s, w) && w.fl.None? && s.latest in s.versions
    ensures var v := s.versions[s.latest];
      && WorkFreelist(w, FreedFreelist(s), v, s.latest + 1)
      && WorkPages(w, FreedFreelist(s), v)
      && Balance(w.tree, {}, PagesOf(FreedBy(FreedFreelist(s), s.latest + 1)), Stock(w, v))
      && FreedFreelist(s).free == s.fl.free
  {
    hide WorkPages, Upto, Run, Settled, TreePages, Separate, FreedBy, PagesOf, Balance;
    var v, txid := s.versions[s.latest], s.latest + 1;
    var x := v.fl;
    WriterFacts(s, w);
    HeadIn(x);
    Untracked(s, w, PagesIn(x));
    FreelistApart(s, w);
    FreeOldWorkFreelist(w, s.fl, v, txid);
    FreeRunFreedBy(s.fl, txid, x.head, x.len, true);
    FreeHeldBalance(w.tree, PagesIn(x), PagesOf(FreedBy(s.fl, txid)), Stock(w, v));
    FreeWorkPages(w, s.fl, v, txid, x, true);
  }

  lemma FreelistApart(s: DbState, w: Work)
    requires Settled(s, w.base) && WorkOk(s, w) && s.latest in s.versions && w.fl.None?
    ensures var v := s.versions[s.latest];
      (forall y :: y in v.tree ==> y.head != v.fl.head) && v.fl !in v.tree && v.fl !in w.tree
  {
    var v := s.versions[s.latest];
    LatestPartition(s, w.base);
    HeadIn(v.fl);
    hide Settled, WorkFreelist, WorkPages, WorkDisk, TreePages, Run;
    forall y | y in v.tree ensures y.head != v.fl.head {
      TreePagesDrop(v.tree, y);
    }
    if v.fl in w.tree {
      TreePagesDrop(w.tree, v.fl);
    }
  }

  lemma FreeOldWorkFreelist(w: Work, fl: State, v: Version, txid: nat)
    requires WorkFreelist(w, fl, v, txid) && v.fl.len >= 1 && v.fl.head >= 2 && txid >= 1
    requires PagesIn(v.fl) !! Tracked(fl)
    requires v.fl !in v.tree && v.fl !in w.tree && forall y :: y in v.tree ==> y.head != v.fl.head
    ensures WorkFreelist(w, FreeRun(fl, txid, v.fl.head, v.fl.len, true), v, txid)
  {
    var fl' := FreeRun(fl, txid, v.fl.head, v.fl.len, true);
    FreeRunFreedBy(fl, txid, v.fl.head, v.fl.len, true);
    FreeRunConserves(fl, txid, v.fl.head, v.fl.len, true);
    FreeTraced(w, fl, v, txid, v.fl, true, w);
    hide Traced, PagesOf, WellFormed, FreedBy;
    assert AllocTx(fl, txid, v.fl.head, true) < txid;
  }

  lemma CommitFreelistKeeps(s: DbState, head: nat, len: nat, content: map<nat, PageVal>)
    requires Inv(s) && Enabled(s, CommitFreelist(head, len, content))
    ensures Inv(Apply(s, CommitFreelist(head, len, content)))
  {
    hide Balance, WorkPages, WorkFreelist, NewOrOld, Upto, Run, MayTake, Take, Raise, Settled, TreePages, Separate, FreedBy, PagesOf, FreedFreelist, Tracked;
    var w, s' := s.writer.work, Apply(s, CommitFreelist(head, len, content));
    var w', v, x, freed := s'.writer.work, s.versions[s.latest], Extent(head, len), FreedFreelist(s);
    SameBase(s, s', w.base);
    WriterFacts(s, w);
    StockApart(s, w);
    FreeOldFreelist(s, w);
    TakeFresh(s, w, freed, head, len);
    TakeWorkPages(w, freed, v, s.latest + 1, head, len, content);
    MorePages(w.tree, v.tree, w.pages.Keys, w'.pages.Keys);
    WorkPagesTree(w', w.(pages := w.pages + content, hwm := Raise(freed, w.hwm, head, len)), s'.fl, v);
    TakeWorkFreelist(w, freed, v, s.latest + 1, head, len, w');
    TakeFreedBy(freed, s.latest + 1, head, len);
    HoldNewBalance(w.tree, PagesOf(FreedBy(freed, s.latest + 1)), Stock(w, v), PagesIn(x));
    assert Stock(w', v) == Stock(w, v) + PagesIn(x);
  }
}
