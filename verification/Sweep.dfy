/** The loops of release and releaseRange over the pending table, as facts about plain values. */
module Sweep {
  import opened Pgids
  import opened FreelistSpec
  import opened Pending

  /**
   * The transactions in todo are untouched, the entries in moved have left the table,
   * and m lists their pages.
   */
  ghost predicate Sweeping(before: Table, table: Table, todo: set<nat>, m: seq<nat>, moved: set<Entry>) {
    && TableOk(before) && TableOk(table)
    && (forall x :: x in todo ==> x in before && x in table && table[x] == before[x])
    && (forall x :: x in table ==> x in before)
    && moved <= Entries(before)
    && Entries(table) == Entries(before) - moved
    && (forall e :: e in moved ==> e.freedBy !in todo)
    && Distinct(m) && Elements(m) == PagesOf(moved)
  }

  /** What release has moved once the transactions in todo remain to be looked at. */
  ghost function MovedUpTo(before: Table, todo: set<nat>, txid: nat): set<Entry> {
    set e | e in Entries(before) && e.freedBy !in todo && e.freedBy <= txid
  }

  /** The same for releaseRange. */
  ghost function MovedWithin(before: Table, todo: set<nat>, begin: nat, end: nat): set<Entry> {
    set e | e in Entries(before) && e.freedBy !in todo && Within(e, begin, end)
  }

  lemma MovedUpToStep(before: Table, todo: set<nat>, txid: nat, x: nat)
    requires x in todo && x in before && todo <= before.Keys
    ensures MovedUpTo(before, todo - {x}, txid)
         == MovedUpTo(before, todo, txid) + (if x <= txid then EntriesOf(x, before[x]) else {})
  {
    EntriesFilter(before, x);
  }

  lemma MovedWithinStep(before: Table, todo: set<nat>, begin: nat, end: nat, x: nat)
    requires x in todo && x in before && todo <= before.Keys
    ensures MovedWithin(before, todo - {x}, begin, end)
         == MovedWithin(before, todo, begin, end) + set e | e in EntriesOf(x, before[x]) && Within(e, begin, end)
  {
    EntriesFilter(before, x);
  }

  lemma SweepStart(table: Table)
    requires TableOk(table)
    ensures Sweeping(table, table, table.Keys, [], {})
  {
  }

  lemma NothingMoved(table: Table, txid: nat, begin: nat, end: nat)
    ensures MovedUpTo(table, table.Keys, txid) == {} && MovedWithin(table, table.Keys, begin, end) == {}
  {
  }

  lemma AllMoved(table: Table, txid: nat, begin: nat, end: nat)
    ensures MovedUpTo(table, {}, txid) == set e | e in Entries(table) && e.freedBy <= txid
    ensures MovedWithin(table, {}, begin, end) == set e | e in Entries(table) && Within(e, begin, end)
  {
  }

  lemma SweepKeys(before: Table, table: Table, todo: set<nat>, m: seq<nat>, moved: set<Entry>)
    requires Sweeping(before, table, todo, m, moved)
    ensures todo <= before.Keys && forall x :: x in todo ==> x in table && table[x] == before[x]
  {
  }

  lemma EmptyRange(entries: set<Entry>, begin: nat, end: nat, st: State)
    requires begin > end && st.pending == entries
    ensures ReleaseRange(st, begin, end) == st
  {
    assert (set e | e in entries && Within(e, begin, end)) == {};
    assert PagesOf({}) == {};
    assert st.free + {} == st.free && st.pending - {} == st.pending;
  }

  lemma SweptRecordOk(before: Table, x: nat)
    requires TableOk(before) && x in before
    ensures RecordOk(x, before[x])
  {
  }

  lemma NothingWithin(before: Table, x: nat, begin: nat, end: nat)
    requires TableOk(before) && x in before && begin >= 1
    requires x < begin || x > end || before[x].lastReleaseBegin == begin
    ensures (set e | e in EntriesOf(x, before[x]) && Within(e, begin, end)) == {}
  {
    if before[x].lastReleaseBegin == begin {
      SkipIsExact(x, before[x], begin, end);
    }
  }

  lemma RecordLengths(x: nat, r: TxPending)
    requires RecordOk(x, r)
    ensures |r.ids| == |r.alloctx|
  {
  }

  lemma SkipStep(before: Table, table: Table, todo: set<nat>, m: seq<nat>, moved: set<Entry>, x: nat)
    requires Sweeping(before, table, todo, m, moved) && x in todo
    ensures Sweeping(before, table, todo - {x}, m, moved)
  {
  }

  lemma EntriesFilter(table: Table, x: nat)
    ensures Entries(table - {x}) == Entries(table) - (if x in table then EntriesOf(x, table[x]) else {})
    ensures x in table ==> EntriesOf(x, table[x]) <= Entries(table)
  {
    EntriesDrop(table, x);
  }

  lemma AppendGone(m: seq<nat>, moved: set<Entry>, list: seq<nat>, gone: set<Entry>, all: set<Entry>)
    requires Distinct(m) && Elements(m) == PagesOf(moved) && Distinct(list) && Elements(list) == PagesOf(gone)
    requires OneEntryPerPage(all) && moved <= all && gone <= all && moved !! gone
    ensures Distinct(m + list) && Elements(m + list) == PagesOf(moved + gone)
  {
    ElementsAppend(m, list);
    PagesOfUnion(moved, gone);
    assert Elements(m) !! Elements(list);
    DistinctAppend(m, list);
  }

  lemma DistinctAppend(a: seq<nat>, b: seq<nat>)
    requires Distinct(a) && Distinct(b) && Elements(a) !! Elements(b)
    ensures Distinct(a + b)
  {
    assert forall i :: 0 <= i < |a| ==> a[i] in Elements(a);
    assert forall i :: 0 <= i < |b| ==> b[i] in Elements(b);
  }

  /** One transaction's record leaves the table as a whole. */
  lemma DropStep(before: Table, table: Table, todo: set<nat>, m: seq<nat>, moved: set<Entry>, x: nat)
    requires Sweeping(before, table, todo, m, moved) && x in todo
    ensures Sweeping(before, table - {x}, todo - {x}, m + before[x].ids, moved + EntriesOf(x, before[x]))
  {
    var gone := EntriesOf(x, before[x]);
    EntriesFilter(table, x);
    EntriesFilter(before, x);
    RecordPages(x, before[x]);
    EntriesUnique(before);
    AppendGone(m, moved, before[x].ids, gone, Entries(before));
    hide Distinct, Elements, PagesOf, RecordOk;
    assert Entries(table - {x}) == Entries(before) - (moved + gone);
  }

  /** One transaction's record shrinks to t; the pages in list have left it. */
  lemma ShrinkStep(before: Table, table: Table, todo: set<nat>, m: seq<nat>, moved: set<Entry>, x: nat,
                   t: TxPending, list: seq<nat>, gone: set<Entry>) returns (table': Table)
    requires Sweeping(before, table, todo, m, moved) && x in todo
    requires RecordOk(x, t) && EntriesOf(x, t) == EntriesOf(x, before[x]) - gone && gone <= EntriesOf(x, before[x])
    requires Elements(t.ids) <= Elements(before[x].ids)
    requires Distinct(list) && Elements(list) == PagesOf(gone)
    ensures table' == if |t.ids| == 0 then table - {x} else table[x := t]
    ensures Sweeping(before, table', todo - {x}, m + list, moved + gone)
  {
    table' := if |t.ids| == 0 then table - {x} else table[x := t];
    EntriesFilter(table, x);
    EntriesFilter(before, x);
    EntriesSet(table, x, t);
    EntriesUnique(before);
    AppendGone(m, moved, list, gone, Entries(before));
    ShrinkEntries(table, x, t, table');
    ShrinkTableOk(table, x, t, table');
    assert gone <= Entries(before);
    assert Entries(table') == Entries(before) - (moved + gone) by {
      assert Entries(table') == (Entries(table) - EntriesOf(x, table[x])) + EntriesOf(x, t);
    }
  }

  lemma ShrinkEntries(table: Table, x: nat, t: TxPending, table': Table)
    requires x in table && |t.ids| == |t.alloctx|
    requires table' == if |t.ids| == 0 then table - {x} else table[x := t]
    ensures Entries(table') == (Entries(table) - EntriesOf(x, table[x])) + EntriesOf(x, t)
  {
    EntriesFilter(table, x);
    EntriesDrop(table, x);
    EntriesSet(table, x, t);
    if |t.ids| == 0 {
      assert EntriesOf(x, t) == {};
    }
  }

  lemma ShrinkTableOk(table: Table, x: nat, t: TxPending, table': Table)
    requires TableOk(table) && x in table && RecordOk(x, t) && Elements(t.ids) <= Elements(table[x].ids)
    requires table' == if |t.ids| == 0 then table - {x} else table[x := t]
    ensures TableOk(table')
  {
    hide RecordOk, Elements;
    forall y, z | y in table' && z in table' && y != z ensures Elements(table'[y].ids) !! Elements(table'[z].ids) {
      assert Elements(table[y].ids) !! Elements(table[z].ids);
    }
  }

  /** releaseRange inside one record: t is what is left of r, positions below i stay, m lists the pages taken. */
  ghost predicate Picking(x: nat, r: TxPending, t: TxPending, i: nat, m: seq<nat>, gone: set<Entry>, begin: nat, end: nat) {
    && |t.ids| == |t.alloctx| && i <= |t.ids| && Distinct(t.ids)
    && (forall k :: 0 <= k < i ==> !Within(Entry(t.ids[k], x, t.alloctx[k]), begin, end))
    && gone <= EntriesOf(x, r) && EntriesOf(x, t) == EntriesOf(x, r) - gone
    && (forall e :: e in gone ==> Within(e, begin, end))
    && Distinct(m) && Elements(m) == PagesOf(gone)
  }

  lemma PickStart(x: nat, r: TxPending, begin: nat, end: nat)
    requires RecordOk(x, r)
    ensures Picking(x, r, r, 0, [], {}, begin, end)
  {
  }

  lemma PickStep(x: nat, r: TxPending, t: TxPending, i: nat, m: seq<nat>, gone: set<Entry>, begin: nat, end: nat, b: nat)
    requires RecordOk(x, r) && Picking(x, r, t, i, m, gone, begin, end) && i < |t.ids|
    requires Within(Entry(t.ids[i], x, t.alloctx[i]), begin, end)
    ensures Picking(x, r, TxPending(SwapRemove(t.ids, i), SwapRemove(t.alloctx, i), b), i,
                    m + [t.ids[i]], gone + {Entry(t.ids[i], x, t.alloctx[i])}, begin, end)
  {
    var e := Entry(t.ids[i], x, t.alloctx[i]);
    var t' := TxPending(SwapRemove(t.ids, i), SwapRemove(t.alloctx, i), b);
    SwapRemoveDistinct(t.ids, i);
    SwapRemoveEntries(x, t, i);
    assert EntriesOf(x, t') == EntriesOf(x, TxPending(t'.ids, t'.alloctx, t.lastReleaseBegin));
    assert e in EntriesOf(x, t);
    RecordUnique(x, r);
    assert PagesOf({e}) == {e.page} == Elements([e.page]);
    AppendGone(m, gone, [e.page], {e}, EntriesOf(x, r));
    hide Elements, PagesOf, RecordOk, Distinct;
    assert EntriesOf(x, t') == EntriesOf(x, r) - (gone + {e});
    forall k | 0 <= k < i ensures !Within(Entry(t'.ids[k], x, t'.alloctx[k]), begin, end) {
      assert t'.ids[k] == t.ids[k] && t'.alloctx[k] == t.alloctx[k];
    }
  }

  lemma RecordUnique(x: nat, r: TxPending)
    requires RecordOk(x, r)
    ensures OneEntryPerPage(EntriesOf(x, r))
  {
  }

  /** At the end everything in range is gone and the rest was allocated before the range began. */
  lemma PickDone(x: nat, r: TxPending, t: TxPending, m: seq<nat>, gone: set<Entry>, begin: nat, end: nat)
    requires RecordOk(x, r) && 1 <= begin <= x <= end
    requires Picking(x, r, t, |t.ids|, m, gone, begin, end) && t.lastReleaseBegin == begin
    ensures RecordOk(x, t)
    ensures gone == set e | e in EntriesOf(x, r) && Within(e, begin, end)
    ensures Elements(t.ids) <= Elements(r.ids)
  {
    forall k | 0 <= k < |t.ids|
      ensures t.ids[k] >= 2 && t.alloctx[k] <= x && t.alloctx[k] < begin && t.ids[k] in Elements(r.ids)
    {
      assert Entry(t.ids[k], x, t.alloctx[k]) in EntriesOf(x, t);
    }
    forall e | e in EntriesOf(x, r) && Within(e, begin, end) ensures e in gone {
      assert e !in EntriesOf(x, t);
    }
  }

  /** A record already swept from the same beginning holds nothing in range: skipping it loses nothing. */
  lemma SkipIsExact(x: nat, r: TxPending, begin: nat, end: nat)
    requires RecordOk(x, r) && begin >= 1 && r.lastReleaseBegin == begin
    ensures forall e :: e in EntriesOf(x, r) ==> !Within(e, begin, end)
  {
  }

  /** rollback after the first k pages of the record: what was restored, what is thrown away. */
  ghost predicate Undoing(x: nat, r: TxPending, k: nat, cache0: set<nat>, cache: set<nat>,
                          allocs0: map<nat, nat>, allocs: map<nat, nat>, m: seq<nat>) {
    && RecordOk(x, r) && k <= |r.ids|
    && OneEntryPerPage(EntriesOf(x, Prefix(r, k)))
    && cache == cache0 - PagesOf(EntriesOf(x, Prefix(r, k)))
    && allocs == allocs0 + Restored(EntriesOf(x, Prefix(r, k)), x)
    && Distinct(m) && Elements(m) == PagesOf(OwnPages(EntriesOf(x, Prefix(r, k)), x))
  }

  ghost function OwnPages(entries: set<Entry>, txid: nat): set<Entry> {
    set e | e in entries && OwnPage(e, txid)
  }

  ghost function Prefix(r: TxPending, k: nat): TxPending
    requires k <= |r.ids| == |r.alloctx|
  {
    TxPending(r.ids[..k], r.alloctx[..k], 0)
  }

  lemma UndoStart(x: nat, r: TxPending, cache: set<nat>, allocs: map<nat, nat>)
    requires RecordOk(x, r)
    ensures Undoing(x, r, 0, cache, cache, allocs, allocs, [])
  {
    assert EntriesOf(x, Prefix(r, 0)) == {};
  }

  lemma PrefixNext(x: nat, r: TxPending, k: nat)
    requires RecordOk(x, r) && k < |r.ids|
    ensures EntriesOf(x, Prefix(r, k + 1)) == EntriesOf(x, Prefix(r, k)) + {Entry(r.ids[k], x, r.alloctx[k])}
    ensures r.ids[k] !in PagesOf(EntriesOf(x, Prefix(r, k)))
    ensures OneEntryPerPage(EntriesOf(x, Prefix(r, k + 1)))
  {
    var p, q := Prefix(r, k), Prefix(r, k + 1);
    forall e | e in EntriesOf(x, p) ensures e in EntriesOf(x, q) {
      var i :| 0 <= i < k && e == Entry(p.ids[i], x, p.alloctx[i]);
      assert e == Entry(q.ids[i], x, q.alloctx[i]);
    }
    assert Entry(q.ids[k], x, q.alloctx[k]) == Entry(r.ids[k], x, r.alloctx[k]);
    RecordUnique(x, TxPending(q.ids, q.alloctx, 0));
  }

  lemma UndoStep(x: nat, r: TxPending, k: nat, cache0: set<nat>, cache: set<nat>,
                 allocs0: map<nat, nat>, allocs: map<nat, nat>, m: seq<nat>)
    requires Undoing(x, r, k, cache0, cache, allocs0, allocs, m) && k < |r.ids|
    ensures var id, tx := r.ids[k], r.alloctx[k];
      Undoing(x, r, k + 1, cache0, cache - {id}, allocs0,
              if tx != 0 && tx != x then allocs[id := tx] else allocs,
              if tx != 0 && tx == x then m + [id] else m)
  {
    var e := Entry(r.ids[k], x, r.alloctx[k]);
    var es, es' := EntriesOf(x, Prefix(r, k)), EntriesOf(x, Prefix(r, k + 1));
    PrefixNext(x, r, k);
    assert PagesOf({e}) == {e.page};
    PagesOfUnion(es, {e});
    RestoredNext(es, e, x, allocs0);
    OwnNext(es, e, x);
    if OwnPage(e, x) {
      assert e.page !in PagesOf(es);
      assert OwnPages(es, x) <= es;
      assert Elements([e.page]) == {e.page};
      AppendGone(m, OwnPages(es, x), [e.page], {e}, es');
    }
  }

  lemma UndoneAll(x: nat, r: TxPending)
    requires RecordOk(x, r)
    ensures EntriesOf(x, Prefix(r, |r.ids|)) == EntriesOf(x, r)
  {
    assert r.ids[..|r.ids|] == r.ids && r.alloctx[..|r.alloctx|] == r.alloctx;
  }

  lemma UndoEnd(x: nat, r: TxPending, cache0: set<nat>, cache: set<nat>,
                allocs0: map<nat, nat>, allocs: map<nat, nat>, m: seq<nat>)
    requires RecordOk(x, r) && Undoing(x, r, |r.ids|, cache0, cache, allocs0, allocs, m)
    ensures OneEntryPerPage(EntriesOf(x, r))
    ensures cache == cache0 - PagesOf(EntriesOf(x, r))
    ensures allocs == allocs0 + Restored(EntriesOf(x, r), x)
    ensures Distinct(m) && Elements(m) == PagesOf(OwnPages(EntriesOf(x, r), x))
    ensures m == [] <==> forall e :: e in EntriesOf(x, r) ==> !OwnPage(e, x)
  {
    UndoneAll(x, r);
    EmptyElements(m);
    forall e | e in OwnPages(EntriesOf(x, r), x) ensures e.page in Elements(m) {
    }
  }

  lemma FreedByRecord(table: Table, x: nat)
    ensures (set e | e in Entries(table) && e.freedBy == x) == if x in table then EntriesOf(x, table[x]) else {}
  {
    EntriesFilter(table, x);
    EntriesDrop(table, x);
  }

  lemma RestoredNext(es: set<Entry>, e: Entry, x: nat, allocs0: map<nat, nat>)
    requires OneEntryPerPage(es + {e}) && OneEntryPerPage(es)
    ensures allocs0 + Restored(es + {e}, x)
         == if e.allocBy != 0 && e.allocBy != x then (allocs0 + Restored(es, x))[e.page := e.allocBy] else allocs0 + Restored(es, x)
  {
    var a, b := Restored(es, x), Restored(es + {e}, x);
    if e.allocBy != 0 && e.allocBy != x {
      RestoredAdd(es, e, x);
      assert allocs0 + a[e.page := e.allocBy] == (allocs0 + a)[e.page := e.allocBy];
    } else {
      RestoredKeep(es, e, x);
    }
  }

  lemma RestoredAt(es: set<Entry>, x: nat, f: Entry)
    requires OneEntryPerPage(es) && f in es && f.allocBy != 0 && f.allocBy != x
    ensures f.page in Restored(es, x) && Restored(es, x)[f.page] == f.allocBy
  {
  }

  lemma RestoredFrom(es: set<Entry>, x: nat, p: nat) returns (f: Entry)
    requires OneEntryPerPage(es) && p in Restored(es, x)
    ensures f in es && f.allocBy != 0 && f.allocBy != x && f.page == p && Restored(es, x)[p] == f.allocBy
  {
    f :| f in es && f.allocBy != 0 && f.allocBy != x && f.page == p;
  }

  lemma RestoredKeep(es: set<Entry>, e: Entry, x: nat)
    requires OneEntryPerPage(es + {e}) && OneEntryPerPage(es) && !(e.allocBy != 0 && e.allocBy != x)
    ensures Restored(es + {e}, x) == Restored(es, x)
  {
    hide Restored, OneEntryPerPage;
    forall p | p in Restored(es + {e}, x) ensures p in Restored(es, x) && Restored(es + {e}, x)[p] == Restored(es, x)[p] {
      var f := RestoredFrom(es + {e}, x, p);
      RestoredAt(es, x, f);
    }
    forall p | p in Restored(es, x) ensures p in Restored(es + {e}, x) {
      var f := RestoredFrom(es, x, p);
      RestoredAt(es + {e}, x, f);
    }
  }

  lemma RestoredAdd(es: set<Entry>, e: Entry, x: nat)
    requires OneEntryPerPage(es + {e}) && OneEntryPerPage(es) && e.allocBy != 0 && e.allocBy != x
    ensures Restored(es + {e}, x) == Restored(es, x)[e.page := e.allocBy]
  {
    hide Restored, OneEntryPerPage;
    var a, b := Restored(es, x)[e.page := e.allocBy], Restored(es + {e}, x);
    RestoredAt(es + {e}, x, e);
    forall p | p in b ensures p in a && b[p] == a[p] {
      var f := RestoredFrom(es + {e}, x, p);
      if f != e {
        RestoredAt(es, x, f);
        RestoredAt(es + {e}, x, f);
      }
    }
    forall p | p in a ensures p in b {
      if p != e.page {
        var f := RestoredFrom(es, x, p);
        RestoredAt(es + {e}, x, f);
      }
    }
  }

  lemma OwnNext(es: set<Entry>, e: Entry, x: nat)
    ensures OwnPages(es + {e}, x) == if OwnPage(e, x) then OwnPages(es, x) + {e} else OwnPages(es, x)
  {
  }
}
