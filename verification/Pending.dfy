/** The pending table of the freelist: one record per freeing transaction, with two parallel lists. */
module Pending {
  import opened Pgids
  import opened FreelistSpec

  const MAX_TXID: nat := 0xFFFF_FFFF_FFFF_FFFF

  datatype TxPending = TxPending(ids: seq<nat>, alloctx: seq<nat>, lastReleaseBegin: nat)

  type Table = map<nat, TxPending>

  ghost function EntriesOf(txid: nat, t: TxPending): set<Entry> {
    set i | 0 <= i < |t.ids| && i < |t.alloctx| :: Entry(t.ids[i], txid, t.alloctx[i])
  }

  ghost function Entries(table: Table): set<Entry> {
    set txid, e | txid in table && e in EntriesOf(txid, table[txid]) :: e
  }

  /**
   * What remains pending after a sweep was allocated before the sweep began; this is what makes
   * it safe to skip a later sweep with the same beginning.
   */
  ghost predicate RecordOk(txid: nat, t: TxPending) {
    && |t.ids| == |t.alloctx|
    && Distinct(t.ids)
    && txid < MAX_TXID
    && (forall i :: 0 <= i < |t.ids| ==> t.ids[i] >= 2 && t.alloctx[i] <= txid)
    && (t.lastReleaseBegin > 0 ==> forall i :: 0 <= i < |t.alloctx| ==> t.alloctx[i] < t.lastReleaseBegin)
  }

  ghost predicate TableOk(table: Table) {
    && (forall x :: x in table ==> RecordOk(x, table[x]))
    && (forall x, y :: x in table && y in table && x != y ==> Elements(table[x].ids) !! Elements(table[y].ids))
  }

  lemma RecordPages(txid: nat, t: TxPending)
    requires |t.ids| == |t.alloctx|
    ensures PagesOf(EntriesOf(txid, t)) == Elements(t.ids)
  {
    forall p | p in Elements(t.ids) ensures p in PagesOf(EntriesOf(txid, t)) {
      var i :| 0 <= i < |t.ids| && t.ids[i] == p;
      assert Entry(t.ids[i], txid, t.alloctx[i]) in EntriesOf(txid, t);
    }
  }

  lemma TablePages(table: Table, p: nat)
    requires TableOk(table)
    ensures p in PagesOf(Entries(table)) <==> exists x :: x in table && p in table[x].ids
  {
    if p in PagesOf(Entries(table)) {
      var e :| e in Entries(table) && e.page == p;
      assert e.page in table[e.freedBy].ids;
    }
    if x :| x in table && p in table[x].ids {
      RecordPages(x, table[x]);
      assert p in PagesOf(EntriesOf(x, table[x]));
      var e :| e in EntriesOf(x, table[x]) && e.page == p;
      assert e in Entries(table);
    }
  }

  lemma EntriesAt(table: Table, e: Entry)
    ensures e in Entries(table) <==> e.freedBy in table && e in EntriesOf(e.freedBy, table[e.freedBy])
  {
  }

  lemma EntriesUnique(table: Table)
    requires TableOk(table)
    ensures OneEntryPerPage(Entries(table))
    ensures forall e :: e in Entries(table) ==> e.page >= 2 && e.allocBy <= e.freedBy < MAX_TXID
  {
    forall a, b | a in Entries(table) && b in Entries(table) && a.page == b.page ensures a == b {
      var x, y := a.freedBy, b.freedBy;
      assert a.page in Elements(table[x].ids) && b.page in Elements(table[y].ids);
      assert x == y;
    }
  }

  lemma EntriesDrop(table: Table, txid: nat)
    ensures Entries(table - {txid}) == set e | e in Entries(table) && e.freedBy != txid
  {
    forall e ensures e in Entries(table - {txid}) <==> e in Entries(table) && e.freedBy != txid {
      EntriesAt(table - {txid}, e);
      EntriesAt(table, e);
    }
  }

  lemma EntriesSet(table: Table, txid: nat, t: TxPending)
    ensures Entries(table[txid := t]) == (set e | e in Entries(table) && e.freedBy != txid) + EntriesOf(txid, t)
  {
    forall e ensures e in Entries(table[txid := t])
                <==> (e in Entries(table) && e.freedBy != txid) || e in EntriesOf(txid, t) {
      EntriesAt(table[txid := t], e);
      EntriesAt(table, e);
    }
  }

  function Last<T>(s: seq<T>): T
    requires s != []
  {
    s[|s| - 1]
  }

  /** s[i] = s[len-1]; s = s[:len-1]. */
  function SwapRemove<T>(s: seq<T>, i: nat): seq<T>
    requires i < |s|
  {
    s[i := Last(s)][..|s| - 1]
  }

  lemma SwapRemoveDistinct(s: seq<nat>, i: nat)
    requires i < |s| && Distinct(s)
    ensures Distinct(SwapRemove(s, i))
    ensures Elements(SwapRemove(s, i)) == Elements(s) - {s[i]}
  {
    var r := SwapRemove(s, i);
    forall x ensures x in Elements(r) <==> x in Elements(s) - {s[i]} {
      if x in Elements(s) - {s[i]} {
        var k :| 0 <= k < |s| && s[k] == x;
        assert if k == |s| - 1 then r[i] == x else r[k] == x;
      }
    }
  }

  lemma SwapRemoveEntries(txid: nat, t: TxPending, i: nat)
    requires |t.ids| == |t.alloctx| && Distinct(t.ids) && i < |t.ids|
    ensures EntriesOf(txid, TxPending(SwapRemove(t.ids, i), SwapRemove(t.alloctx, i), t.lastReleaseBegin))
         == EntriesOf(txid, t) - {Entry(t.ids[i], txid, t.alloctx[i])}
  {
    var t' := TxPending(SwapRemove(t.ids, i), SwapRemove(t.alloctx, i), t.lastReleaseBegin);
    var gone := Entry(t.ids[i], txid, t.alloctx[i]);
    forall e ensures e in EntriesOf(txid, t') <==> e in EntriesOf(txid, t) - {gone} {
      if e in EntriesOf(txid, t') {
        var k :| 0 <= k < |t'.ids| && e == Entry(t'.ids[k], txid, t'.alloctx[k]);
        var j := if k == i then |t.ids| - 1 else k;
        assert e == Entry(t.ids[j], txid, t.alloctx[j]) && j != i;
      }
      if e in EntriesOf(txid, t) - {gone} {
        var k :| 0 <= k < |t.ids| && e == Entry(t.ids[k], txid, t.alloctx[k]);
        var j := if k == |t.ids| - 1 then i else k;
        assert j < |t'.ids| && e == Entry(t'.ids[j], txid, t'.alloctx[j]);
      }
    }
  }
}
