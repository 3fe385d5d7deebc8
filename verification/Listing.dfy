/** Listing the free pages of a span index and the pages of the pending table, as facts about plain values. */
module Listing {
  import opened Pgids
  import opened Spans
  import opened FreelistSpec
  import opened Pending
  import opened Sweep

  function RunSeq(start: nat, size: nat): seq<nat> {
    seq(size, i => start + i)
  }

  lemma RunSeqFacts(start: nat, size: nat)
    ensures Distinct(RunSeq(start, size)) && Elements(RunSeq(start, size)) == Run(start, size)
    ensures |Run(start, size)| == size
  {
    var r := RunSeq(start, size);
    forall x | x in Run(start, size) ensures x in Elements(r) {
      assert r[x - start] == x;
    }
    DistinctMultiset(r);
  }

  /** The spans in todo are still to be listed; rest is the index of just those. */
  ghost predicate ListingSpans(ix: Index, rest: Index, todo: set<nat>, m: seq<nat>) {
    && Consistent(rest) && rest.forward.Keys == todo
    && (forall s :: s in todo ==> s in ix.forward && rest.forward[s] == ix.forward[s])
    && Distinct(m) && Pages(rest) <= Pages(ix) && Elements(m) == Pages(ix) - Pages(rest)
  }

  lemma ListStart(ix: Index)
    requires Consistent(ix)
    ensures ListingSpans(ix, ix, ix.forward.Keys, [])
  {
  }

  lemma ListStep(ix: Index, rest: Index, todo: set<nat>, m: seq<nat>, s: nat)
    requires ListingSpans(ix, rest, todo, m) && s in todo
    ensures s in ix.forward && rest.forward[s] == ix.forward[s] >= 1
    ensures ListingSpans(ix, Del(rest, s, ix.forward[s]), todo - {s}, m + RunSeq(s, ix.forward[s]))
  {
    hide Consistent, Pages, RunSeq, Run, Distinct, Elements;
    var size := rest.forward[s];
    DelConsistent(rest, s, size);
    RunSeqFacts(s, size);
    assert Elements(m) !! Run(s, size);
    DistinctAppend(m, RunSeq(s, size));
    ElementsAppend(m, RunSeq(s, size));
    assert Pages(ix) - (Pages(rest) - Run(s, size)) == (Pages(ix) - Pages(rest)) + Run(s, size);
  }

  lemma ListDone(ix: Index, rest: Index, m: seq<nat>)
    requires ListingSpans(ix, rest, {}, m)
    ensures Distinct(m) && Elements(m) == Pages(ix) && |m| == |Pages(ix)|
  {
    assert Pages(rest) == {};
    DistinctMultiset(m);
  }

  /** All pages of a table, once every transaction's record has been taken out of a copy of it. */
  lemma AllListed(table: Table, rest: Table, m: seq<nat>, moved: set<Entry>)
    requires Sweeping(table, rest, {}, m, moved) && moved == MovedUpTo(table, {}, MAX_TXID)
    ensures Distinct(m) && Elements(m) == PagesOf(Entries(table)) && |m| == |PagesOf(Entries(table))|
  {
    EntriesUnique(table);
    assert moved == Entries(table);
    DistinctMultiset(m);
  }

  /** The number of 8-byte words a freelist page needs for n ids: counts from 0xFFFF on are stored in the first word. */
  function WordsFor(n: nat): nat {
    if n >= 0xFFFF then n + 1 else n
  }

  const PAGE_HEADER_SIZE: nat := 16
  const PGID_SIZE: nat := 8

  /** The ids a freelist page holds. */
  function Decoded(count: nat, words: seq<nat>): seq<nat>
    requires WordsOk(count, words)
  {
    if count == 0xFFFF then words[1..1 + words[0]] else words[..count]
  }

  /** The page is long enough for the count it announces. */
  predicate WordsOk(count: nat, words: seq<nat>) {
    if count == 0xFFFF then |words| >= 1 && 1 + words[0] <= |words| else count <= |words|
  }

  /** Reading back what write stores gives the listing, below and above the 16-bit count limit. */
  lemma DecodeStored(listing: seq<nat>, words: seq<nat>, count: nat)
    requires WordsFor(|listing|) <= |words|
    requires count == if |listing| < 0xFFFF then |listing| else 0xFFFF
    requires if |listing| < 0xFFFF then words[..|listing|] == listing
             else words[0] == |listing| && words[1..1 + |listing|] == listing
    ensures WordsOk(count, words) && Decoded(count, words) == listing
  {
  }

  /** The pages commitFreelist asks for always hold the freelist that is then written, because allocating never grows it. */
  lemma CommitFits(before: nat, after: nat, pageSize: nat, pages: nat)
    requires pageSize > PAGE_HEADER_SIZE && after <= before
    requires pages == (PAGE_HEADER_SIZE + PGID_SIZE * WordsFor(before)) / pageSize + 1
    ensures PAGE_HEADER_SIZE + PGID_SIZE * WordsFor(after) <= pages * pageSize
    ensures WordsFor(after) <= (pages * pageSize - PAGE_HEADER_SIZE) / PGID_SIZE
  {
    var size := PAGE_HEADER_SIZE + PGID_SIZE * WordsFor(before);
    assert size == (size / pageSize) * pageSize + size % pageSize;
    assert pages * pageSize == (size / pageSize) * pageSize + pageSize;
  }

  lemma RunSeqLength(start: nat, size: nat)
    ensures |RunSeq(start, size)| == size
  {
  }

  lemma RunSeqNext(before: seq<nat>, start: nat, i: nat)
    ensures before + RunSeq(start, i) + [start + i] == before + RunSeq(start, i + 1)
    ensures before + RunSeq(start, 0) == before
  {
  }

  lemma ListsMerge(free: seq<nat>, m: seq<nat>)
    requires StrictlySorted(free)
    ensures Sorted(free) && Sorted(Sort(m))
  {
  }

  lemma ListsMerged(free: seq<nat>, m: seq<nat>, merged: seq<nat>)
    requires StrictlySorted(free) && Distinct(m) && Elements(free) !! Elements(m)
    requires Sorted(merged) && multiset(merged) == multiset(free) + multiset(Sort(m))
    ensures StrictlySorted(merged) && Elements(merged) == Elements(free) + Elements(m) && |merged| == |free| + |m|
  {
    SortDistinct(m);
    MergedUnion(free, Sort(m), merged);
  }
}
