/**
 * The span index of the hashmap freelist: forward (start to size), backward (end to size) and
 * buckets (size to the set of starts), as one value, with the facts its updates rely on.
 */
module Spans {
  import opened Pgids

  datatype Index = Index(forward: map<nat, nat>, backward: map<nat, nat>, buckets: map<nat, set<nat>>)

  const NO_SPANS := Index(map[], map[], map[])

  /** Spans are non-empty, disjoint and never adjacent, so each is a maximal block of free pages. */
  ghost predicate Maximal(fwd: map<nat, nat>) {
    && (forall s :: s in fwd ==> fwd[s] >= 1)
    && (forall s, t :: s in fwd && t in fwd && s < t ==> s + fwd[s] < t)
  }

  /** The backward map holds each span once more, under its last page. */
  ghost predicate Mirrored(fwd: map<nat, nat>, bwd: map<nat, nat>) {
    && (forall s {:trigger EndKnown(fwd, bwd, s)} :: s in fwd ==> EndKnown(fwd, bwd, s))
    && (forall e {:trigger StartKnown(fwd, bwd, e)} :: e in bwd ==> StartKnown(fwd, bwd, e))
  }

  ghost predicate EndKnown(fwd: map<nat, nat>, bwd: map<nat, nat>, s: nat) {
    s in fwd && s + fwd[s] - 1 in bwd && bwd[s + fwd[s] - 1] == fwd[s]
  }

  ghost predicate StartKnown(fwd: map<nat, nat>, bwd: map<nat, nat>, e: nat) {
    e in bwd && 1 <= bwd[e] <= e + 1 && e + 1 - bwd[e] in fwd && fwd[e + 1 - bwd[e]] == bwd[e]
  }

  /** The buckets group the span starts by size, and no bucket is empty. */
  ghost predicate Grouped(fwd: map<nat, nat>, buckets: map<nat, set<nat>>) {
    && (forall n :: n in buckets ==> buckets[n] != {})
    && (forall n, s :: n in buckets && s in buckets[n] ==> s in fwd && fwd[s] == n)
    && (forall s :: s in fwd ==> fwd[s] in buckets && s in buckets[fwd[s]])
  }

  /** The three maps describe the same maximal spans. */
  ghost predicate Consistent(ix: Index) {
    Maximal(ix.forward) && Mirrored(ix.forward, ix.backward) && Grouped(ix.forward, ix.buckets)
  }

  /** The free pages an index stands for. */
  ghost function Pages(ix: Index): set<nat> {
    set s, x | s in ix.forward && x in Run(s, ix.forward[s]) :: x
  }

  lemma PageCovered(ix: Index, x: nat)
    ensures x in Pages(ix) <==> exists s :: s in ix.forward && s <= x < s + ix.forward[s]
  {
    if s :| s in ix.forward && s <= x < s + ix.forward[s] {
      assert x in Run(s, ix.forward[s]);
    }
  }

  function BucketAdd(buckets: map<nat, set<nat>>, start: nat, size: nat): map<nat, set<nat>> {
    buckets[size := (if size in buckets then buckets[size] else {}) + {start}]
  }

  function BucketDel(buckets: map<nat, set<nat>>, start: nat, size: nat): map<nat, set<nat>> {
    if size !in buckets then buckets
    else if buckets[size] - {start} == {} then buckets - {size}
    else buckets[size := buckets[size] - {start}]
  }

  /** addSpan, for a span of at least one page. */
  function Add(ix: Index, start: nat, size: nat): Index
    requires size >= 1
  {
    Index(ix.forward[start := size], ix.backward[start + size - 1 := size], BucketAdd(ix.buckets, start, size))
  }

  /** delSpan, for a span of at least one page. */
  function Del(ix: Index, start: nat, size: nat): Index
    requires size >= 1
  {
    Index(ix.forward - {start}, ix.backward - {start + size - 1}, BucketDel(ix.buckets, start, size))
  }

  /** A span may be added when it neither meets nor touches an existing one. */
  ghost predicate Apart(fwd: map<nat, nat>, start: nat, size: nat) {
    forall t :: t in fwd ==> t + fwd[t] < start || start + size < t
  }

  lemma AddConsistent(ix: Index, start: nat, size: nat)
    requires Consistent(ix) && size >= 1 && Apart(ix.forward, start, size)
    ensures Consistent(Add(ix, start, size))
    ensures Pages(Add(ix, start, size)) == Pages(ix) + Run(start, size)
  {
    AddMirrored(ix.forward, ix.backward, start, size);
    AddGrouped(ix.forward, ix.buckets, start, size);
    AddPages(ix, start, size);
  }

  lemma AddMirrored(fwd: map<nat, nat>, bwd: map<nat, nat>, start: nat, size: nat)
    requires Maximal(fwd) && Mirrored(fwd, bwd) && size >= 1 && Apart(fwd, start, size)
    ensures Mirrored(fwd[start := size], bwd[start + size - 1 := size])
  {
    var fwd', bwd' := fwd[start := size], bwd[start + size - 1 := size];
    forall e | e in bwd' ensures StartKnown(fwd', bwd', e) {
      if e != start + size - 1 {
        assert StartKnown(fwd, bwd, e);
      }
    }
    forall s | s in fwd' ensures EndKnown(fwd', bwd', s) {
      if s != start {
        assert EndKnown(fwd, bwd, s);
      }
    }
  }

  lemma AddGrouped(fwd: map<nat, nat>, buckets: map<nat, set<nat>>, start: nat, size: nat)
    requires Grouped(fwd, buckets) && start !in fwd
    ensures Grouped(fwd[start := size], BucketAdd(buckets, start, size))
  {
  }

  lemma AddPages(ix: Index, start: nat, size: nat)
    requires start !in ix.forward && size >= 1
    ensures Pages(Add(ix, start, size)) == Pages(ix) + Run(start, size)
  {
    var fwd, fwd' := ix.forward, ix.forward[start := size];
    forall x ensures x in Pages(Add(ix, start, size)) <==> x in Pages(ix) + Run(start, size) {
      if x in Pages(ix) {
        var s :| s in fwd && x in Run(s, fwd[s]);
        assert s in fwd' && x in Run(s, fwd'[s]);
      }
      if x in Run(start, size) {
        assert start in fwd' && x in Run(start, fwd'[start]);
      }
    }
  }

  lemma DelConsistent(ix: Index, start: nat, size: nat)
    requires Consistent(ix) && start in ix.forward && ix.forward[start] == size
    ensures size >= 1 && Consistent(Del(ix, start, size))
    ensures Apart(ix.forward - {start}, start, size)
    ensures Pages(Del(ix, start, size)) == Pages(ix) - Run(start, size)
    ensures Run(start, size) <= Pages(ix)
  {
    hide Mirrored, Grouped, Pages, Run;
    DelMirrored(ix.forward, ix.backward, start, size);
    DelGrouped(ix.forward, ix.buckets, start, size);
    DelPages(ix, start);
    forall t | t in ix.forward && t != start ensures t + ix.forward[t] < start || start + size < t {
      assert t < start || start < t;
    }
  }

  lemma DelMirrored(fwd: map<nat, nat>, bwd: map<nat, nat>, start: nat, size: nat)
    requires Maximal(fwd) && Mirrored(fwd, bwd) && start in fwd && fwd[start] == size
    ensures Mirrored(fwd - {start}, bwd - {start + size - 1})
  {
    var fwd', bwd' := fwd - {start}, bwd - {start + size - 1};
    forall e | e in bwd' ensures StartKnown(fwd', bwd', e) {
      assert StartKnown(fwd, bwd, e);
    }
    forall s | s in fwd' ensures EndKnown(fwd', bwd', s) {
      assert EndKnown(fwd, bwd, s);
      assert s < start || start < s;
    }
  }

  lemma DelGrouped(fwd: map<nat, nat>, buckets: map<nat, set<nat>>, start: nat, size: nat)
    requires Grouped(fwd, buckets) && start in fwd && fwd[start] == size
    ensures Grouped(fwd - {start}, BucketDel(buckets, start, size))
  {
  }

  lemma DelPages(ix: Index, start: nat)
    requires Maximal(ix.forward) && start in ix.forward
    ensures Pages(Del(ix, start, ix.forward[start])) == Pages(ix) - Run(start, ix.forward[start])
    ensures Run(start, ix.forward[start]) <= Pages(ix)
  {
    var fwd: map<nat, nat> := ix.forward;
    var fwd': map<nat, nat> := fwd - {start};
    forall x | x in Pages(Del(ix, start, fwd[start])) ensures x in Pages(ix) && x !in Run(start, fwd[start]) {
      var s :| s in fwd' && x in Run(s, fwd'[s]);
      assert s in fwd && x in Run(s, fwd[s]);
      assert s < start || start < s;
    }
    forall x | x in Pages(ix) && x !in Run(start, fwd[start]) ensures x in Pages(Del(ix, start, fwd[start])) {
      var s :| s in fwd && x in Run(s, fwd[s]);
      assert s in fwd' && x in Run(s, fwd'[s]);
    }
  }

  function Lookup(m: map<nat, nat>, k: int): nat {
    if k in m then m[k] else 0
  }

  /** What mergeWithExistingSpan computes, as a value: first the span before pid goes, then the one after, then their union comes. */
  function Merged(ix: Index, pid: nat): Index
    requires pid >= 1 && Lookup(ix.backward, pid - 1) <= pid
  {
    var before, after := Lookup(ix.backward, pid - 1), Lookup(ix.forward, pid + 1);
    var ix1 := if before > 0 then Del(ix, pid - before, before) else ix;
    var ix2 := if after > 0 then Del(ix1, pid + 1, after) else ix1;
    Add(ix2, pid - before, before + 1 + after)
  }

  /** The spans around a page that is not free. */
  lemma Neighbours(ix: Index, pid: nat)
    requires Consistent(ix) && pid !in Pages(ix) && pid >= 1
    ensures var k := Lookup(ix.backward, pid - 1);
      k <= pid && (k > 0 <==> pid - 1 in ix.backward) && (k > 0 ==> pid - k in ix.forward && ix.forward[pid - k] == k)
    ensures pid + 1 in ix.forward <==> Lookup(ix.forward, pid + 1) > 0
    ensures forall t :: t in ix.forward ==> t + ix.forward[t] <= pid || pid < t
    ensures pid - 1 !in ix.backward ==> forall t :: t in ix.forward ==> t + ix.forward[t] != pid
  {
    if pid - 1 in ix.backward {
      assert StartKnown(ix.forward, ix.backward, pid - 1);
    }
    forall t | t in ix.forward
      ensures t + ix.forward[t] <= pid || pid < t
      ensures pid - 1 !in ix.backward ==> t + ix.forward[t] != pid
    {
      PageCovered(ix, pid);
      assert !(t <= pid < t + ix.forward[t]);
      assert EndKnown(ix.forward, ix.backward, t);
    }
  }

  lemma RunJoin(start: nat, a: nat, b: nat)
    ensures Run(start, a + 1 + b) == Run(start, a) + {start + a} + Run(start + a + 1, b)
    ensures a == 0 ==> Run(start, a) == {}
    ensures a > 0 ==> start in Run(start, a)
    ensures b == 0 ==> Run(start + a + 1, b) == {}
  {
  }

  lemma PutBack(s0: set<nat>, s1: set<nat>, s2: set<nat>, a: set<nat>, x: nat, b: set<nat>)
    requires s1 == s0 - a && s2 == s1 - b && a <= s0 && b <= s1
    ensures s2 + (a + {x} + b) == s0 + {x}
  {
  }

  /** Once the spans next to a page are taken out, the block that joins them with the page touches nothing else. */
  lemma ApartJoined(fwd0: map<nat, nat>, fwd1: map<nat, nat>, fwd2: map<nat, nat>, pid: nat, before: nat, after: nat)
    requires before <= pid
    requires forall t :: t in fwd0 ==> t + fwd0[t] <= pid || pid < t
    requires if before > 0 then fwd1 == fwd0 - {pid - before} && Apart(fwd1, pid - before, before)
             else fwd1 == fwd0 && forall t :: t in fwd0 ==> t + fwd0[t] != pid
    requires if after > 0 then fwd2 == fwd1 - {pid + 1} && Apart(fwd2, pid + 1, after)
             else fwd2 == fwd1 && pid + 1 !in fwd1
    ensures Apart(fwd2, pid - before, before + 1 + after)
  {
    forall t | t in fwd2 ensures t + fwd2[t] < pid - before || pid + 1 + after < t {
      assert t in fwd1 && t in fwd0 && fwd0[t] == fwd2[t];
    }
  }

  /** Taking out a span of size 0 (there is none) or of its recorded size. */
  lemma TakeOut(ix: Index, start: nat, size: nat) returns (ix': Index)
    requires Consistent(ix)
    requires size > 0 ==> start in ix.forward && ix.forward[start] == size
    ensures ix' == if size > 0 then Del(ix, start, size) else ix
    ensures Consistent(ix') && Run(start, size) <= Pages(ix) && Pages(ix') == Pages(ix) - Run(start, size)
    ensures size > 0 ==> Apart(ix'.forward, start, size)
  {
    ix' := if size > 0 then Del(ix, start, size) else ix;
    if size > 0 {
      DelConsistent(ix, start, size);
    } else {
      RunJoin(start, 0, 0);
    }
  }

  /** Merging a page keeps the index consistent and adds exactly that page. */
  lemma MergedConsistent(ix: Index, pid: nat)
    requires Consistent(ix) && pid >= 1 && pid !in Pages(ix)
    ensures Lookup(ix.backward, pid - 1) <= pid
    ensures Consistent(Merged(ix, pid))
    ensures Pages(Merged(ix, pid)) == Pages(ix) + {pid}
  {
    hide Consistent, Pages, Apart, Run;
    Neighbours(ix, pid);
    var before, after := Lookup(ix.backward, pid - 1), Lookup(ix.forward, pid + 1);
    var ix1 := TakeOut(ix, pid - before, before);
    var ix2 := TakeOut(ix1, pid + 1, after);
    ApartJoined(ix.forward, ix1.forward, ix2.forward, pid, before, after);
    AddConsistent(ix2, pid - before, before + 1 + after);
    RunJoin(pid - before, before, after);
    PutBack(Pages(ix), Pages(ix1), Pages(ix2), Run(pid - before, before), pid, Run(pid + 1, after));
  }

  /** Taking the first n pages of a larger span leaves its rest as a span. */
  lemma SplitConsistent(ix: Index, start: nat, size: nat, n: nat)
    requires Consistent(ix) && start in ix.forward && ix.forward[start] == size && 1 <= n < size
    ensures Consistent(Add(Del(ix, start, size), start + n, size - n))
    ensures Pages(Add(Del(ix, start, size), start + n, size - n)) == Pages(ix) - Run(start, n)
    ensures Run(start, n) <= Pages(ix)
  {
    hide Consistent, Pages, Run;
    var ix1 := TakeOut(ix, start, size);
    AddConsistent(ix1, start + n, size - n);
    RunSplit(start, n, size);
  }

  lemma RunSplit(start: nat, n: nat, size: nat)
    requires n <= size
    ensures Run(start, size) == Run(start, n) + Run(start + n, size - n)
    ensures Run(start, n) !! Run(start + n, size - n)
  {
  }

  /** init's state after looking at ids[..i]: the finished spans lie below the block being counted. */
  ghost predicate Scanned(ix: Index, ids: seq<nat>, i: nat, start: nat, size: nat)
    requires 1 <= i <= |ids|
  {
    && Consistent(ix) && size >= 1 && start + size == ids[i - 1] + 1
    && (forall t :: t in ix.forward ==> t + ix.forward[t] < start)
    && Pages(ix) + Run(start, size) == Elements(ids[..i])
  }

  lemma ScanFirst(ids: seq<nat>)
    requires |ids| > 0
    ensures Scanned(NO_SPANS, ids, 1, ids[0], 1)
  {
    assert ids[..1] == [ids[0]];
    RunJoin(ids[0], 0, 0);
  }

  lemma ScanLonger(ix: Index, ids: seq<nat>, i: nat, start: nat, size: nat)
    requires 1 <= i < |ids| && Scanned(ix, ids, i, start, size) && ids[i] == ids[i - 1] + 1
    ensures Scanned(ix, ids, i + 1, start, size + 1)
  {
    hide Consistent, Pages;
    assert ids[..i + 1] == ids[..i] + [ids[i]];
    ElementsAppend(ids[..i], [ids[i]]);
    assert Run(start, size + 1) == Run(start, size) + {ids[i]};
  }

  lemma ScanNext(ix: Index, ids: seq<nat>, i: nat, start: nat, size: nat)
    requires 1 <= i < |ids| && Scanned(ix, ids, i, start, size) && ids[i] > ids[i - 1] + 1
    ensures Scanned(Add(ix, start, size), ids, i + 1, ids[i], 1)
  {
    hide Consistent, Pages;
    assert Apart(ix.forward, start, size);
    AddConsistent(ix, start, size);
    assert ids[..i + 1] == ids[..i] + [ids[i]];
    ElementsAppend(ids[..i], [ids[i]]);
    RunJoin(ids[i], 0, 0);
  }

  lemma ScanLast(ix: Index, ids: seq<nat>, start: nat, size: nat)
    requires |ids| > 0 && Scanned(ix, ids, |ids|, start, size)
    ensures Consistent(Add(ix, start, size)) && Pages(Add(ix, start, size)) == Elements(ids)
  {
    hide Consistent, Pages;
    assert Apart(ix.forward, start, size);
    AddConsistent(ix, start, size);
    assert ids[..|ids|] == ids;
  }

  /** Consecutive free pages always lie inside one span, because the spans are maximal. */
  lemma {:induction false} RunInOneSpan(ix: Index, p: nat, n: nat) returns (s: nat)
    requires Maximal(ix.forward) && n >= 1 && Run(p, n) <= Pages(ix)
    ensures s in ix.forward && s <= p && p + n <= s + ix.forward[s]
  {
    if n == 1 {
      assert p in Run(p, n);
      s :| s in ix.forward && p in Run(s, ix.forward[s]);
    } else {
      assert Run(p, n - 1) <= Run(p, n);
      s := RunInOneSpan(ix, p, n - 1);
      var last := p + n - 1;
      assert last in Run(p, n) && last in Pages(ix);
      var t :| t in ix.forward && last in Run(t, ix.forward[t]);
      assert s < t || s == t || t < s;
    }
  }
}
