/** Page-id lists: ordering, sorting and the in-place merge of page.go. */
module Pgids {

  ghost predicate Sorted(s: seq<nat>) {
    forall i, j :: 0 <= i < j < |s| ==> s[i] <= s[j]
  }

  ghost predicate StrictlySorted(s: seq<nat>) {
    forall i, j :: 0 <= i < j < |s| ==> s[i] < s[j]
  }

  ghost predicate Distinct<T(!new)>(s: seq<T>) {
    forall i, j :: 0 <= i < j < |s| ==> s[i] != s[j]
  }

  ghost function Elements<T(!new)>(s: seq<T>): set<T> {
    set x | x in s
  }

  /** The n consecutive pages that start at p. */
  ghost function Run(p: nat, n: nat): set<nat> {
    set x | 0 <= x < p + n && InRun(x, p, n)
  }

  predicate InRun(x: nat, p: nat, n: nat) {
    p <= x < p + n
  }

  lemma ElementsAppend<T(!new)>(a: seq<T>, b: seq<T>)
    ensures Elements(a + b) == Elements(a) + Elements(b)
  {
  }

  /** A list without duplicates has as many elements as positions, and a multiset of ones. */
  lemma {:induction false} DistinctMultiset(s: seq<nat>)
    requires Distinct(s)
    ensures multiset(s) == multiset(Elements(s))
    ensures |Elements(s)| == |s|
  {
    if s == [] {
      assert Elements(s) == {};
    } else {
      var t := s[..|s| - 1];
      var x := s[|s| - 1];
      DistinctMultiset(t);
      assert s == t + [x];
      assert Elements(s) == Elements(t) + {x} && x !in Elements(t);
    }
  }

  lemma MultisetElements(s: seq<nat>, t: seq<nat>)
    requires multiset(s) == multiset(t)
    ensures Elements(s) == Elements(t)
    ensures |s| == |t|
  {
    forall x ensures x in s <==> x in t {
      assert x in s <==> x in multiset(s);
      assert x in t <==> x in multiset(t);
    }
    assert |multiset(s)| == |s| && |multiset(t)| == |t|;
  }

  lemma {:induction false} SortedOnes(s: seq<nat>)
    requires Sorted(s)
    requires forall x :: x in multiset(s) ==> multiset(s)[x] == 1
    ensures StrictlySorted(s)
  {
    forall i, j | 0 <= i < j < |s| ensures s[i] < s[j] {
      var before, after := s[..j], s[j + 1..];
      assert s == before + [s[j]] + after;
      assert s[j] in multiset(s) && multiset(s)[s[j]] == multiset(before)[s[j]] + 1 + multiset(after)[s[j]];
      assert s[j] !in multiset(before);
      assert before[i] == s[i] && before[i] in multiset(before);
    }
  }

  lemma EmptyElements(s: seq<nat>)
    ensures Elements(s) == {} <==> s == []
  {
    assert |s| > 0 ==> s[0] in Elements(s);
  }

  function InsertSorted(x: nat, s: seq<nat>): (r: seq<nat>)
    requires Sorted(s)
    ensures Sorted(r)
    ensures multiset(r) == multiset(s) + multiset{x}
  {
    if s == [] then [x]
    else if x <= s[0] then [x] + s
    else
      var t := InsertSorted(x, s[1..]);
      PrependSorted(s[0], x, s[1..], t);
      assert s == [s[0]] + s[1..];
      [s[0]] + t
  }

  lemma PrependSorted(y: nat, x: nat, s: seq<nat>, t: seq<nat>)
    requires Sorted(t) && multiset(t) == multiset(s) + multiset{x}
    requires y <= x && forall z :: z in s ==> y <= z
    ensures Sorted([y] + t)
    ensures multiset([y] + t) == multiset([y] + s) + multiset{x}
  {
    forall i | 0 <= i < |t| ensures y <= t[i] {
      assert t[i] in multiset(t);
      assert t[i] == x || t[i] in multiset(s);
      assert t[i] == x || t[i] in s;
    }
  }

  /** sort.Sort on a list of page ids. */
  function Sort(s: seq<nat>): (r: seq<nat>)
    ensures Sorted(r)
    ensures multiset(r) == multiset(s)
  {
    if s == [] then []
    else
      assert s == [s[0]] + s[1..];
      InsertSorted(s[0], Sort(s[1..]))
  }

  lemma SortDistinct(s: seq<nat>)
    requires Distinct(s)
    ensures StrictlySorted(Sort(s))
    ensures Elements(Sort(s)) == Elements(s)
    ensures |Sort(s)| == |s|
  {
    DistinctMultiset(s);
    MultisetElements(Sort(s), s);
    SortedOnes(Sort(s));
  }

  /** sort.Search for the first position holding an id above x. */
  method SearchAbove(s: seq<nat>, x: nat) returns (n: nat)
    requires Sorted(s)
    ensures n <= |s|
    ensures forall i :: 0 <= i < n ==> s[i] <= x
    ensures forall i :: n <= i < |s| ==> x < s[i]
  {
    n := 0;
    var j := |s|;
    while n < j
      invariant 0 <= n <= j <= |s|
      invariant forall i :: 0 <= i < n ==> s[i] <= x
      invariant forall i :: j <= i < |s| ==> x < s[i]
    {
      var h := (n + j) / 2;
      if !(s[h] > x) { n := h + 1; } else { j := h; }
    }
  }

  /** copy(dst[pos:], s) for a source that fits. */
  method CopyInto(dst: array<nat>, pos: nat, s: seq<nat>)
    requires pos + |s| <= dst.Length
    modifies dst
    ensures dst[..] == old(dst[..])[..pos] + s + old(dst[..])[pos + |s|..]
  {
    for i := 0 to |s|
      invariant forall k :: 0 <= k < dst.Length ==>
        dst[k] == if pos <= k < pos + i then s[k - pos] else old(dst[k])
    {
      dst[pos + i] := s[i];
    }
  }

  ghost predicate Below(a: seq<nat>, b: seq<nat>) {
    forall i, j :: 0 <= i < |a| && 0 <= j < |b| ==> a[i] <= b[j]
  }

  lemma SortedConcat(a: seq<nat>, b: seq<nat>)
    requires Sorted(a) && Sorted(b) && Below(a, b)
    ensures Sorted(a + b)
  {
  }

  /** What holds between two rounds of the merge: a sorted output below both rests, and nothing lost. */
  ghost predicate Merging(merged: seq<nat>, lead: seq<nat>, follow: seq<nat>, all: multiset<nat>) {
    && Sorted(merged) && Sorted(lead) && Sorted(follow)
    && Below(merged, lead) && Below(merged, follow)
    && multiset(merged) + multiset(lead) + multiset(follow) == all
  }

  lemma MergeRound(merged: seq<nat>, lead: seq<nat>, follow: seq<nat>, all: multiset<nat>, n: nat)
    requires Merging(merged, lead, follow, all)
    requires n <= |lead| && |follow| > 0
    requires forall i :: 0 <= i < n ==> lead[i] <= follow[0]
    ensures Merging(merged + lead[..n], follow, lead[n..], all)
    ensures n == |lead| ==> Merging(merged + lead[..n], [], follow, all)
  {
    SortedConcat(merged, lead[..n]);
    assert lead == lead[..n] + lead[n..];
    assert multiset(lead) == multiset(lead[..n]) + multiset(lead[n..]);
    assert Below(lead[..n], follow);
    assert Below(lead[..n], lead[n..]);
  }

  lemma MergeLast(merged: seq<nat>, follow: seq<nat>, all: multiset<nat>)
    requires Merging(merged, [], follow, all)
    ensures Sorted(merged + follow) && multiset(merged + follow) == all
  {
    SortedConcat(merged, follow);
  }

  /** before, with the part from position at on overwritten by m. */
  ghost function Spliced(before: seq<nat>, at: nat, m: seq<nat>): (r: seq<nat>)
    requires at + |m| <= |before|
    ensures |r| == |before|
  {
    before[..at] + m + before[at + |m|..]
  }

  /** append(merged, more...), where merged is the part of dst written so far. */
  method AppendInto(dst: array<nat>, off: nat, ghost before: seq<nat>, ghost merged: seq<nat>, k: nat, more: seq<nat>)
    requires k == |merged| && |before| == dst.Length && off + k + |more| <= dst.Length
    requires dst[..] == Spliced(before, off, merged)
    modifies dst
    ensures dst[..] == Spliced(before, off, merged + more)
  {
    CopyInto(dst, off + k, more);
  }

  /**
   * mergepgids: merges two sorted lists into dst from position off on, by copying the largest
   * prefix of the leading list and then swapping the two lists' roles. The source panics exactly
   * when the target is too short, before it writes anything.
   */
  method MergePgids(dst: array<nat>, off: nat, a: seq<nat>, b: seq<nat>) returns (fits: bool, ghost merged: seq<nat>)
    requires off <= dst.Length
    requires Sorted(a) && Sorted(b)
    modifies dst
    ensures fits <==> |a| + |b| <= dst.Length - off
    ensures !fits ==> dst[..] == old(dst[..])
    ensures fits ==> Sorted(merged) && multiset(merged) == multiset(a) + multiset(b) && |merged| == |a| + |b|
    ensures fits ==> dst[..] == Spliced(old(dst[..]), off, merged)
  {
    if dst.Length - off < |a| + |b| {
      return false, [];
    }
    if |a| == 0 {
      CopyInto(dst, off, b);
      return true, b;
    }
    if |b| == 0 {
      CopyInto(dst, off, a);
      return true, a;
    }
    merged := MergeRest(dst, off, a, b);
    fits := true;
  }

  /** The loop of mergepgids, for two non-empty lists. */
  method MergeRest(dst: array<nat>, off: nat, a: seq<nat>, b: seq<nat>) returns (ghost merged: seq<nat>)
    requires Sorted(a) && Sorted(b) && |a| > 0 && |b| > 0
    requires off + |a| + |b| <= dst.Length
    modifies dst
    ensures Sorted(merged) && multiset(merged) == multiset(a) + multiset(b) && |merged| == |a| + |b|
    ensures dst[..] == Spliced(old(dst[..]), off, merged)
  {
    merged := [];
    ghost var all, before := multiset(a) + multiset(b), dst[..];
    var k := 0;
    var lead, follow := a, b;
    if b[0] < a[0] {
      lead, follow := b, a;
    }
    while |lead| > 0
      invariant k == |merged| && k + |lead| + |follow| == |a| + |b|
      invariant |follow| > 0
      invariant |lead| > 0 ==> lead[0] <= follow[0]
      invariant Merging(merged, lead, follow, all)
      invariant dst[..] == Spliced(before, off, merged)
      decreases |lead| + |follow|
    {
      var n := SearchAbove(lead, follow[0]);
      MergeRound(merged, lead, follow, all, n);
      AppendInto(dst, off, before, merged, k, lead[..n]);
      merged := merged + lead[..n];
      k := k + n;
      if n >= |lead| {
        lead := [];
        break;
      }
      lead, follow := follow, lead[n..];
    }
    MergeLast(merged, follow, all);
    AppendInto(dst, off, before, merged, k, follow);
    merged := merged + follow;
  }

  /** pgids.merge: the sorted union of two sorted lists. */
  method Merge(a: seq<nat>, b: seq<nat>) returns (merged: seq<nat>)
    requires Sorted(a) && Sorted(b)
    ensures Sorted(merged)
    ensures multiset(merged) == multiset(a) + multiset(b)
  {
    if |a| == 0 {
      return b;
    }
    if |b| == 0 {
      return a;
    }
    var dst := new nat[|a| + |b|];
    var fits, sorted := MergePgids(dst, 0, a, b);
    merged := dst[..];
    assert merged == sorted;
  }

  /** Merging two disjoint lists without duplicates gives the strictly increasing listing of their union. */
  lemma MergedUnion(a: seq<nat>, b: seq<nat>, m: seq<nat>)
    requires Distinct(a) && Distinct(b) && Elements(a) !! Elements(b)
    requires Sorted(m) && multiset(m) == multiset(a) + multiset(b)
    ensures StrictlySorted(m) && Elements(m) == Elements(a) + Elements(b) && |m| == |a| + |b|
  {
    assert multiset(a + b) == multiset(a) + multiset(b);
    assert Distinct(a + b) by {
      forall i, j | 0 <= i < j < |a + b| ensures (a + b)[i] != (a + b)[j] {
        if i < |a| <= j {
          assert (a + b)[i] in Elements(a) && (a + b)[j] in Elements(b);
        }
      }
    }
    MultisetElements(m, a + b);
    ElementsAppend(a, b);
    DistinctMultiset(a + b);
    SortedOnes(m);
  }
}
