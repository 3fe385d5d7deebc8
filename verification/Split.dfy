/** node.split: cutting an oversized node into pieces that fit their pages. */
module Splitting {
  import opened Trees
  import opened Rebalancing

  const MIN_KEYS_PER_PAGE: nat := 2

  /** The pieces laid end to end. */
  ghost function Joined(pieces: seq<seq<Inode>>): seq<Inode> {
    if pieces == [] then [] else pieces[0] + Joined(pieces[1..])
  }

  /** A node too big for one page, with enough elements for two. */
  predicate MustSplit(inodes: seq<Inode>, pageSize: nat) {
    |inodes| > 2 * MIN_KEYS_PER_PAGE && Size(inodes) >= pageSize
  }

  /** A piece that is not the last: two elements, or within the threshold. */
  ghost predicate Full(piece: seq<Inode>, threshold: nat) {
    |piece| >= MIN_KEYS_PER_PAGE && (|piece| == MIN_KEYS_PER_PAGE || Size(piece) <= threshold)
  }

  /** No larger piece would have done: the next element goes over the threshold, or is needed for the rest. */
  ghost predicate Tight(piece: seq<Inode>, rest: seq<Inode>, threshold: nat) {
    |rest| > MIN_KEYS_PER_PAGE + 1 ==> Size(piece + [rest[0]]) > threshold
  }

  ghost predicate AllTight(pieces: seq<seq<Inode>>, rest: seq<Inode>, threshold: nat) {
    pieces == [] || (Tight(pieces[0], Joined(pieces[1..]) + rest, threshold) && AllTight(pieces[1..], rest, threshold))
  }

  ghost predicate Pieces(pieces: seq<seq<Inode>>, threshold: nat, pageSize: nat) {
    && |pieces| > 0
    && (forall k :: 0 <= k < |pieces| - 1 ==> Full(pieces[k], threshold))
    && !MustSplit(pieces[|pieces| - 1], pageSize)
    && (|pieces| > 1 ==> |pieces[|pieces| - 1]| > MIN_KEYS_PER_PAGE)
  }

  lemma {:induction false} SizeMonotone(s: seq<Inode>, i: nat)
    requires i <= |s|
    ensures Size(s[..i]) <= Size(s)
    ensures i < |s| ==> Size(s[..i]) < Size(s)
    decreases |s|
  {
    if i < |s| {
      SizeMonotone(s[..|s| - 1], i);
      assert s[..|s| - 1][..i] == s[..i];
    } else {
      assert s[..i] == s;
    }
  }

  lemma SizeStep(s: seq<Inode>, i: nat)
    requires i < |s|
    ensures Size(s[..i + 1]) == Size(s[..i]) + ELEMENT_SIZE + |s[i].key| + |s[i].value|
  {
    assert s[..i + 1][..i] == s[..i];
  }

  /** sizeLessThan: stop adding up as soon as the limit is reached. */
  method SizeLessThan(inodes: seq<Inode>, limit: nat) returns (less: bool)
    ensures less == (inodes == [] || Size(inodes) < limit)
  {
    var sz, i := PAGE_HEADER_SIZE, 0;
    while i < |inodes|
      invariant 0 <= i <= |inodes| && sz == Size(inodes[..i]) && (i > 0 ==> sz < limit)
    {
      SizeStep(inodes, i);
      sz := sz + ELEMENT_SIZE + |inodes[i].key| + |inodes[i].value|;
      if sz >= limit {
        SizeMonotone(inodes, i + 1);
        return false;
      }
      i := i + 1;
    }
    assert inodes[..i] == inodes;
    return true;
  }

  /** splitIndex: the first element that would put the first page over the threshold, leaving enough for the second. */
  method SplitIndex(inodes: seq<Inode>, threshold: nat) returns (index: nat)
    requires |inodes| > 2 * MIN_KEYS_PER_PAGE
    ensures MIN_KEYS_PER_PAGE <= index < |inodes| - MIN_KEYS_PER_PAGE
    ensures index > MIN_KEYS_PER_PAGE ==> Size(inodes[..index]) <= threshold
    ensures index + 1 < |inodes| - MIN_KEYS_PER_PAGE ==> Size(inodes[..index + 1]) > threshold
  {
    var sz, i := PAGE_HEADER_SIZE, 0;
    index := 0;
    while i < |inodes| - MIN_KEYS_PER_PAGE
      invariant 0 <= i <= |inodes| - MIN_KEYS_PER_PAGE && sz == Size(inodes[..i])
      invariant index == if i == 0 then 0 else i - 1
      invariant i > MIN_KEYS_PER_PAGE ==> sz <= threshold
    {
      index := i;
      SizeStep(inodes, i);
      var elsize := ELEMENT_SIZE + |inodes[i].key| + |inodes[i].value|;
      if index >= MIN_KEYS_PER_PAGE && sz + elsize > threshold {
        return;
      }
      sz := sz + elsize;
      i := i + 1;
    }
    SizeMonotone(inodes[..i], index);
    assert inodes[..i][..index] == inodes[..index];
  }

  /** splitTwo: nothing to do for a node that fits or is too short to share; else cut it at the split index. */
  method SplitTwo(inodes: seq<Inode>, threshold: nat, pageSize: nat) returns (a: seq<Inode>, b: seq<Inode>, split: bool)
    ensures split == MustSplit(inodes, pageSize)
    ensures split ==> a + b == inodes && Full(a, threshold) && |b| > MIN_KEYS_PER_PAGE && Tight(a, b, threshold)
    ensures !split ==> a == inodes
  {
    var small := SizeLessThan(inodes, pageSize);
    if |inodes| <= MIN_KEYS_PER_PAGE * 2 || small {
      return inodes, [], false;
    }
    var index := SplitIndex(inodes, threshold);
    assert inodes[..index] + [inodes[index..][0]] == inodes[..index + 1];
    return inodes[..index], inodes[index..], true;
  }

  lemma {:induction false} JoinedAppend(pieces: seq<seq<Inode>>, last: seq<Inode>)
    ensures Joined(pieces + [last]) == Joined(pieces) + last
  {
    if pieces == [] {
      assert [] + [last] == [last] && [last][1..] == [];
      assert last + [] == [] + last;
    } else {
      JoinedAppend(pieces[1..], last);
      assert (pieces + [last])[1..] == pieces[1..] + [last];
    }
  }

  /** split: cut until the rest needs no cutting. The pieces are the node's elements in order. */
  method Split(inodes: seq<Inode>, threshold: nat, pageSize: nat) returns (pieces: seq<seq<Inode>>)
    requires threshold <= pageSize
    ensures Joined(pieces) == inodes && Pieces(pieces, threshold, pageSize)
    ensures |pieces| > 1 <==> MustSplit(inodes, pageSize)
    ensures |pieces| > 1 <==> |inodes| >= 5 && Size(inodes) >= pageSize
    ensures |pieces| > 1 ==> forall k :: 0 <= k < |pieces| ==> |pieces[k]| >= 2
    ensures |pieces[|pieces| - 1]| <= 4 || Size(pieces[|pieces| - 1]) < pageSize
    ensures forall k :: 0 <= k < |pieces| && |pieces| > 1 ==> |pieces[k]| >= MIN_KEYS_PER_PAGE
    ensures forall k :: 0 <= k < |pieces| - 1 ==> |pieces[k]| == MIN_KEYS_PER_PAGE || Size(pieces[k]) <= pageSize
    ensures AllTight(pieces[..|pieces| - 1], pieces[|pieces| - 1], threshold)
  {
    hide Size, Full, Tight, Joined;
    pieces := [];
    var rest := inodes;
    NothingJoined(rest);
    while true
      invariant Joined(pieces) + rest == inodes && (pieces == [] ==> rest == inodes)
      invariant forall k :: 0 <= k < |pieces| ==> Full(pieces[k], threshold)
      invariant pieces != [] ==> |rest| > MIN_KEYS_PER_PAGE && MustSplit(inodes, pageSize)
      invariant AllTight(pieces, rest, threshold)
      decreases |rest|
    {
      var a, b, split := SplitTwo(rest, threshold, pageSize);
      JoinedAppend(pieces, a);
      if split {
        AllTightAppend(pieces, a, b, threshold);
      }
      ghost var before := pieces;
      pieces := pieces + [a];
      assert pieces[..|pieces| - 1] == before;
      if !split {
        PieceSizes(pieces, threshold, pageSize);
        return;
      }
      FullLong(a, threshold);
      Regrouped(Joined(before), a, b);
      rest := b;
    }
  }

  lemma NothingJoined(rest: seq<Inode>)
    ensures Joined([]) + rest == rest
  {
    assert [] + rest == rest;
  }

  lemma {:induction false} AllTightAppend(pieces: seq<seq<Inode>>, a: seq<Inode>, b: seq<Inode>, threshold: nat)
    requires AllTight(pieces, a + b, threshold) && Tight(a, b, threshold)
    ensures AllTight(pieces + [a], b, threshold)
    decreases |pieces|
  {
    hide Tight;
    var more := pieces + [a];
    if pieces == [] {
      assert more[1..] == [] && more[0] == a;
      assert Joined([]) + b == b;
    } else {
      AllTightAppend(pieces[1..], a, b, threshold);
      JoinedAppend(pieces[1..], a);
      assert more[1..] == pieces[1..] + [a];
      Regrouped(Joined(pieces[1..]), a, b);
    }
  }

  lemma Regrouped<T>(p: seq<T>, a: seq<T>, b: seq<T>)
    ensures p + (a + b) == (p + a) + b
  {
  }

  lemma FullLong(a: seq<Inode>, threshold: nat)
    requires Full(a, threshold)
    ensures |a| >= MIN_KEYS_PER_PAGE
  {
  }

  lemma PieceSizes(pieces: seq<seq<Inode>>, threshold: nat, pageSize: nat)
    requires |pieces| > 0 && threshold <= pageSize
    requires forall k :: 0 <= k < |pieces| - 1 ==> Full(pieces[k], threshold)
    ensures forall k :: 0 <= k < |pieces| - 1 ==>
      |pieces[k]| >= MIN_KEYS_PER_PAGE && (|pieces[k]| == MIN_KEYS_PER_PAGE || Size(pieces[k]) <= pageSize)
  {
  }
}
