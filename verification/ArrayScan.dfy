/** The left-to-right search of arrayAllocate for n consecutive ids, as facts about plain lists. */
module ArrayScan {
  import opened Pgids

  ghost predicate NoRun(free: set<nat>, n: nat) {
    forall p: nat :: !(Run(p, n) <= free)
  }

  /** No run of n free ids ends at or before last. */
  ghost predicate NoRunUpTo(free: set<nat>, n: nat, last: int) {
    forall p: nat :: Run(p, n) <= free ==> p + n > last + 1
  }

  /** ids[i-len..i] are the consecutive ids initial .. initial+len-1, and initial-1 is not in the list. */
  ghost predicate Block(ids: seq<nat>, i: nat, initial: nat, len: nat) {
    && 1 <= len <= i <= |ids|
    && (forall k :: i - len <= k < i ==> ids[k] == initial + (k - (i - len)))
    && (i - len > 0 ==> ids[i - len - 1] + 1 < initial)
  }

  /** The search state before looking at ids[i]. */
  ghost predicate Scanning(ids: seq<nat>, i: nat, initial: nat, previd: nat, n: nat) {
    && i <= |ids|
    && (i == 0 ==> previd == 0)
    && (i > 0 ==> initial <= previd == ids[i - 1] && Block(ids, i, initial, previd - initial + 1))
    && (i > 0 && n > 0 ==> previd - initial + 1 < n && NoRunUpTo(Elements(ids), n, previd))
  }

  lemma ExtendBlock(ids: seq<nat>, i: nat, initial: nat, previd: nat) returns (initial': nat)
    requires StrictlySorted(ids) && i < |ids| && (forall k :: 0 <= k < |ids| ==> ids[k] >= 2)
    requires i == 0 ==> previd == 0
    requires i > 0 ==> initial <= previd == ids[i - 1] && Block(ids, i, initial, previd - initial + 1)
    ensures initial' == if previd == 0 || ids[i] != previd + 1 then ids[i] else initial
    ensures initial' <= ids[i] && Block(ids, i + 1, initial', ids[i] - initial' + 1)
    ensures initial' == ids[i] || ids[i] - initial' + 1 == previd - initial + 2
  {
    initial' := if previd == 0 || ids[i] != previd + 1 then ids[i] else initial;
    if i > 0 {
      assert ids[i - 1] < ids[i];
    }
  }

  /** The id before a block's first is not free. */
  lemma BlockStarts(ids: seq<nat>, i: nat, initial: nat, len: nat)
    requires StrictlySorted(ids) && Block(ids, i, initial, len)
    ensures initial >= 1 ==> initial - 1 !in Elements(ids)
  {
    forall k | 0 <= k < |ids| ensures ids[k] + 1 != initial {
      if k < i - len {
        assert ids[k] <= ids[i - len - 1];
      } else {
        assert ids[i - len] <= ids[k];
      }
    }
  }

  lemma Step(ids: seq<nat>, i: nat, initial: nat, previd: nat, n: nat, initial': nat)
    requires StrictlySorted(ids) && i < |ids| && (forall k :: 0 <= k < |ids| ==> ids[k] >= 2)
    requires Scanning(ids, i, initial, previd, n)
    requires initial' == if previd == 0 || ids[i] != previd + 1 then ids[i] else initial
    ensures initial' <= ids[i]
    ensures ids[i] - initial' + 1 != n ==> Scanning(ids, i + 1, initial', ids[i], n)
    ensures ids[i] - initial' + 1 == n ==> Block(ids, i + 1, initial', n)
    ensures n > 0 ==> NoRunUpTo(Elements(ids), n, ids[i] as int - 1)
  {
    var b := ExtendBlock(ids, i, initial, previd);
    BlockStarts(ids, i + 1, initial', ids[i] - initial' + 1);
    if n > 0 {
      forall p: nat | Run(p, n) <= Elements(ids) ensures p + n > ids[i] {
        NoRunBetween(ids, i, previd, p, n);
      }
      if ids[i] - initial' + 1 != n {
        assert ids[i] - initial' + 1 < n;
        forall p: nat | Run(p, n) <= Elements(ids) ensures p + n > ids[i] + 1 {
          assert p + n > ids[i];
          assert p + n == ids[i] + 1 ==> initial' - 1 in Run(p, n);
        }
      }
    }
  }

  /** A run that does not end at or before the previous id ends at this id or later: nothing lies between. */
  lemma NoRunBetween(ids: seq<nat>, i: nat, previd: nat, p: nat, n: nat)
    requires StrictlySorted(ids) && i < |ids| && n > 0
    requires if i == 0 then previd == 0 else previd == ids[i - 1] && NoRunUpTo(Elements(ids), n, previd)
    requires Run(p, n) <= Elements(ids)
    ensures p + n > ids[i]
  {
    var last := p + n - 1;
    assert last in Run(p, n) && last in Elements(ids);
    var k :| 0 <= k < |ids| && ids[k] == last;
    assert forall j :: 0 <= j < i ==> ids[j] <= previd;
    assert i <= k;
    assert ids[i] <= ids[k];
  }

  /** Cutting a found block out of the list removes exactly its pages, and no run starts lower. */
  lemma Found(ids: seq<nat>, i: nat, initial: nat, n: nat, rest: seq<nat>)
    requires StrictlySorted(ids) && i < |ids| && n > 0 && Block(ids, i + 1, initial, n)
    requires NoRunUpTo(Elements(ids), n, ids[i] as int - 1)
    requires rest == ids[..i + 1 - n] + ids[i + 1..]
    ensures Run(initial, n) <= Elements(ids)
    ensures StrictlySorted(rest) && Elements(rest) == Elements(ids) - Run(initial, n)
    ensures forall p: nat :: Run(p, n) <= Elements(ids) ==> initial <= p
  {
    BlockPages(ids, i, initial, n);
    CutElements(ids, i + 1 - n, i + 1);
    assert ids[i] == initial + n - 1;
  }

  lemma BlockPages(ids: seq<nat>, i: nat, initial: nat, n: nat)
    requires i < |ids| && Block(ids, i + 1, initial, n)
    ensures Elements(ids[i + 1 - n..i + 1]) == Run(initial, n) <= Elements(ids)
  {
    var lo := i + 1 - n;
    forall x | x in Run(initial, n) ensures x in Elements(ids[lo..i + 1]) {
      assert ids[lo..i + 1][x - initial] == x;
    }
  }

  lemma CutElements(ids: seq<nat>, lo: nat, hi: nat)
    requires StrictlySorted(ids) && lo <= hi <= |ids|
    ensures StrictlySorted(ids[..lo] + ids[hi..])
    ensures Elements(ids[..lo] + ids[hi..]) == Elements(ids) - Elements(ids[lo..hi])
  {
    assert ids == ids[..lo] + ids[lo..hi] + ids[hi..];
    ElementsAppend(ids[..lo] + ids[lo..hi], ids[hi..]);
    ElementsAppend(ids[..lo], ids[lo..hi]);
    ElementsAppend(ids[..lo], ids[hi..]);
    assert Elements(ids[..lo] + ids[hi..]) !! Elements(ids[lo..hi]);
  }

  lemma NoneFound(ids: seq<nat>, initial: nat, previd: nat, n: nat)
    requires StrictlySorted(ids) && Scanning(ids, |ids|, initial, previd, n) && n > 0
    ensures NoRun(Elements(ids), n)
  {
    forall p: nat ensures !(Run(p, n) <= Elements(ids)) {
      assert p + n - 1 in Run(p, n);
      assert forall k :: 0 <= k < |ids| ==> ids[k] <= previd;
    }
  }
}
