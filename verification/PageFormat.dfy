/** Nodes on pages: the element table, the key and value data behind it, and reading both back. */
module PageFormat {
  import opened Keys
  import opened Trees
  import opened Rebalancing

  const BRANCH_PAGE_FLAG: nat := 1
  const LEAF_PAGE_FLAG: nat := 2

  // ---------- little-endian numbers ----------

  function Pow256(k: nat): nat {
    if k == 0 then 1 else 256 * Pow256(k - 1)
  }

  /** v as k bytes, least significant first. */
  function LE(v: nat, k: nat): (s: Bytes)
    ensures |s| == k
  {
    if k == 0 then [] else [v % 256] + LE(v / 256, k - 1)
  }

  function FromLE(s: Bytes): nat {
    if s == [] then 0 else s[0] + 256 * FromLE(s[1..])
  }

  lemma {:induction false} LERoundTrip(v: nat, k: nat)
    requires v < Pow256(k)
    ensures FromLE(LE(v, k)) == v
  {
    if k > 0 {
      LERoundTrip(v / 256, k - 1);
      assert LE(v, k)[1..] == LE(v / 256, k - 1);
    }
  }

  lemma Widths()
    ensures Pow256(2) == 0x1_0000 && Pow256(4) == 0x1_0000_0000 && Pow256(8) == 0x1_0000_0000_0000_0000
  {
    assert Pow256(2) == 256 * Pow256(1) == 0x1_0000;
    assert Pow256(4) == 256 * Pow256(3) == 256 * 256 * Pow256(2);
    assert Pow256(6) == 256 * Pow256(5) == 256 * 256 * Pow256(4);
    assert Pow256(8) == 256 * Pow256(7) == 256 * 256 * Pow256(6);
  }

  // ---------- the layout ----------

  /** Keys and values of the elements, one after the other. */
  ghost function DataOf(inodes: seq<Inode>): Bytes {
    if inodes == [] then [] else DataOf(inodes[..|inodes| - 1]) + inodes[|inodes| - 1].key + inodes[|inodes| - 1].value
  }

  /** Where the data of element i starts on the page. */
  ghost function DataStart(inodes: seq<Inode>, i: nat): nat
    requires i <= |inodes|
  {
    PAGE_HEADER_SIZE + ELEMENT_SIZE * |inodes| + |DataOf(inodes[..i])|
  }

  ghost function DataEnd(inodes: seq<Inode>, i: nat): nat
    requires i < |inodes|
  {
    DataStart(inodes, i) + |inodes[i].key| + |inodes[i].value|
  }

  function ElementStart(i: nat): nat {
    PAGE_HEADER_SIZE + ELEMENT_SIZE * i
  }

  /** The table entry of element i: a leaf's flags, pos, ksize and vsize, or a branch's pos, ksize and child page. */
  function Element(isLeaf: bool, x: Inode, pos: nat): (s: Bytes)
    ensures |s| == ELEMENT_SIZE
  {
    if isLeaf then LE(x.flags, 4) + LE(pos, 4) + LE(|x.key|, 4) + LE(|x.value|, 4)
    else LE(pos, 4) + LE(|x.key|, 4) + LE(x.pgid, 8)
  }

  // ---------- reading fields ----------

  function U16(s: Bytes, at: nat): nat
    requires at + 2 <= |s|
  {
    FromLE(s[at..at + 2])
  }

  function U32(s: Bytes, at: nat): nat
    requires at + 4 <= |s|
  {
    FromLE(s[at..at + 4])
  }

  function U64(s: Bytes, at: nat): nat
    requires at + 8 <= |s|
  {
    FromLE(s[at..at + 8])
  }

  /** Where element i says its key and value are. */
  function KeyAt(s: Bytes, isLeaf: bool, i: nat): nat
    requires ElementStart(i + 1) <= |s|
  {
    ElementStart(i) + U32(s, ElementStart(i) + if isLeaf then 4 else 0)
  }

  function KeySize(s: Bytes, isLeaf: bool, i: nat): nat
    requires ElementStart(i + 1) <= |s|
  {
    U32(s, ElementStart(i) + if isLeaf then 8 else 4)
  }

  function ValueSize(s: Bytes, isLeaf: bool, i: nat): nat
    requires ElementStart(i + 1) <= |s|
  {
    if isLeaf then U32(s, ElementStart(i) + 12) else 0
  }

  predicate ElementFits(s: Bytes, isLeaf: bool, i: nat) {
    ElementStart(i + 1) <= |s| && KeyAt(s, isLeaf, i) + KeySize(s, isLeaf, i) + ValueSize(s, isLeaf, i) <= |s|
  }

  /** The element a page holds at position i. */
  function InodeAt(s: Bytes, isLeaf: bool, i: nat): Inode
    requires ElementFits(s, isLeaf, i)
  {
    var k, n, m := KeyAt(s, isLeaf, i), KeySize(s, isLeaf, i), ValueSize(s, isLeaf, i);
    if isLeaf then Inode(U32(s, ElementStart(i)), 0, s[k..k + n], s[k + n..k + n + m])
    else Inode(0, U64(s, ElementStart(i) + 8), s[k..k + n], [])
  }

  /** What a branch or a leaf element must look like to survive a round trip. */
  ghost predicate Storable(isLeaf: bool, x: Inode) {
    && |x.key| > 0
    && (if isLeaf then x.pgid == 0 && x.flags < 0x1_0000_0000 else x.flags == 0 && x.value == [] && x.pgid < 0x1_0000_0000_0000_0000)
  }

  // ---------- sizes ----------

  lemma {:induction false} SizeOf(inodes: seq<Inode>)
    ensures Size(inodes) == PAGE_HEADER_SIZE + ELEMENT_SIZE * |inodes| + |DataOf(inodes)|
  {
    if inodes == [] {
    } else {
      SizeOf(inodes[..|inodes| - 1]);
    }
  }

  lemma DataNext(inodes: seq<Inode>, i: nat)
    requires i < |inodes|
    ensures DataOf(inodes[..i + 1]) == DataOf(inodes[..i]) + inodes[i].key + inodes[i].value
  {
    assert inodes[..i + 1][..i] == inodes[..i];
  }

  lemma {:induction false} DataGrows(inodes: seq<Inode>, i: nat, j: nat)
    requires i <= j <= |inodes|
    ensures |DataOf(inodes[..i])| <= |DataOf(inodes[..j])|
    decreases j - i
  {
    if i < j {
      DataNext(inodes, j - 1);
      DataGrows(inodes, i, j - 1);
    }
  }

  /** The data of two elements never overlaps, and none reaches into the element table. */
  lemma RegionsApart(inodes: seq<Inode>, i: nat, j: nat)
    requires i < j < |inodes|
    ensures ElementStart(|inodes|) <= DataStart(inodes, i)
    ensures DataStart(inodes, i) + |inodes[i].key| + |inodes[i].value| == DataStart(inodes, i + 1) <= DataStart(inodes, j)
    ensures DataStart(inodes, j) + |inodes[j].key| + |inodes[j].value| <= Size(inodes)
  {
    hide Size, DataOf;
    DataNext(inodes, i);
    DataNext(inodes, j);
    DataGrows(inodes, i + 1, j);
    DataGrows(inodes, j + 1, |inodes|);
    assert inodes[..|inodes|] == inodes;
    SizeOf(inodes);
  }

  // ---------- writing ----------

  predicate HasFlag(flags: nat, flag: nat)
    requires flag > 0
  {
    flags / flag % 2 == 1
  }

  function SetFlag(flags: nat, flag: nat): nat
    requires flag > 0
  {
    if HasFlag(flags, flag) then flags else flags + flag
  }

  /** Element i has its table entry and its data in place. */
  ghost predicate ElementWritten(s: Bytes, isLeaf: bool, inodes: seq<Inode>, i: nat)
    requires i < |inodes|
  {
    && ElementStart(i + 1) <= |s| && DataEnd(inodes, i) <= |s|
    && s[ElementStart(i)..ElementStart(i + 1)] == Element(isLeaf, inodes[i], PosOf(inodes, i))
    && s[DataStart(inodes, i)..DataEnd(inodes, i)] == inodes[i].key + inodes[i].value
  }

  /** The distance from a table entry to its data. */
  ghost function PosOf(inodes: seq<Inode>, i: nat): nat
    requires i < |inodes|
  {
    ELEMENT_SIZE * (|inodes| - i) + |DataOf(inodes[..i])|
  }

  ghost predicate Written(s: Bytes, isLeaf: bool, inodes: seq<Inode>) {
    && Size(inodes) <= |s|
    && U16(s, 8) == (if isLeaf then LEAF_PAGE_FLAG else BRANCH_PAGE_FLAG)
    && U16(s, 10) == |inodes|
    && forall i :: 0 <= i < |inodes| ==> ElementWritten(s, isLeaf, inodes, i)
  }

  /** Store bytes on the page. */
  method Store(p: array<Byte>, at: nat, bytes: Bytes)
    requires at + |bytes| <= p.Length
    modifies p
    ensures p[at..at + |bytes|] == bytes
    ensures forall k :: 0 <= k < p.Length && !(at <= k < at + |bytes|) ==> p[k] == old(p[k])
  {
    var j := 0;
    while j < |bytes|
      invariant 0 <= j <= |bytes| && p[at..at + j] == bytes[..j]
      invariant forall k :: 0 <= k < p.Length && !(at <= k < at + j) ==> p[k] == old(p[k])
    {
      p[at + j] := bytes[j];
      j := j + 1;
    }
  }

  /** Bytes outside a stored range read as before. */
  lemma Untouched(old_: Bytes, new_: Bytes, lo: nat, hi: nat, from: nat, to: nat)
    requires |old_| == |new_| && lo <= hi <= |old_| && (hi <= from || to <= lo)
    requires forall k :: 0 <= k < |old_| && !(from <= k < to) ==> new_[k] == old_[k]
    ensures new_[lo..hi] == old_[lo..hi]
  {
  }

  /** Both parts of element i are stored without disturbing the elements before it. */
  method WriteElement(p: array<Byte>, isLeaf: bool, inodes: seq<Inode>, i: nat, off: nat)
    requires i < |inodes| && off == DataStart(inodes, i) && Size(inodes) <= p.Length
    requires forall k :: 0 <= k < i ==> ElementWritten(p[..], isLeaf, inodes, k)
    modifies p
    ensures forall k :: 0 <= k <= i ==> ElementWritten(p[..], isLeaf, inodes, k)
    ensures forall k :: 0 <= k < p.Length && (k < PAGE_HEADER_SIZE || Size(inodes) <= k) ==> p[k] == old(p[k])
  {
    hide Element, DataOf, Size, LE;
    Region(inodes, i);
    var x := inodes[i];
    ghost var before := p[..];
    Store(p, ElementStart(i), Element(isLeaf, x, off - ElementStart(i)));
    ghost var between := p[..];
    Store(p, off, x.key + x.value);
    ghost var after := p[..];
    Untouched(between, after, ElementStart(i), ElementStart(i + 1), off, off + |x.key| + |x.value|);
    forall k | 0 <= k < i ensures ElementWritten(after, isLeaf, inodes, k) {
      KeepElement(before, between, after, isLeaf, inodes, k, i);
    }
  }

  /** Element i's places on the page. */
  lemma Region(inodes: seq<Inode>, i: nat)
    requires i < |inodes|
    ensures DataStart(inodes, i + 1) == DataStart(inodes, i) + |inodes[i].key| + |inodes[i].value| <= Size(inodes)
    ensures ElementStart(i + 1) <= ElementStart(|inodes|) <= DataStart(inodes, i)
  {
    hide Size;
    DataNext(inodes, i);
    DataGrows(inodes, i + 1, |inodes|);
    assert inodes[..|inodes|] == inodes;
    SizeOf(inodes);
  }

  lemma KeepElement(before: Bytes, between: Bytes, after: Bytes, isLeaf: bool, inodes: seq<Inode>, k: nat, i: nat)
    requires k < i < |inodes| && |before| == |between| == |after| && ElementWritten(before, isLeaf, inodes, k)
    requires forall j :: 0 <= j < |before| && !(ElementStart(i) <= j < ElementStart(i + 1)) ==> between[j] == before[j]
    requires forall j :: 0 <= j < |before| && !(DataStart(inodes, i) <= j < DataEnd(inodes, i)) ==> after[j] == between[j]
    ensures ElementWritten(after, isLeaf, inodes, k)
  {
    hide Element, DataOf, Size, LE;
    Region(inodes, k);
    Region(inodes, i);
    RegionsApart(inodes, k, i);
    Untouched(before, between, ElementStart(k), ElementStart(k + 1), ElementStart(i), ElementStart(i + 1));
    Untouched(between, after, ElementStart(k), ElementStart(k + 1), DataStart(inodes, i), DataEnd(inodes, i));
    Untouched(before, between, DataStart(inodes, k), DataEnd(inodes, k), ElementStart(i), ElementStart(i + 1));
    Untouched(between, after, DataStart(inodes, k), DataEnd(inodes, k), DataStart(inodes, i), DataEnd(inodes, i));
  }

  /**
   * node.write: onto a page whose flags are clear and that is big enough. More elements than the count field
   * can tell from its overflow mark are refused.
   */
  method WriteNode(p: array<Byte>, isLeaf: bool, inodes: seq<Inode>) returns (ok: bool)
    requires p.Length >= Size(inodes) && p.Length >= PAGE_HEADER_SIZE && U16(p[..], 8) == 0
    requires forall i :: 0 <= i < |inodes| ==> |inodes[i].key| > 0 && (isLeaf || inodes[i].pgid != U64(p[..], 0))
    modifies p
    ensures ok == (|inodes| < 0xFFFF)
    ensures ok ==> Written(p[..], isLeaf, inodes)
    ensures ok ==> p[8] == (if isLeaf then 2 else 1) && p[9] == 0 && p[10] == |inodes| % 256 && p[11] == |inodes| / 256
    ensures forall k :: 0 <= k < p.Length && (k < 8 || 12 <= k < PAGE_HEADER_SIZE || Size(inodes) <= k) ==> p[k] == old(p[k])
  {
    hide Size, ElementWritten, LE, FromLE, DataStart;
    StartOfData(inodes);
    var flag := if isLeaf then LEAF_PAGE_FLAG else BRANCH_PAGE_FLAG;
    var flags := SetFlag(U16(p[..], 8), flag);
    Store(p, 8, LE(flags, 2));
    if |inodes| >= 0xFFFF {
      return false;
    }
    Store(p, 10, LE(|inodes|, 2));
    HeaderStored(p[..], flags, |inodes|);
    HeaderBytes(p[..], flags, |inodes|);
    ok := true;
    var off, i := PAGE_HEADER_SIZE + ELEMENT_SIZE * |inodes|, 0;
    ghost var header := p[..PAGE_HEADER_SIZE];
    SameHeader(p[..], header);
    while i < |inodes|
      invariant 0 <= i <= |inodes| && off == DataStart(inodes, i)
      invariant forall k :: 0 <= k < i ==> ElementWritten(p[..], isLeaf, inodes, k)
      invariant p[..PAGE_HEADER_SIZE] == header
      invariant forall k :: 0 <= k < p.Length && Size(inodes) <= k ==> p[k] == old(p[k])
    {
      Region(inodes, i);
      ghost var was := p[..PAGE_HEADER_SIZE];
      WriteElement(p, isLeaf, inodes, i, off);
      assert p[..PAGE_HEADER_SIZE] == was;
      off := off + |inodes[i].key| + |inodes[i].value|;
      i := i + 1;
    }
    SameHeader(p[..], header);
  }

  lemma StartOfData(inodes: seq<Inode>)
    ensures DataStart(inodes, 0) == PAGE_HEADER_SIZE + ELEMENT_SIZE * |inodes|
    ensures Size(inodes) >= PAGE_HEADER_SIZE
  {
    SizeOf(inodes);
  }

  lemma HeaderStored(s: Bytes, flags: nat, count: nat)
    requires |s| >= PAGE_HEADER_SIZE && s[8..10] == LE(flags, 2) && s[10..12] == LE(count, 2)
    requires flags < 0x1_0000 && count < 0x1_0000
    ensures U16(s, 8) == flags && U16(s, 10) == count
  {
    Widths();
    LERoundTrip(flags, 2);
    LERoundTrip(count, 2);
  }

  /** Flags and count, byte by byte. */
  lemma HeaderBytes(s: Bytes, flags: nat, count: nat)
    requires |s| >= PAGE_HEADER_SIZE && s[8..10] == LE(flags, 2) && s[10..12] == LE(count, 2)
    requires flags < 256 && count < 0x1_0000
    ensures s[8] == flags && s[9] == 0 && s[10] == count % 256 && s[11] == count / 256
  {
    TwoBytes(flags);
    TwoBytes(count);
    assert s[8] == s[8..10][0] && s[9] == s[8..10][1] && s[10] == s[10..12][0] && s[11] == s[10..12][1];
  }

  lemma TwoBytes(v: nat)
    requires v < 0x1_0000
    ensures LE(v, 2) == [v % 256, v / 256]
  {
    assert LE(v / 256, 1) == [v / 256 % 256] + LE(v / 256 / 256, 0);
  }

  lemma SameHeader(s: Bytes, header: Bytes)
    requires |s| >= PAGE_HEADER_SIZE == |header| && s[..PAGE_HEADER_SIZE] == header
    ensures U16(s, 8) == U16(header, 8) && U16(s, 10) == U16(header, 10)
    ensures s[8] == header[8] && s[9] == header[9] && s[10] == header[10] && s[11] == header[11]
  {
    assert s[8..10] == header[8..10] && s[10..12] == header[10..12];
  }

  // ---------- reading ----------

  predicate IsLeafPage(s: Bytes)
    requires |s| >= PAGE_HEADER_SIZE
  {
    HasFlag(U16(s, 8), LEAF_PAGE_FLAG)
  }

  /** Every element's key and value lie on the page. */
  ghost predicate Readable(s: Bytes) {
    |s| >= PAGE_HEADER_SIZE && forall i :: 0 <= i < U16(s, 10) ==> ElementFits(s, IsLeafPage(s), i)
  }

  /** node.read: the kind, the elements, and the first key to find the node in its parent by. */
  method ReadNode(s: Bytes) returns (isLeaf: bool, inodes: seq<Inode>, key: Bytes)
    requires Readable(s)
    ensures isLeaf == IsLeafPage(s) && |inodes| == U16(s, 10)
    ensures forall i :: 0 <= i < |inodes| ==> ElementFits(s, isLeaf, i) && inodes[i] == InodeAt(s, isLeaf, i)
    ensures key == if |inodes| > 0 then inodes[0].key else []
  {
    hide ElementFits, InodeAt, U16;
    isLeaf, inodes := IsLeafPage(s), [];
    var count := U16(s, 10);
    while |inodes| < count
      invariant |inodes| <= count
      invariant forall i :: 0 <= i < |inodes| ==> inodes[i] == InodeAt(s, isLeaf, i)
    {
      inodes := inodes + [InodeAt(s, isLeaf, |inodes|)];
    }
    key := if |inodes| > 0 then inodes[0].key else [];
  }

  lemma FieldOf(s: Bytes, at: nat, v: nat, k: nat, tail: Bytes, head: Bytes)
    requires s == head + LE(v, k) + tail && at == |head| && v < Pow256(k)
    ensures at + k <= |s| && FromLE(s[at..at + k]) == v
  {
    LERoundTrip(v, k);
    assert s[at..at + k] == LE(v, k);
  }

  /** The fields of a table entry read back. */
  lemma ElementFields(isLeaf: bool, x: Inode, pos: nat)
    requires Storable(isLeaf, x) && pos < 0x1_0000_0000 && |x.key| < 0x1_0000_0000 && |x.value| < 0x1_0000_0000
    ensures var e := Element(isLeaf, x, pos);
      if isLeaf then U32(e, 0) == x.flags && U32(e, 4) == pos && U32(e, 8) == |x.key| && U32(e, 12) == |x.value|
      else U32(e, 0) == pos && U32(e, 4) == |x.key| && U64(e, 8) == x.pgid
  {
    hide LE, FromLE, Pow256;
    Widths();
    var e := Element(isLeaf, x, pos);
    if isLeaf {
      var a, b, c, d := LE(x.flags, 4), LE(pos, 4), LE(|x.key|, 4), LE(|x.value|, 4);
      assert e == [] + a + (b + c + d) && e == a + b + (c + d) && e == (a + b) + c + d && e == (a + b + c) + d + [];
      FieldOf(e, 0, x.flags, 4, b + c + d, []);
      FieldOf(e, 4, pos, 4, c + d, a);
      FieldOf(e, 8, |x.key|, 4, d, a + b);
      FieldOf(e, 12, |x.value|, 4, [], a + b + c);
    } else {
      var a, b, c := LE(pos, 4), LE(|x.key|, 4), LE(x.pgid, 8);
      assert e == [] + a + (b + c) && e == a + b + c && e == (a + b) + c + [];
      FieldOf(e, 0, pos, 4, b + c, []);
      FieldOf(e, 4, |x.key|, 4, c, a);
      FieldOf(e, 8, x.pgid, 8, [], a + b);
    }
  }

  lemma SubField(s: Bytes, lo: nat, e: Bytes, at: nat, k: nat)
    requires lo + |e| <= |s| && s[lo..lo + |e|] == e && at + k <= |e|
    ensures s[lo + at..lo + at + k] == e[at..at + k]
  {
    var whole, part := s[lo..lo + |e|], s[lo + at..lo + at + k];
    assert forall j :: 0 <= j < k ==> part[j] == whole[at + j];
    assert part == whole[at..at + k];
  }

  /** The fields of a written table entry. */
  lemma TableBack(s: Bytes, isLeaf: bool, inodes: seq<Inode>, i: nat)
    requires i < |inodes| && ElementWritten(s, isLeaf, inodes, i) && Storable(isLeaf, inodes[i])
    requires PosOf(inodes, i) + |inodes[i].key| + |inodes[i].value| < 0x1_0000_0000
    ensures ElementStart(i + 1) <= |s|
    ensures KeyAt(s, isLeaf, i) == ElementStart(i) + PosOf(inodes, i) && KeySize(s, isLeaf, i) == |inodes[i].key|
    ensures ValueSize(s, isLeaf, i) == |inodes[i].value|
    ensures if isLeaf then U32(s, ElementStart(i)) == inodes[i].flags else U64(s, ElementStart(i) + 8) == inodes[i].pgid
  {
    hide LE, FromLE, Element, PosOf, DataStart;
    var x, lo, e := inodes[i], ElementStart(i), Element(isLeaf, inodes[i], PosOf(inodes, i));
    ElementFields(isLeaf, x, PosOf(inodes, i));
    SubField(s, lo, e, 0, 4);
    SubField(s, lo, e, 4, 4);
    SubField(s, lo, e, 8, 4);
    SubField(s, lo, e, 12, 4);
    SubField(s, lo, e, 8, 8);
  }

  /**
   * The table on the page, byte for byte: an entry of 16 bytes per element behind a header of 16, with the numbers in
   * their places, and the distance to the data counted from the entry.
   */
  lemma TableBytes(s: Bytes, isLeaf: bool, inodes: seq<Inode>, i: nat)
    requires i < |inodes| && ElementWritten(s, isLeaf, inodes, i) && Storable(isLeaf, inodes[i]) && Size(inodes) < 0x1_0000_0000
    ensures var x, at, pos := inodes[i], 16 + 16 * i, 16 * (|inodes| - i) + |DataOf(inodes[..i])|;
      && at + 16 <= |s| && at + pos + |x.key| + |x.value| <= |s|
      && (isLeaf ==> FromLE(s[at..at + 4]) == x.flags && FromLE(s[at + 4..at + 8]) == pos
                     && FromLE(s[at + 8..at + 12]) == |x.key| && FromLE(s[at + 12..at + 16]) == |x.value|)
      && (!isLeaf ==> FromLE(s[at..at + 4]) == pos && FromLE(s[at + 4..at + 8]) == |x.key| && FromLE(s[at + 8..at + 16]) == x.pgid)
      && s[at + pos..at + pos + |x.key|] == x.key && s[at + pos + |x.key|..at + pos + |x.key| + |x.value|] == x.value
  {
    hide LE, FromLE, Element, Size, DataOf;
    Places(inodes, i);
    TableBack(s, isLeaf, inodes, i);
    DataBack(s, isLeaf, inodes, i);
  }

  /** The key and the value lie one after the other. */
  ghost predicate DataIn(s: Bytes, at: nat, x: Inode) {
    && at + |x.key| + |x.value| <= |s|
    && s[at..at + |x.key|] == x.key && s[at + |x.key|..at + |x.key| + |x.value|] == x.value
  }

  lemma DataBack(s: Bytes, isLeaf: bool, inodes: seq<Inode>, i: nat)
    requires i < |inodes| && ElementWritten(s, isLeaf, inodes, i)
    ensures DataIn(s, DataStart(inodes, i), inodes[i])
  {
    hide DataStart, Element, ElementStart;
    var x, at := inodes[i], DataStart(inodes, i);
    SubField(s, at, x.key + x.value, 0, |x.key|);
    SubField(s, at, x.key + x.value, |x.key|, |x.value|);
  }

  /** A written element reads back as it was. */
  lemma ElementBack(s: Bytes, isLeaf: bool, inodes: seq<Inode>, i: nat)
    requires i < |inodes| && ElementWritten(s, isLeaf, inodes, i) && Storable(isLeaf, inodes[i]) && Size(inodes) < 0x1_0000_0000
    ensures ElementFits(s, isLeaf, i) && InodeAt(s, isLeaf, i) == inodes[i]
  {
    hide ElementWritten, DataIn, Size, KeyAt, KeySize, ValueSize, U32, U64, ElementStart, DataStart, PosOf, Storable, ElementFits, InodeAt;
    Places(inodes, i);
    Unread(isLeaf, inodes[i]);
    TableBack(s, isLeaf, inodes, i);
    DataBack(s, isLeaf, inodes, i);
    InodeIs(s, isLeaf, i, inodes[i], DataStart(inodes, i));
  }

  lemma InodeIs(s: Bytes, isLeaf: bool, i: nat, x: Inode, k: nat)
    requires ElementStart(i + 1) <= |s| && KeyAt(s, isLeaf, i) == k && DataIn(s, k, x)
    requires KeySize(s, isLeaf, i) == |x.key| && ValueSize(s, isLeaf, i) == |x.value|
    requires if isLeaf then x.pgid == 0 && U32(s, ElementStart(i)) == x.flags
             else x.flags == 0 && x.value == [] && U64(s, ElementStart(i) + 8) == x.pgid
    ensures ElementFits(s, isLeaf, i) && InodeAt(s, isLeaf, i) == x
  {
    hide LE, FromLE, KeyAt, KeySize, ValueSize, U32, U64, ElementStart;
  }

  /** The fields the kind of page does not store. */
  lemma Unread(isLeaf: bool, x: Inode)
    requires Storable(isLeaf, x)
    ensures if isLeaf then x.pgid == 0 else x.flags == 0 && x.value == []
  {
  }

  lemma Places(inodes: seq<Inode>, i: nat)
    requires i < |inodes|
    ensures ElementStart(i) + PosOf(inodes, i) == DataStart(inodes, i)
    ensures PosOf(inodes, i) + |inodes[i].key| + |inodes[i].value| <= Size(inodes)
  {
    hide Size, DataOf;
    Region(inodes, i);
  }

  /** Round trip: what WriteNode leaves on a page, ReadNode gives back. */
  lemma ReadBack(s: Bytes, isLeaf: bool, inodes: seq<Inode>)
    requires Written(s, isLeaf, inodes) && |s| >= PAGE_HEADER_SIZE && Size(inodes) < 0x1_0000_0000
    requires forall i :: 0 <= i < |inodes| ==> Storable(isLeaf, inodes[i])
    ensures Readable(s) && IsLeafPage(s) == isLeaf && U16(s, 10) == |inodes|
    ensures forall i :: 0 <= i < |inodes| ==> InodeAt(s, isLeaf, i) == inodes[i]
  {
    hide ElementFits, InodeAt, ElementWritten, Size, U16, Storable;
    forall i | 0 <= i < |inodes| ensures ElementFits(s, isLeaf, i) && InodeAt(s, isLeaf, i) == inodes[i] {
      ElementBack(s, isLeaf, inodes, i);
    }
  }
}
