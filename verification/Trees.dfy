/** The tree a bucket's pages and nodes form: contents in key order, separators, and search paths. */
module Trees {
  import opened Keys

  /** An element of a page or node: flags, key and value in a leaf, key and child page in a branch. */
  datatype Inode = Inode(flags: nat, pgid: nat, key: Bytes, value: Bytes)

  datatype Tree =
    | Leaf(id: nat, inodes: seq<Inode>)
    | Branch(id: nat, inodes: seq<Inode>, kids: seq<Tree>)

  datatype Bound = Open | At(key: Bytes)

  /** A position in one page or node of a cursor's stack. */
  datatype Ref = Ref(id: nat, index: nat)

  ghost predicate AtLeast(k: Bytes, lo: Bound) {
    lo.At? ==> !Less(k, lo.key)
  }

  ghost predicate Below(k: Bytes, hi: Bound) {
    hi.At? ==> Less(k, hi.key)
  }

  ghost predicate Within(s: seq<Inode>, lo: Bound, hi: Bound) {
    forall i :: 0 <= i < |s| ==> AtLeast(s[i].key, lo) && Below(s[i].key, hi)
  }

  ghost predicate Sorted(s: seq<Inode>) {
    forall i, j :: 0 <= i < j < |s| ==> Less(s[i].key, s[j].key)
  }

  // ---------- contents ----------

  /** The leaf elements of the tree from left to right. */
  ghost function Flatten(t: Tree): seq<Inode>
    decreases t
  {
    match t
    case Leaf(_, inodes) => inodes
    case Branch(_, _, kids) => FlattenAll(kids)
  }

  ghost function FlattenAll(kids: seq<Tree>): seq<Inode>
    decreases kids
  {
    if kids == [] then [] else Flatten(kids[0]) + FlattenAll(kids[1..])
  }

  lemma {:induction false} FlattenConcat(a: seq<Tree>, b: seq<Tree>)
    ensures FlattenAll(a + b) == FlattenAll(a) + FlattenAll(b)
  {
    if a == [] {
      assert a + b == b;
    } else {
      FlattenConcat(a[1..], b);
      assert (a + b)[1..] == a[1..] + b;
      var head, mid, tail := Flatten(a[0]), FlattenAll(a[1..]), FlattenAll(b);
      assert FlattenAll(a + b) == head + (mid + tail);
      assert FlattenAll(a) + tail == head + mid + tail;
    }
  }

  lemma FlattenAround(kids: seq<Tree>, i: nat)
    requires i < |kids|
    ensures FlattenAll(kids) == FlattenAll(kids[..i]) + Flatten(kids[i]) + FlattenAll(kids[i + 1..])
  {
    assert kids == kids[..i] + kids[i..];
    FlattenConcat(kids[..i], kids[i..]);
    assert kids[i..][1..] == kids[i + 1..];
  }

  // ---------- the separator invariant ----------

  /** The bounds for child i: child 0 of a leftmost branch has no lower bound, every other child its separator. */
  ghost function KidLo(inodes: seq<Inode>, lo: Bound, i: nat): Bound
    requires i < |inodes|
  {
    if i == 0 && lo.Open? then Open else At(inodes[i].key)
  }

  ghost function KidHi(inodes: seq<Inode>, hi: Bound, i: nat): Bound
    requires i < |inodes|
  {
    if i + 1 < |inodes| then At(inodes[i + 1].key) else hi
  }

  /** Keys strictly increasing in every page, and every child within its separators. */
  ghost predicate Ordered(t: Tree, lo: Bound, hi: Bound)
    decreases t
  {
    && Sorted(t.inodes) && Within(t.inodes, lo, hi)
    && (t.Branch? ==>
          && |t.kids| == |t.inodes| > 0
          && forall i :: 0 <= i < |t.kids| ==> Ordered(t.kids[i], KidLo(t.inodes, lo, i), KidHi(t.inodes, hi, i)))
  }

  // ---------- key order over the whole tree ----------

  lemma SortedConcat(a: seq<Inode>, b: seq<Inode>, lo: Bound, mid: Bytes, hi: Bound)
    requires Sorted(a) && Sorted(b) && Within(a, lo, At(mid)) && Within(b, At(mid), hi)
    requires AtLeast(mid, lo) && Below(mid, hi)
    ensures Sorted(a + b) && Within(a + b, lo, hi)
  {
    hide Less;
    TotalOrder();
  }

  /** The contents of an ordered tree are strictly increasing and within its bounds. */
  lemma {:induction false} FlattenOrdered(t: Tree, lo: Bound, hi: Bound)
    requires Ordered(t, lo, hi)
    ensures Sorted(Flatten(t)) && Within(Flatten(t), lo, hi)
    decreases t, 1, 0
  {
    if t.Branch? {
      FlattenOrderedFrom(t, lo, hi, 0);
      assert t.kids[0..] == t.kids;
      if lo.At? {
        WithinWeaker(Flatten(t), At(t.inodes[0].key), lo, hi);
      }
    }
  }

  lemma WithinWeaker(s: seq<Inode>, lo: Bound, lo': Bound, hi: Bound)
    requires Within(s, lo, hi) && lo.At? && AtLeast(lo.key, lo')
    ensures Within(s, lo', hi)
  {
    hide Less;
    TotalOrder();
  }

  lemma {:induction false} FlattenOrderedFrom(t: Tree, lo: Bound, hi: Bound, i: nat)
    requires Ordered(t, lo, hi) && t.Branch? && i < |t.kids|
    ensures Sorted(FlattenAll(t.kids[i..])) && Within(FlattenAll(t.kids[i..]), KidLo(t.inodes, lo, i), hi)
    decreases t, 0, |t.kids| - i
  {
    hide Less;
    TotalOrder();
    var rest := t.kids[i..];
    FlattenOrdered(t.kids[i], KidLo(t.inodes, lo, i), KidHi(t.inodes, hi, i));
    assert FlattenAll(rest) == Flatten(t.kids[i]) + FlattenAll(rest[1..]);
    assert rest[1..] == t.kids[i + 1..];
    if i + 1 < |t.kids| {
      FlattenOrderedFrom(t, lo, hi, i + 1);
      SortedConcat(Flatten(t.kids[i]), FlattenAll(t.kids[i + 1..]), KidLo(t.inodes, lo, i), t.inodes[i + 1].key, hi);
    } else {
      assert FlattenAll(rest[1..]) == [];
      assert Flatten(t.kids[i]) + [] == Flatten(t.kids[i]);
    }
  }
}
