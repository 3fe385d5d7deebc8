/** Compact: copying all buckets of a database into another one, with commits along the way. */
module Compacting {
  import opened Options
  import opened Keys
  import opened Buckets

  /** A bucket as the destination sees it: its sequence number and what it maps keys to. */
  datatype Store = Store(sequence: nat, entries: map<Bytes, Item>)

  datatype Item = Value(bytes: Bytes) | Nested(store: Store)

  /** A bucket as the source yields it: its sequence number and its pairs in the order of ForEach. */
  datatype Source = Source(sequence: nat, pairs: seq<SourcePair>)

  datatype SourcePair = SourcePair(key: Bytes, item: SourceItem)

  datatype SourceItem = Plain(bytes: Bytes) | Sub(source: Source)

  /** What a database can hold: distinct keys that are not blank, keys and values of values within their limits. */
  ghost predicate Sound(b: Source)
    decreases b
  {
    && (forall i, j :: 0 <= i < j < |b.pairs| ==> b.pairs[i].key != b.pairs[j].key)
    && (forall i :: 0 <= i < |b.pairs| ==> SoundPair(b.pairs[i]))
  }

  ghost predicate SoundPair(p: SourcePair)
    decreases p
  {
    && |p.key| > 0
    && match p.item
       case Plain(bytes) => |p.key| <= MAX_KEY_SIZE && |bytes| <= MAX_VALUE_SIZE
       case Sub(source) => Sound(source)
  }

  /** The nested map a source bucket stands for. */
  ghost function Abs(b: Source): Store
    decreases b
  {
    Store(b.sequence, AbsPairs(b.pairs))
  }

  ghost function AbsPairs(pairs: seq<SourcePair>): map<Bytes, Item>
    decreases pairs
  {
    if pairs == [] then map[] else
      var last := pairs[|pairs| - 1];
      AbsPairs(pairs[..|pairs| - 1])[last.key := AbsItem(last.item)]
  }

  ghost function AbsItem(item: SourceItem): Item
    decreases item
  {
    match item
    case Plain(bytes) => Value(bytes)
    case Sub(source) => Nested(Abs(source))
  }

  lemma {:induction false} AbsKeys(pairs: seq<SourcePair>, k: Bytes)
    ensures k in AbsPairs(pairs) <==> exists i :: 0 <= i < |pairs| && pairs[i].key == k
    decreases pairs
  {
    if pairs == [] {
    } else {
      var r := pairs[..|pairs| - 1];
      AbsKeys(r, k);
      assert pairs == r + [pairs[|pairs| - 1]];
      if k in AbsPairs(r) {
        var i :| 0 <= i < |r| && r[i].key == k;
        assert pairs[i].key == k;
      }
      if exists i :: 0 <= i < |pairs| && pairs[i].key == k {
        var i :| 0 <= i < |pairs| && pairs[i].key == k;
        assert i < |r| ==> r[i].key == k;
      }
    }
  }

  // ---------- buckets by path ----------

  /** The bucket reached by descending through these names. */
  function Lookup(s: Store, path: seq<Bytes>): Opt<Store>
    decreases |path|
  {
    if path == [] then Some(s)
    else if path[0] in s.entries && s.entries[path[0]].Nested? then Lookup(s.entries[path[0]].store, path[1..])
    else None
  }

  /** Setting one entry of the bucket at a path. */
  function SetAt(s: Store, path: seq<Bytes>, k: Bytes, item: Item): Store
    requires Lookup(s, path).Some?
    decreases |path|
  {
    if path == [] then s.(entries := s.entries[k := item])
    else s.(entries := s.entries[path[0] := Nested(SetAt(s.entries[path[0]].store, path[1..], k, item))])
  }

  /** A bucket set at a path is found there, and setting one of its entries is setting the changed bucket. */
  lemma {:induction false} SetInside(s: Store, path: seq<Bytes>, k: Bytes, b: Store, k': Bytes, item: Item)
    requires Lookup(s, path).Some?
    ensures var s' := SetAt(s, path, k, Nested(b));
      && Lookup(s', path + [k]) == Some(b)
      && SetAt(s', path + [k], k', item) == SetAt(s, path, k, Nested(b.(entries := b.entries[k' := item])))
    decreases |path|
  {
    var s' := SetAt(s, path, k, Nested(b));
    if path == [] {
      assert (path + [k])[1..] == [];
      assert Lookup(b, []) == Some(b);
      assert s.entries[k := Nested(b)][k := Nested(b.(entries := b.entries[k' := item]))]
          == s.entries[k := Nested(b.(entries := b.entries[k' := item]))];
    } else {
      SetInside(s.entries[path[0]].store, path[1..], k, b, k', item);
      assert (path + [k])[1..] == path[1..] + [k];
    }
  }

  // ---------- the copy ----------

  class Db {
    var root: Store

    constructor (root: Store)
      ensures this.root == root
    {
      this.root := root;
    }
  }

  /** The error of adding a pair to a bucket: CreateBucket without a value, Put with one. */
  function AddError(b: Store, k: Bytes, v: Opt<Bytes>): Opt<Error> {
    if v.None? then
      if |k| == 0 then Some(ErrBucketNameRequired)
      else if k in b.entries then Some(if b.entries[k].Nested? then ErrBucketExists else ErrIncompatibleValue)
      else None
    else
      if |k| == 0 then Some(ErrKeyRequired)
      else if |k| > MAX_KEY_SIZE then Some(ErrKeyTooLarge)
      else if |v.value| > MAX_VALUE_SIZE then Some(ErrValueTooLarge)
      else if k in b.entries && b.entries[k].Nested? then Some(ErrIncompatibleValue)
      else None
  }

  function ItemOf(v: Opt<Bytes>, sequence: nat): Item {
    if v.None? then Nested(Store(sequence, map[])) else Value(v.value)
  }

  /** The destination and its open write transaction, while pairs come in. */
  class Compaction {
    const dst: Db
    const txMaxSize: int
    var size: int
    var tx: Store

    constructor (dst: Db, txMaxSize: int)
      ensures this.dst == dst && this.txMaxSize == txMaxSize && size == 0 && tx == dst.root
    {
      this.dst, this.txMaxSize, this.size, this.tx := dst, txMaxSize, 0, dst.root;
    }

    /** The walk callback: commit first if the transaction is full, then add the pair to the bucket at keys. */
    method Visit(keys: seq<Bytes>, k: Bytes, v: Opt<Bytes>, sequence: nat) returns (err: Opt<Error>)
      requires Lookup(tx, keys).Some?
      modifies this, dst
      ensures err == AddError(Lookup(old(tx), keys).value, k, v)
      ensures tx == if err.None? then SetAt(old(tx), keys, k, ItemOf(v, sequence)) else old(tx)
      ensures var sz := |k| + if v.Some? then |v.value| else 0;
        var full := old(size) + sz > txMaxSize && txMaxSize != 0;
        size == (if full then sz else old(size) + sz) && dst.root == (if full then old(tx) else old(dst.root))
    {
      var sz := |k| + if v.Some? then |v.value| else 0;
      if size + sz > txMaxSize && txMaxSize != 0 {
        dst.root := tx;
        tx := dst.root;
        size := 0;
      }
      size := size + sz;
      var b, i := tx, 0;
      while i < |keys|
        invariant 0 <= i <= |keys| && Lookup(b, keys[i..]) == Lookup(tx, keys)
      {
        assert keys[i..][1..] == keys[i + 1..];
        b, i := b.entries[keys[i]].store, i + 1;
      }
      err := AddError(b, k, v);
      if err.None? {
        tx := SetAt(tx, keys, k, ItemOf(v, sequence));
      }
    }

    /** walkBucket: hand over the pair and, for a bucket, everything in it. */
    method WalkBucket(keypath: seq<Bytes>, p: SourcePair, sequence: nat) returns (err: Opt<Error>)
      requires Lookup(tx, keypath).Some? && SoundPair(p)
      requires p.item.Sub? ==> sequence == p.item.source.sequence
      modifies this, dst
      ensures p.key !in Lookup(old(tx), keypath).value.entries ==>
        err.None? && tx == SetAt(old(tx), keypath, p.key, AbsItem(p.item))
      ensures p.key in Lookup(old(tx), keypath).value.entries && p.item.Sub? ==> err.Some?
      decreases p
    {
      err := Visit(keypath, p.key, if p.item.Plain? then Some(p.item.bytes) else None, sequence);
      if err.Some? || p.item.Plain? {
        return;
      }
      ghost var s0 := old(tx);
      var path, b, i := keypath + [p.key], p.item.source, 0;
      while i < |b.pairs|
        invariant 0 <= i <= |b.pairs| && err.None?
        invariant tx == SetAt(s0, keypath, p.key, Nested(Store(b.sequence, AbsPairs(b.pairs[..i]))))
      {
        var q := b.pairs[i];
        var so := Store(b.sequence, AbsPairs(b.pairs[..i]));
        SetInside(s0, keypath, p.key, so, q.key, AbsItem(q.item));
        AbsKeys(b.pairs[..i], q.key);
        assert b.pairs[..i + 1][..i] == b.pairs[..i];
        err := WalkBucket(path, q, if q.item.Sub? then q.item.source.sequence else b.sequence);
        i := i + 1;
      }
      assert b.pairs[..i] == b.pairs;
    }
  }

  /** The buckets of the source, none of which the destination has a key for. */
  ghost predicate Fresh(root: Store, src: Source) {
    forall i :: 0 <= i < |src.pairs| ==> src.pairs[i].key !in root.entries
  }

  /** A bucket with further entries next to its own. */
  ghost function Beside(root: Store, more: map<Bytes, Item>): Store {
    root.(entries := root.entries + more)
  }

  lemma BesideNone(root: Store)
    ensures Beside(root, AbsPairs([])) == root
  {
    assert root.entries + map[] == root.entries;
  }

  lemma BesideNext(root: Store, pairs: seq<SourcePair>, i: nat)
    requires i < |pairs|
    ensures SetAt(Beside(root, AbsPairs(pairs[..i])), [], pairs[i].key, AbsItem(pairs[i].item)) == Beside(root, AbsPairs(pairs[..i + 1]))
  {
    assert pairs[..i + 1][..i] == pairs[..i];
  }

  /**
   * Compact: for every transaction size, the destination ends up with the nested map of the source's buckets, sequence
   * numbers included, next to what it had. It fails exactly when one of the source's bucket names is taken.
   */
  method Compact(dst: Db, src: Source, txMaxSize: int) returns (err: Opt<Error>)
    requires Sound(src) && forall i :: 0 <= i < |src.pairs| ==> src.pairs[i].item.Sub?
    modifies dst
    ensures err.None? <==> Fresh(old(dst.root), src)
    ensures err.None? ==> dst.root == Beside(old(dst.root), Abs(src).entries)
  {
    hide AbsPairs, AbsItem;
    BesideNone(dst.root);
    var c := new Compaction(dst, txMaxSize);
    var i := 0;
    while i < |src.pairs|
      invariant 0 <= i <= |src.pairs| && c.dst == dst
      invariant forall j :: 0 <= j < i ==> src.pairs[j].key !in old(dst.root).entries
      invariant c.tx == Beside(old(dst.root), AbsPairs(src.pairs[..i]))
    {
      var p := src.pairs[i];
      AbsKeys(src.pairs[..i], p.key);
      BesideNext(old(dst.root), src.pairs, i);
      err := c.WalkBucket([], p, p.item.source.sequence);
      if err.Some? {
        return;
      }
      i := i + 1;
    }
    assert src.pairs[..i] == src.pairs;
    dst.root := c.tx;
    err := None;
  }
}
