/** What one operation of a bucket tells about the next. */
module BucketLaws {
  import opened Options
  import opened Keys
  import opened Trees
  import opened Shapes
  import opened Contents
  import opened Buckets

  /** What was put is what is found, and nothing else changes. */
  method PutThenGet(b: Bucket, key: Bytes, value: Bytes, other: Bytes) returns (err: Opt<Error>, before: Opt<Bytes>, found: Opt<Bytes>, after: Opt<Bytes>)
    requires b.Valid() && Tight(b.tree, Open)
    modifies b
    ensures b.Valid() && Tight(b.tree, Open)
    ensures err.None? ==> found == Some(value)
    ensures err.Some? || other != key ==> after == before
  {
    hide MapOf, Bucket.Valid;
    before := b.Get(other);
    err := b.Put(key, value);
    found := b.Get(key);
    after := b.Get(other);
  }

  /** A value may be put again over itself: what counts is the last one. */
  method PutTwice(b: Bucket, key: Bytes, value: Bytes, value': Bytes) returns (err: Opt<Error>, again: Opt<Error>, found: Opt<Bytes>)
    requires b.Valid() && Tight(b.tree, Open)
    modifies b
    ensures b.Valid() && Tight(b.tree, Open)
    ensures err.None? && |value'| <= |value| ==> again.None?
    ensures again.None? ==> found == Some(value')
  {
    hide MapOf, Bucket.Valid;
    err := b.Put(key, value);
    again := b.Put(key, value');
    found := b.Get(key);
  }

  /** What was deleted is gone, and can be put and made a bucket; nothing else changes. */
  method DeleteThenGet(b: Bucket, key: Bytes, other: Bytes) returns (err: Opt<Error>, before: Opt<Bytes>, found: Opt<Bytes>, after: Opt<Bytes>)
    requires b.Valid() && Tight(b.tree, Open)
    modifies b
    ensures b.Valid() && Tight(b.tree, Open)
    ensures err.None? ==> found == None && key !in b.Contents()
    ensures err.Some? || other != key ==> after == before
  {
    hide MapOf, Bucket.Valid;
    before := b.Get(other);
    err := b.Delete(key);
    found := b.Get(key);
    after := b.Get(other);
  }

  /** Deleting undoes putting a new key. */
  method PutThenDelete(b: Bucket, key: Bytes, value: Bytes) returns (err: Opt<Error>, undone: Opt<Error>)
    requires b.Valid() && Tight(b.tree, Open)
    modifies b
    ensures b.Valid() && Tight(b.tree, Open)
    ensures err.None? ==> undone.None? && b.Contents() == old(b.Contents()) - {key}
  {
    hide MapOf, Bucket.Valid;
    err := b.Put(key, value);
    undone := b.Delete(key);
  }

  /** A nested bucket has no value, and can be neither overwritten, deleted nor made again. */
  method CreateThenUse(b: Bucket, key: Bytes, header: Bytes, value: Bytes)
    returns (err: Opt<Error>, found: Opt<Bytes>, put: Opt<Error>, deleted: Opt<Error>, again: Opt<Error>)
    requires b.Valid() && Tight(b.tree, Open)
    modifies b
    ensures b.Valid() && Tight(b.tree, Open)
    ensures err.None? ==> found == None && deleted == Some(ErrIncompatibleValue) && again == Some(ErrBucketExists)
    ensures err.None? && |key| <= 32768 && |value| <= 2147483646 ==> put == Some(ErrIncompatibleValue)
    ensures err.None? ==> put.Some? && b.Contents() == old(b.Contents())[key := Entry(1, header)]
  {
    hide MapOf, Bucket.Valid;
    err := b.CreateBucket(key, header);
    found := b.Get(key);
    put := b.Put(key, value);
    deleted := b.Delete(key);
    again := b.CreateBucket(key, header);
  }

  /** Where there is a value no bucket can be made. */
  method PutThenCreate(b: Bucket, key: Bytes, value: Bytes, header: Bytes) returns (err: Opt<Error>, created: Opt<Error>, found: Opt<Bytes>)
    requires b.Valid() && Tight(b.tree, Open)
    modifies b
    ensures b.Valid() && Tight(b.tree, Open)
    ensures err.None? ==> created == Some(ErrIncompatibleValue) && found == Some(value)
  {
    hide MapOf, Bucket.Valid;
    err := b.Put(key, value);
    created := b.CreateBucket(key, header);
    found := b.Get(key);
  }

  /** Two keys come out in the order of their bytes, whichever is put first. */
  method PutBoth(b: Bucket, low: Bytes, high: Bytes, value: Bytes) returns (ok: bool, first: Opt<Pair>, sought: Opt<Pair>)
    requires b.Valid() && Tight(b.tree, Open) && b.Contents() == map[] && Precedes(low, high)
    modifies b
    ensures b.Valid() && Tight(b.tree, Open)
    ensures ok ==> first == Some(Pair(low, Some(value))) && sought == Some(Pair(high, Some(value)))
  {
    hide MapOf, Bucket.Valid, Precedes, PairIn;
    var err := b.Put(high, value);
    var err' := b.Put(low, value);
    ok := err.None? && err'.None?;
    var c := new Cursor(b);
    first := c.First();
    sought := c.Seek(high);
    if ok {
      TwoKeys(b.Contents(), low, high, Entry(0, value), first, sought);
    }
  }

  lemma TwoKeys(m: map<Bytes, Entry>, low: Bytes, high: Bytes, e: Entry, first: Opt<Pair>, sought: Opt<Pair>)
    requires Precedes(low, high) && m == map[][high := e][low := e] && e.flags == 0
    requires if first.None? then m == map[]
      else PairIn(first.value, m) && forall k :: k in m ==> k == first.value.key || Precedes(first.value.key, k)
    requires if sought.None? then forall k :: k in m ==> Precedes(k, high)
      else PairIn(sought.value, m) && !Precedes(sought.value.key, high)
           && forall k :: k in m ==> Precedes(k, high) || k == sought.value.key || Precedes(sought.value.key, k)
    ensures first == Some(Pair(low, Some(e.value))) && sought == Some(Pair(high, Some(e.value)))
  {
    hide Precedes, Less;
    TotalOrder();
    ByteOrder();
    assert low in m && high in m;
    assert Less(low, high) && !Less(high, low) && !Less(high, high);
  }
}
