/** Key/value contents: sorted lists of leaf elements against finite maps. */
module Contents {
  import opened Keys
  import opened Trees
  import opened Paths

  /** What a bucket maps a key to: a value, or with the bucket flag a nested bucket's header. */
  datatype Entry = Entry(flags: nat, value: Bytes)

  ghost function MapOf(s: seq<Inode>): map<Bytes, Entry> {
    if s == [] then map[] else MapOf(s[..|s| - 1])[s[|s| - 1].key := Entry(s[|s| - 1].flags, s[|s| - 1].value)]
  }

  ghost function EntryOf(x: Inode): Entry {
    Entry(x.flags, x.value)
  }

  ghost predicate HasKey(s: seq<Inode>, k: Bytes) {
    exists x :: x in s && x.key == k
  }

  /** A sorted list and its map hold the same pairs. */
  lemma {:induction false} MapOfPairs(s: seq<Inode>)
    requires Sorted(s)
    ensures forall x :: x in s ==> x.key in MapOf(s) && MapOf(s)[x.key] == EntryOf(x)
    ensures forall k :: k in MapOf(s) ==> HasKey(s, k)
  {
    hide Less;
    TotalOrder();
    if s == [] {
    } else {
      var r, last := s[..|s| - 1], s[|s| - 1];
      MapOfPairs(r);
      assert s == r + [last];
      forall k | k in MapOf(s) ensures HasKey(s, k) {
        if k in MapOf(r) {
          assert HasKey(r, k);
          var x :| x in r && x.key == k;
          assert x in s;
        } else {
          assert last in s;
        }
      }
      forall x | x in s ensures x.key in MapOf(s) && MapOf(s)[x.key] == EntryOf(x) {
        if x != last {
          var i :| 0 <= i < |s| && s[i] == x;
          assert r[i] == x;
        }
      }
    }
  }

  /** Lists that agree on all other keys have maps that agree on all other keys. */
  lemma SameElsewhere(s: seq<Inode>, u: seq<Inode>, key: Bytes)
    requires Sorted(s) && Sorted(u)
    requires forall x: Inode :: x.key != key ==> (x in s <==> x in u)
    ensures MapOf(u) - {key} == MapOf(s) - {key}
  {
    hide Less, MapOf, Sorted;
    MapOfPairs(s);
    MapOfPairs(u);
    forall k | k != key ensures k in MapOf(u) <==> k in MapOf(s) {
      if k in MapOf(s) {
        var x :| x in s && x.key == k;
        assert x in u;
      }
      if k in MapOf(u) {
        var x :| x in u && x.key == k;
        assert x in s;
      }
    }
    forall k | k in MapOf(s) && k != key ensures MapOf(u)[k] == MapOf(s)[k] {
      assert HasKey(s, k);
      var x :| x in s && x.key == k;
      assert x in u;
    }
  }

  /** node.put: overwrite the element with the key, or insert one in its place. */
  function PutAt(s: seq<Inode>, i: nat, exact: bool, x: Inode): seq<Inode>
    requires i <= |s| && (exact ==> i < |s|)
  {
    if exact then s[i := x] else s[..i] + [x] + s[i..]
  }

  ghost function Upsert(s: seq<Inode>, x: Inode): seq<Inode> {
    PutAt(s, LowerBound(s, x.key), Hit(s, x.key), x)
  }

  ghost function Remove(s: seq<Inode>, key: Bytes): seq<Inode> {
    var i := LowerBound(s, key);
    if Hit(s, key) then s[..i] + s[i + 1..] else s
  }

  lemma UpsertSorted(s: seq<Inode>, x: Inode)
    requires Sorted(s)
    ensures Sorted(Upsert(s, x))
    ensures forall y :: y in Upsert(s, x) ==> y in s || y == x
  {
    hide Less;
    TotalOrder();
    LowerBoundSplits(s, x.key);
  }

  lemma RemoveSorted(s: seq<Inode>, key: Bytes)
    requires Sorted(s)
    ensures Sorted(Remove(s, key))
    ensures forall y :: y in Remove(s, key) ==> y in s
  {
  }

  lemma UpsertElements(s: seq<Inode>, x: Inode, y: Inode)
    requires Sorted(s)
    ensures x in Upsert(s, x)
    ensures y.key != x.key ==> (y in s <==> y in Upsert(s, x))
  {
    hide Less, LowerBound;
    var u, i := Upsert(s, x), LowerBound(s, x.key);
    assert u[i] == x;
    if y.key != x.key && y in s {
      var j :| 0 <= j < |s| && s[j] == y;
      assert u[if j < i || Hit(s, x.key) then j else j + 1] == y;
    }
  }

  lemma RemoveElements(s: seq<Inode>, key: Bytes, y: Inode)
    requires Sorted(s)
    ensures y in Remove(s, key) ==> y.key != key
    ensures y.key != key ==> (y in s <==> y in Remove(s, key))
  {
    hide Less, LowerBound;
    TotalOrder();
    LowerBoundSplits(s, key);
    var u, i := Remove(s, key), LowerBound(s, key);
    if y.key != key && y in s {
      var j :| 0 <= j < |s| && s[j] == y;
      assert u[if j < i || !Hit(s, key) then j else j - 1] == y;
    }
    if y in u {
      var j :| 0 <= j < |u| && u[j] == y;
      assert y == s[if j < i || !Hit(s, key) then j else j + 1];
    }
  }

  /** Putting into the list is putting into the map. */
  lemma UpsertMap(s: seq<Inode>, x: Inode)
    requires Sorted(s)
    ensures MapOf(Upsert(s, x)) == MapOf(s)[x.key := EntryOf(x)]
  {
    hide Less, MapOf, Upsert;
    UpsertSorted(s, x);
    forall y: Inode ensures x in Upsert(s, x) && (y.key != x.key ==> (y in s <==> y in Upsert(s, x))) {
      UpsertElements(s, x, y);
    }
    SameElsewhere(s, Upsert(s, x), x.key);
    MapOfPairs(Upsert(s, x));
    SplitMap(MapOf(Upsert(s, x)), MapOf(s), x.key);
  }

  lemma SplitMap(u: map<Bytes, Entry>, m: map<Bytes, Entry>, k: Bytes)
    requires u - {k} == m - {k} && k in u
    ensures u == m[k := u[k]]
  {
    forall j | j != k ensures j in u <==> j in m {
      assert j in u - {k} <==> j in m - {k};
    }
    forall j | j in u && j != k ensures u[j] == m[j] {
      assert (u - {k})[j] == (m - {k})[j];
    }
  }

  lemma RemoveMap(s: seq<Inode>, key: Bytes)
    requires Sorted(s)
    ensures MapOf(Remove(s, key)) == MapOf(s) - {key}
  {
    hide Less, MapOf, Remove;
    RemoveSorted(s, key);
    forall y: Inode ensures (y in Remove(s, key) ==> y.key != key) && (y.key != key ==> (y in s <==> y in Remove(s, key))) {
      RemoveElements(s, key, y);
    }
    SameElsewhere(s, Remove(s, key), key);
    MapOfPairs(Remove(s, key));
    assert key !in MapOf(Remove(s, key)) by {
      assert !HasKey(Remove(s, key), key);
    }
    assert MapOf(Remove(s, key)) == MapOf(Remove(s, key)) - {key};
  }

  /** A key is in the map exactly when a search for it hits. */
  lemma HitMap(s: seq<Inode>, key: Bytes)
    requires Sorted(s)
    ensures key in MapOf(s) <==> Hit(s, key)
    ensures Hit(s, key) ==> var x := s[LowerBound(s, key)]; MapOf(s)[key] == EntryOf(x)
  {
    hide Less, MapOf, LowerBound;
    TotalOrder();
    LowerBoundSplits(s, key);
    MapOfPairs(s);
    if HasKey(s, key) {
      var x :| x in s && x.key == key;
      var i :| 0 <= i < |s| && s[i] == x;
      assert !Less(s[i].key, key);
    }
  }

  // ---------- one leaf among the rest ----------

  /** The neighbours of the leaf a search reaches do not affect the search in it. */
  lemma BoundInside(a: seq<Inode>, s: seq<Inode>, b: seq<Inode>, key: Bytes)
    requires Sorted(a + s + b) && AllBelow(a, key) && AllAbove(b, key)
    ensures LowerBound(a + s + b, key) == |a| + LowerBound(s, key)
    ensures Hit(a + s + b, key) <==> Hit(s, key)
  {
    hide Less, LowerBound;
    TotalOrder();
    var i, all := LowerBound(s, key), a + s + b;
    assert forall j :: 0 <= j < |a| ==> all[j] == a[j];
    assert forall j :: 0 <= j < |s| ==> all[|a| + j] == s[j];
    assert forall j :: 0 <= j < |b| ==> all[|a| + |s| + j] == b[j];
    LowerBoundIs(all, key, |a| + i);
  }

  lemma UpsertInside(a: seq<Inode>, s: seq<Inode>, b: seq<Inode>, x: Inode)
    requires Sorted(a + s + b) && AllBelow(a, x.key) && AllAbove(b, x.key)
    ensures Upsert(a + s + b, x) == a + Upsert(s, x) + b
  {
    hide Less, LowerBound, Sorted, AllBelow, AllAbove;
    BoundInside(a, s, b, x.key);
    PutInside(a, s, b, LowerBound(s, x.key), x);
  }

  lemma PutInside(a: seq<Inode>, s: seq<Inode>, b: seq<Inode>, i: nat, x: Inode)
    requires i <= |s|
    ensures PutAt(a + s + b, |a| + i, false, x) == a + PutAt(s, i, false, x) + b
    ensures i < |s| ==> PutAt(a + s + b, |a| + i, true, x) == a + PutAt(s, i, true, x) + b
  {
    assert (a + s + b)[..|a| + i] == a + s[..i];
    assert (a + s + b)[|a| + i..] == s[i..] + b;
  }

  lemma RemoveInside(a: seq<Inode>, s: seq<Inode>, b: seq<Inode>, key: Bytes)
    requires Sorted(a + s + b) && AllBelow(a, key) && AllAbove(b, key)
    ensures Remove(a + s + b, key) == a + Remove(s, key) + b
  {
    hide Less, LowerBound, Sorted, AllBelow, AllAbove;
    BoundInside(a, s, b, key);
    var i := LowerBound(s, key);
    if i < |s| {
      CutInside(a, s, b, i);
    }
  }

  lemma CutInside(a: seq<Inode>, s: seq<Inode>, b: seq<Inode>, i: nat)
    requires i < |s|
    ensures (a + s + b)[..|a| + i] + (a + s + b)[|a| + i + 1..] == a + (s[..i] + s[i + 1..]) + b
  {
    assert (a + s + b)[..|a| + i] == a + s[..i];
    assert (a + s + b)[|a| + i + 1..] == s[i + 1..] + b;
  }
}
