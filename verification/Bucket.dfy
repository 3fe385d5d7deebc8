/** Buckets and cursors: nodes overlaying pages, search, iteration, Get, Put and Delete. */
module Buckets {
  import opened Options
  import opened Keys
  import opened Trees
  import opened Paths
  import opened Contents
  import opened Shapes

  const MAX_KEY_SIZE: nat := 32768
  const MAX_VALUE_SIZE: nat := 0x7FFF_FFFE

  datatype Error =
    | ErrTxClosed
    | ErrTxNotWritable
    | ErrKeyRequired
    | ErrKeyTooLarge
    | ErrValueTooLarge
    | ErrIncompatibleValue
    | ErrBucketNameRequired
    | ErrBucketExists

  /** What a cursor returns: the key, and no value for a nested bucket. */
  datatype Pair = Pair(key: Bytes, value: Opt<Bytes>)

  predicate IsBucket(flags: nat) {
    flags % 2 == 1
  }

  function PairOf(x: Inode): Pair {
    Pair(x.key, if IsBucket(x.flags) then None else Some(x.value))
  }

  /** The key a node gets when its page is read; nil for an empty page. */
  function FirstKey(inodes: seq<Inode>): Bytes {
    if |inodes| > 0 then inodes[0].key else []
  }

  /** The pages, overlaid with the nodes, form this tree; branches in thin may have a single child. */
  ghost predicate StoredBut(pages: map<nat, Data>, nodes: map<nat, Node>, t: Tree, h: nat, thin: set<nat>) {
    && Shaped(t, h, thin) && Ordered(t, Open, Open)
    && Holds(pages, nodes, t) && Linked(t, nodes)
    && nodes.Keys <= Ids(t) && (t.id in nodes ==> nodes[t.id].parent == Root)
    && (nodes != map[] ==> t.id in nodes) && (0 in Ids(t) ==> t.Leaf?)
  }

  ghost predicate Stored(pages: map<nat, Data>, nodes: map<nat, Node>, t: Tree, h: nat) {
    StoredBut(pages, nodes, t, h, {})
  }

  class Bucket {
    const pages: map<nat, Data>
    const open: bool
    const writable: bool
    const pageSize: nat
    var root: nat
    var nodes: map<nat, Node>
    var freed: set<nat>
    ghost var tree: Tree
    ghost var height: nat

    ghost predicate Valid()
      reads this
    {
      && Stored(pages, nodes, tree, height) && tree.id == root
      && (!writable ==> nodes == map[]) && freed !! Ids(tree)
    }

    /** The key/value pairs of the bucket. */
    ghost function Contents(): map<Bytes, Entry>
      reads this
    {
      MapOf(Flatten(tree))
    }

    /** A bucket over pages that form a tree, as every transaction finds it. */
    constructor (pages: map<nat, Data>, root: nat, open: bool, writable: bool, pageSize: nat, ghost tree: Tree, ghost height: nat)
      requires Stored(pages, map[], tree, height) && tree.id == root
      ensures Valid() && Contents() == MapOf(Flatten(tree)) && nodes == map[] && freed == {}
      ensures this.tree == tree && this.height == height
    {
      this.pages, this.root, this.open, this.writable, this.pageSize := pages, root, open, writable, pageSize;
      this.nodes, this.freed, this.tree, this.height := map[], {}, tree, height;
    }

    /** pageNode: the node if there is one, else the page. */
    function PageNode(id: nat): (d: Data)
      requires Held(pages, nodes, id)
      reads this
    {
      Shown(pages, nodes, id)
    }

    /** node: bring a page into memory under a parent, unless it is there already. */
    method Materialize(id: nat, parent: Place)
      requires Held(pages, nodes, id)
      modifies this`nodes
      ensures nodes == Brought(pages, old(nodes), id, parent)
    {
      if id !in nodes {
        var p := pages[id];
        nodes := nodes[id := Node(p.isLeaf, false, FirstKey(p.inodes), parent, p.inodes)];
      }
    }

    /** Get: the value of a key; nothing for a missing key or a nested bucket. */
    method Get(key: Bytes) returns (value: Opt<Bytes>)
      requires Valid()
      ensures value == if key in Contents() && !IsBucket(Contents()[key].flags) then Some(Contents()[key].value) else None
    {
      var c := new Cursor(this);
      var x := c.SeekLeaf(key);
      SeekFinds(tree, key);
      value := if x.Some? && !IsBucket(x.value.flags) && x.value.key == key then Some(x.value.value) else None;
    }

    /** node.put: overwrite the element with the key, or insert one. */
    method PutElement(id: nat, x: Inode)
      requires id in nodes && Sorted(nodes[id].inodes)
      modifies this`nodes
      ensures nodes == old(nodes)[id := old(nodes)[id].(inodes := Upsert(old(nodes)[id].inodes, x))]
    {
      var n := nodes[id];
      var index, exact := SortSearch(n.inodes, x.key);
      nodes := nodes[id := n.(inodes := PutAt(n.inodes, index, exact, x))];
    }

    /** node.del: remove the element with the key and mark the node unbalanced. */
    method DeleteElement(id: nat, key: Bytes)
      requires id in nodes && Sorted(nodes[id].inodes)
      modifies this`nodes
      ensures nodes == old(nodes)[id := Deleted(old(nodes)[id], key)]
    {
      var n := nodes[id];
      var index, exact := SortSearch(n.inodes, key);
      if !exact {
        assert nodes == nodes[id := Deleted(n, key)];
        return;
      }
      nodes := nodes[id := n.(inodes := n.inodes[..index] + n.inodes[index + 1..], unbalanced := true)];
    }

    /** Insert or overwrite one element: the common part of Put and CreateBucket. */
    method Insert(c: Cursor, x: Inode)
      requires Valid() && writable && Tight(tree, Open) && c.bucket == this && c.stack == PathTo(tree, x.key) && x.pgid == 0
      modifies this
      ensures Valid() && Tight(tree, Open) && Contents() == old(Contents())[x.key := EntryOf(x)]
      ensures root == old(root) && freed == old(freed)
    {
      hide StoredBut, Upsert, MapOf, Less;
      StoredOrdered(pages, nodes, tree, height);
      SeekFinds(tree, x.key);
      var id := c.MaterializePath();
      LeafNode(pages, nodes, tree, height, x.key);
      ghost var its := Upsert(nodes[id].inodes, x);
      InsertStored(pages, nodes, tree, height, x);
      PutElement(id, x);
      tree := Edit(tree, PathTo(tree, x.key), its);
    }

    /** Remove the element with a key from the leaf a search reached, if it is there. */
    method Erase(c: Cursor, key: Bytes)
      requires Valid() && writable && Tight(tree, Open) && c.bucket == this && c.stack == PathTo(tree, key)
      modifies this
      ensures Valid() && Tight(tree, Open) && Contents() == old(Contents()) - {key}
      ensures root == old(root) && freed == old(freed)
    {
      hide StoredBut, Deleted, Remove, Less;
      StoredOrdered(pages, nodes, tree, height);
      SeekFinds(tree, key);
      var id := c.MaterializePath();
      LeafNode(pages, nodes, tree, height, key);
      ghost var its := Remove(nodes[id].inodes, key);
      RemoveStored(pages, nodes, tree, height, key);
      DeleteElement(id, key);
      tree := Edit(tree, PathTo(tree, key), its);
    }

    /** Put: set the value of a key. */
    method Put(key: Bytes, value: Bytes) returns (err: Opt<Error>)
      requires Valid() && Tight(tree, Open)
      modifies this
      ensures Valid() && Tight(tree, Open)
      ensures err == PutError(open, writable, old(Contents()), key, value)
      ensures err.None? <==>
        (open && writable && 0 < |key| <= 32768 && |value| <= 2147483646 && (key in old(Contents()) ==> old(Contents())[key].flags % 2 == 0))
      ensures Contents() == if err.None? then old(Contents())[key := Entry(0, value)] else old(Contents())
    {
      hide StoredBut, LowerBound, MapOf, Less;
      if !open {
        return Some(ErrTxClosed);
      } else if !writable {
        return Some(ErrTxNotWritable);
      } else if |key| == 0 {
        return Some(ErrKeyRequired);
      } else if |key| > MAX_KEY_SIZE {
        return Some(ErrKeyTooLarge);
      } else if |value| > MAX_VALUE_SIZE {
        return Some(ErrValueTooLarge);
      }
      StoredOrdered(pages, nodes, tree, height);
      var c := new Cursor(this);
      var k := c.SeekLeaf(key);
      SeekFinds(tree, key);
      if k.Some? && k.value.key == key && IsBucket(k.value.flags) {
        return Some(ErrIncompatibleValue);
      }
      Insert(c, Inode(0, 0, key, value));
      err := None;
    }

    /** CreateBucket: a new key with the bucket flag; the value is the header and page of an empty bucket. */
    method CreateBucket(key: Bytes, header: Bytes) returns (err: Opt<Error>)
      requires Valid() && Tight(tree, Open)
      modifies this
      ensures Valid() && Tight(tree, Open)
      ensures err == CreateError(open, writable, old(Contents()), key)
      ensures err.None? <==> open && writable && |key| > 0 && key !in old(Contents())
      ensures Contents() == if err.None? then old(Contents())[key := Entry(1, header)] else old(Contents())
    {
      if !open {
        return Some(ErrTxClosed);
      } else if !writable {
        return Some(ErrTxNotWritable);
      } else if |key| == 0 {
        return Some(ErrBucketNameRequired);
      }
      var c := new Cursor(this);
      var k := c.SeekLeaf(key);
      SeekFinds(tree, key);
      if k.Some? && k.value.key == key {
        return Some(if IsBucket(k.value.flags) then ErrBucketExists else ErrIncompatibleValue);
      }
      Insert(c, Inode(1, 0, key, header));
      err := None;
    }

    /** Delete: remove a key; a missing key is no error, a nested bucket is. */
    method Delete(key: Bytes) returns (err: Opt<Error>)
      requires Valid() && Tight(tree, Open)
      modifies this
      ensures Valid() && Tight(tree, Open)
      ensures err == DeleteError(open, writable, old(Contents()), key)
      ensures err.None? <==> open && writable && (key in old(Contents()) ==> old(Contents())[key].flags % 2 == 0)
      ensures Contents() == if err.None? then old(Contents()) - {key} else old(Contents())
    {
      hide StoredBut, LowerBound, MapOf;
      if !open {
        return Some(ErrTxClosed);
      } else if !writable {
        return Some(ErrTxNotWritable);
      }
      StoredOrdered(pages, nodes, tree, height);
      var c := new Cursor(this);
      var k := c.SeekLeaf(key);
      SeekFinds(tree, key);
      var found := if k.Some? then k.value.key else [];
      if found != key {
        return None;
      }
      if k.Some? && IsBucket(k.value.flags) {
        return Some(ErrIncompatibleValue);
      }
      Erase(c, key);
      err := None;
    }

    /** ForEach: every pair in key order, until the callback fails. */
    method ForEach(fails: Pair -> bool) returns (visited: seq<Pair>, failed: bool)
      requires Valid() && open
      ensures visited == Visited(Flatten(tree), fails) && failed == AnyFails(Flatten(tree), fails)
    {
      hide Remaining, StoredBut, PairOf, Following, Flatten, Cursor.Stands, Cursor.Placed, Cursor.Ahead;
      visited, failed := [], false;
      var c := new Cursor(this);
      var r := c.First();
      ghost var all := Flatten(tree);
      ghost var rest := all;
      while r.Some?
        invariant c.bucket == this && c.Stands(rest) && r == HeadPair(rest)
        invariant visited + Visited(rest, fails) == Visited(all, fails)
        invariant AnyFails(all, fails) == AnyFails(rest, fails)
        decreases |rest|
      {
        VisitedStep(visited, rest, fails);
        visited := visited + [r.value];
        if fails(r.value) {
          failed := true;
          return;
        }
        StandsAhead(c, rest);
        r := c.Next();
        rest := rest[1..];
      }
    }
  }

  /** The pairs a callback sees: all of them, or up to the first it fails on. */
  ghost function Visited(s: seq<Inode>, fails: Pair -> bool): seq<Pair> {
    if s == [] then []
    else if fails(PairOf(s[0])) then [PairOf(s[0])]
    else [PairOf(s[0])] + Visited(s[1..], fails)
  }

  ghost predicate AnyFails(s: seq<Inode>, fails: Pair -> bool) {
    s != [] && (fails(PairOf(s[0])) || AnyFails(s[1..], fails))
  }

  lemma VisitedStep(seen: seq<Pair>, s: seq<Inode>, fails: Pair -> bool)
    requires s != []
    ensures seen + Visited(s, fails) == (seen + [PairOf(s[0])]) + if fails(PairOf(s[0])) then [] else Visited(s[1..], fails)
    ensures AnyFails(s, fails) == (fails(PairOf(s[0])) || AnyFails(s[1..], fails))
  {
  }

  /** Without a failure every pair is seen, once and in order. */
  lemma {:induction false} VisitedAll(s: seq<Inode>, fails: Pair -> bool)
    requires !AnyFails(s, fails)
    ensures |Visited(s, fails)| == |s| && forall i :: 0 <= i < |s| ==> Visited(s, fails)[i] == PairOf(s[i])
  {
    if s == [] {
    } else {
      VisitedAll(s[1..], fails);
    }
  }

  /** A node after node.del: an element removed marks it for rebalancing. */
  ghost function Deleted(n: Node, key: Bytes): Node {
    n.(inodes := Remove(n.inodes, key), unbalanced := n.unbalanced || Hit(n.inodes, key))
  }

  function PutError(open: bool, writable: bool, m: map<Bytes, Entry>, key: Bytes, value: Bytes): Opt<Error> {
    if !open then Some(ErrTxClosed)
    else if !writable then Some(ErrTxNotWritable)
    else if |key| == 0 then Some(ErrKeyRequired)
    else if |key| > MAX_KEY_SIZE then Some(ErrKeyTooLarge)
    else if |value| > MAX_VALUE_SIZE then Some(ErrValueTooLarge)
    else if key in m && IsBucket(m[key].flags) then Some(ErrIncompatibleValue)
    else None
  }

  function CreateError(open: bool, writable: bool, m: map<Bytes, Entry>, key: Bytes): Opt<Error> {
    if !open then Some(ErrTxClosed)
    else if !writable then Some(ErrTxNotWritable)
    else if |key| == 0 then Some(ErrBucketNameRequired)
    else if key in m then Some(if IsBucket(m[key].flags) then ErrBucketExists else ErrIncompatibleValue)
    else None
  }

  function DeleteError(open: bool, writable: bool, m: map<Bytes, Entry>, key: Bytes): Opt<Error> {
    if !open then Some(ErrTxClosed)
    else if !writable then Some(ErrTxNotWritable)
    else if key in m && IsBucket(m[key].flags) then Some(ErrIncompatibleValue)
    else None
  }

  /** The leaf a search reaches, once in memory. */
  lemma LeafNode(pages: map<nat, Data>, nodes: map<nat, Node>, t: Tree, h: nat, key: Bytes)
    requires Stored(pages, nodes, t, h) && OnLeaf(t, PathTo(t, key)) && Top(PathTo(t, key)).id in nodes
    ensures nodes[Top(PathTo(t, key)).id].inodes == SubAt(t, PathTo(t, key)).inodes
    ensures Sorted(SubAt(t, PathTo(t, key)).inodes) && NoPages(SubAt(t, PathTo(t, key)).inodes)
  {
    ShapedAlong(t, h, {}, PathTo(t, key));
    TopPage(pages, nodes, t, h, {}, PathTo(t, key));
    OrderedAlong(t, Open, Open, PathTo(t, key));
  }

  /** Replacing the elements of the leaf a search reaches, in memory and in the tree. */
  lemma EditStored(pages: map<nat, Data>, nodes: map<nat, Node>, t: Tree, h: nat, key: Bytes, inodes: seq<Inode>, unbalanced: bool)
    requires Stored(pages, nodes, t, h) && Tight(t, Open)
    requires OnLeaf(t, PathTo(t, key)) && Top(PathTo(t, key)).id in nodes
    requires LeafEdit(SubAt(t, PathTo(t, key)).inodes, inodes, key)
    ensures var id, t' := Top(PathTo(t, key)).id, Edit(t, PathTo(t, key), inodes);
      && Stored(pages, nodes[id := nodes[id].(inodes := inodes, unbalanced := unbalanced)], t', h)
      && Tight(t', Open) && Ids(t') == Ids(t) && t'.id == t.id
      && Flatten(t') == Before(t, PathTo(t, key)) + inodes + After(t, PathTo(t, key))
  {
    hide Apart, Sorted, Within, KidLinked, Less;
    var path := PathTo(t, key);
    var id := Top(path).id;
    var nodes' := nodes[id := nodes[id].(inodes := inodes, unbalanced := unbalanced)];
    EditOrdered(t, key, inodes, Open, Open);
    GraftFlatten(t, path, Leaf(SubAt(t, path).id, inodes));
    EditInMemory(pages, nodes, t, h, path, inodes, nodes');
  }

  lemma EditInMemory(pages: map<nat, Data>, nodes: map<nat, Node>, t: Tree, h: nat, path: seq<Ref>, inodes: seq<Inode>, nodes': map<nat, Node>)
    requires Stored(pages, nodes, t, h) && OnLeaf(t, path) && Top(path).id in nodes
    requires Top(path).id in nodes' && NoPages(inodes)
    requires nodes' == nodes[Top(path).id := nodes[Top(path).id].(inodes := inodes, unbalanced := nodes'[Top(path).id].unbalanced)]
    ensures var t' := Edit(t, path, inodes);
      && Holds(pages, nodes', t') && Linked(t', nodes')
      && Shaped(t', h, {}) && Ids(t') == Ids(t) && t'.id == t.id
  {
    hide KidLinked, Ordered, Ids;
    TopPage(pages, nodes, t, h, {}, path);
    TopId(t, path);
    LeafIds(SubAt(t, path), Leaf(Top(path).id, inodes));
    ShapedAlong(t, h, {}, path);
    var sub := Leaf(Top(path).id, inodes);
    GraftShape(t, path, sub, h, {}, {});
    GraftHolds(t, path, sub, h, {}, pages, nodes, nodes');
    GraftLinked(t, path, sub, h, {}, nodes, nodes');
  }

  lemma LeafIds(t: Tree, u: Tree)
    requires t.Leaf? && u.Leaf? && t.id == u.id
    ensures Ids(t) == Ids(u) == {t.id}
  {
  }

  lemma InsertStored(pages: map<nat, Data>, nodes: map<nat, Node>, t: Tree, h: nat, x: Inode)
    requires Stored(pages, nodes, t, h) && Tight(t, Open)
    requires OnLeaf(t, PathTo(t, x.key)) && Top(PathTo(t, x.key)).id in nodes && x.pgid == 0
    ensures var id, its := Top(PathTo(t, x.key)).id, Upsert(SubAt(t, PathTo(t, x.key)).inodes, x);
      var t' := Edit(t, PathTo(t, x.key), its);
      && Stored(pages, nodes[id := nodes[id].(inodes := its)], t', h)
      && Tight(t', Open) && Ids(t') == Ids(t) && t'.id == t.id
      && MapOf(Flatten(t')) == MapOf(Flatten(t))[x.key := EntryOf(x)]
  {
    hide StoredBut, Tight, Upsert, MapOf, Less;
    var path := PathTo(t, x.key);
    var leaf, id := SubAt(t, path).inodes, Top(path).id;
    LeafNode(pages, nodes, t, h, x.key);
    StoredOrdered(pages, nodes, t, h);
    SearchSplits(t, x.key, Open, Open);
    FlattenOrdered(t, Open, Open);
    Around(t, path);
    UpsertSorted(leaf, x);
    UpsertNoPages(leaf, x);
    EditStored(pages, nodes, t, h, x.key, Upsert(leaf, x), nodes[id].unbalanced);
    UpsertInside(Before(t, path), leaf, After(t, path), x);
    UpsertMap(Flatten(t), x);
  }

  lemma UpsertNoPages(s: seq<Inode>, x: Inode)
    requires NoPages(s) && x.pgid == 0
    ensures NoPages(Upsert(s, x))
  {
  }

  lemma RemoveNoPages(s: seq<Inode>, key: Bytes)
    requires NoPages(s)
    ensures NoPages(Remove(s, key))
  {
  }

  lemma StoredOrdered(pages: map<nat, Data>, nodes: map<nat, Node>, t: Tree, h: nat)
    requires Stored(pages, nodes, t, h)
    ensures Ordered(t, Open, Open)
  {
  }

  lemma RemoveStored(pages: map<nat, Data>, nodes: map<nat, Node>, t: Tree, h: nat, key: Bytes)
    requires Stored(pages, nodes, t, h) && Tight(t, Open)
    requires OnLeaf(t, PathTo(t, key)) && Top(PathTo(t, key)).id in nodes
    ensures var id, leaf := Top(PathTo(t, key)).id, SubAt(t, PathTo(t, key)).inodes;
      var t' := Edit(t, PathTo(t, key), Remove(leaf, key));
      && Stored(pages, nodes[id := Deleted(nodes[id], key)], t', h)
      && Tight(t', Open) && Ids(t') == Ids(t) && t'.id == t.id
      && MapOf(Flatten(t')) == MapOf(Flatten(t)) - {key}
  {
    hide StoredBut, Tight, Remove, MapOf, Less;
    var path := PathTo(t, key);
    var leaf, id := SubAt(t, path).inodes, Top(path).id;
    LeafNode(pages, nodes, t, h, key);
    StoredOrdered(pages, nodes, t, h);
    SearchSplits(t, key, Open, Open);
    FlattenOrdered(t, Open, Open);
    Around(t, path);
    RemoveSorted(leaf, key);
    RemoveNoPages(leaf, key);
    EditStored(pages, nodes, t, h, key, Remove(leaf, key), nodes[id].unbalanced || Hit(leaf, key));
    RemoveInside(Before(t, path), leaf, After(t, path), key);
    RemoveMap(Flatten(t), key);
  }

  lemma SeekFinds(t: Tree, key: Bytes)
    requires Ordered(t, Open, Open)
    ensures OnLeaf(t, PathTo(t, key))
    ensures var leaf := SubAt(t, PathTo(t, key)).inodes;
      && Sorted(leaf) && Top(PathTo(t, key)).index == LowerBound(leaf, key)
      && (key in MapOf(Flatten(t)) <==> Hit(leaf, key))
      && (Hit(leaf, key) ==> MapOf(Flatten(t))[key] == EntryOf(leaf[LowerBound(leaf, key)]))
  {
    hide Less, LowerBound, MapOf;
    var path := PathTo(t, key);
    SearchSplits(t, key, Open, Open);
    FlattenOrdered(t, Open, Open);
    Around(t, path);
    OrderedAlong(t, Open, Open, path);
    BoundInside(Before(t, path), SubAt(t, path).inodes, After(t, path), key);
    HitMap(Flatten(t), key);
  }

  lemma {:induction false} OrderedAlong(t: Tree, lo: Bound, hi: Bound, stack: seq<Ref>)
    requires Ordered(t, lo, hi) && Along(t, stack)
    ensures Sorted(SubAt(t, stack).inodes)
    decreases |stack|
  {
    if |stack| > 1 {
      var i := stack[0].index;
      OrderedAlong(t.kids[i], KidLo(t.inodes, lo, i), KidHi(t.inodes, hi, i), stack[1..]);
    }
  }

  /** sort.Search over the elements of a page: the first one not below the key, and whether it was met exactly. */
  method SortSearch(inodes: seq<Inode>, key: Bytes) returns (index: nat, exact: bool)
    requires Sorted(inodes)
    ensures index == LowerBound(inodes, key) && exact == Hit(inodes, key)
  {
    hide Less, LowerBound;
    TotalOrder();
    index, exact := 0, false;
    var j := |inodes|;
    while index < j
      invariant index <= j <= |inodes|
      invariant AllBelow(inodes[..index], key)
      invariant j < |inodes| ==> !Less(inodes[j].key, key)
      invariant exact <==> j < |inodes| && inodes[j].key == key
    {
      var h := (index + j) / 2;
      if Less(inodes[h].key, key) {
        index := h + 1;
        assert forall k :: 0 <= k < h ==> Less(inodes[k].key, inodes[h].key);
      } else {
        if inodes[h].key == key {
          exact := true;
        }
        j := h;
      }
    }
    LowerBoundIs(inodes, key, index);
  }

  ghost function Head(s: seq<Inode>): Opt<Inode> {
    if s == [] then None else Some(s[0])
  }

  ghost function HeadPair(s: seq<Inode>): Opt<Pair> {
    if s == [] then None else Some(PairOf(s[0]))
  }

  /** A pair of the contents: the value, or none where the lowest bit of the flags marks a nested bucket. */
  ghost predicate PairIn(p: Pair, m: map<Bytes, Entry>) {
    p.key in m && p.value == if m[p.key].flags % 2 == 1 then None else Some(m[p.key].value)
  }

  /** In a sorted list the element at i is the least from there on, in the order of bytes. */
  lemma LeastFrom(s: seq<Inode>, i: nat)
    requires Sorted(s) && i <= |s|
    ensures s == [] ==> MapOf(s) == map[]
    ensures i < |s| ==> PairIn(PairOf(s[i]), MapOf(s))
    ensures i < |s| ==> forall k :: k in MapOf(s) ==> k == s[i].key || Precedes(s[i].key, k) || exists j :: 0 <= j < i && s[j].key == k
  {
    hide Less, MapOf, Precedes;
    ByteOrder();
    MapOfPairs(s);
    EmptyMap(s);
    if i < |s| {
      assert s[i] in s;
      forall k | k in MapOf(s) ensures k == s[i].key || Precedes(s[i].key, k) || exists j :: 0 <= j < i && s[j].key == k {
        assert HasKey(s, k);
        var x :| x in s && x.key == k;
        var j :| 0 <= j < |s| && s[j] == x;
        assert j > i ==> Less(s[i].key, s[j].key);
      }
    }
  }

  lemma EmptyMap(s: seq<Inode>)
    ensures s == [] ==> MapOf(s) == map[]
  {
  }

  /** The element a search finds is the least one not below the key. */
  lemma LeastNotBelow(s: seq<Inode>, key: Bytes)
    requires Sorted(s)
    ensures var i := LowerBound(s, key);
      if i == |s| then forall k :: k in MapOf(s) ==> Precedes(k, key)
      else PairIn(PairOf(s[i]), MapOf(s)) && !Precedes(s[i].key, key)
           && forall k :: k in MapOf(s) ==> Precedes(k, key) || k == s[i].key || Precedes(s[i].key, k)
  {
    hide Less, MapOf, Precedes, LowerBound, PairIn;
    ByteOrder();
    var i := LowerBound(s, key);
    LeastFrom(s, i);
    MapOfPairs(s);
    if i == |s| {
      forall k | k in MapOf(s) ensures Precedes(k, key) {
        assert HasKey(s, k);
        var x :| x in s && x.key == k;
        var j :| 0 <= j < |s| && s[j] == x;
        assert Less(s[j].key, key);
      }
    } else {
      assert !Less(s[i].key, key);
    }
  }

  class Cursor {
    const bucket: Bucket
    var stack: seq<Ref>

    constructor (b: Bucket)
      ensures bucket == b && stack == []
    {
      bucket, stack := b, [];
    }

    /** The cursor stands on a leaf of its bucket's tree. */
    ghost predicate Placed()
      reads this, bucket
    {
      bucket.Valid() && OnLeaf(bucket.tree, stack)
    }

    /** The elements Next has yet to return. */
    ghost function Ahead(): seq<Inode>
      requires Placed()
      reads this, bucket
    {
      Following(bucket.tree, stack)
    }

    /** The cursor stands at the head of these elements, or behind the last one if there are none. */
    ghost predicate Stands(rest: seq<Inode>)
      reads this, bucket
    {
      && Placed()
      && if rest == [] then Ahead() == [] else Remaining(bucket.tree, stack) == rest && Ahead() == rest[1..]
    }

    /** search: descend to the leaf where the key belongs, pushing a position for each page on the way. */
    method Search(key: Bytes, id: nat, ghost t: Tree, ghost h: nat, ghost lo: Bound, ghost hi: Bound)
      requires Holds(bucket.pages, bucket.nodes, t) && id == t.id && Ordered(t, lo, hi) && Shaped(t, h, {})
      modifies this`stack
      ensures stack == old(stack) + PathTo(t, key)
      decreases t
    {
      hide Less, LowerBound, Apart, Sorted, Within, Hit, KidLo, KidHi, KidLinked;
      var page := bucket.PageNode(id);
      OrderedPage(t, lo, hi);
      var index, exact := SortSearch(page.inodes, key);
      if page.isLeaf {
        stack := stack + [Ref(id, index)];
        return;
      }
      if !exact && index > 0 {
        index := index - 1;
      }
      assert index == Pick(t.inodes, key);
      stack := stack + [Ref(id, index)];
      Search(key, page.inodes[index].pgid, t.kids[index], h - 1, KidLo(t.inodes, lo, index), KidHi(t.inodes, hi, index));
    }

    /** keyValue: the element under the cursor, if it is not behind the last one. */
    method KeyValue() returns (x: Opt<Inode>)
      requires Placed()
      ensures x == Head(SubAt(bucket.tree, stack).inodes[Top(stack).index..])
    {
      TopPage(bucket.pages, bucket.nodes, bucket.tree, bucket.height, {}, stack);
      var ref := stack[|stack| - 1];
      var page := bucket.PageNode(ref.id);
      x := if ref.index >= |page.inodes| then None else Some(page.inodes[ref.index]);
    }

    /** seek: move to the leaf where the key belongs; the element there may belong to a larger key or be missing. */
    method SeekLeaf(key: Bytes) returns (x: Opt<Inode>)
      requires bucket.Valid()
      modifies this`stack
      ensures Placed() && stack == PathTo(bucket.tree, key)
      ensures x == Head(SubAt(bucket.tree, stack).inodes[Top(stack).index..])
    {
      hide Less, LowerBound, Sorted, Within, Linked, Ordered, Shaped, Holds;
      stack := [];
      Search(key, bucket.root, bucket.tree, bucket.height, Open, Open);
      assert stack == PathTo(bucket.tree, key);
      SearchSplits(bucket.tree, key, Open, Open);
      x := KeyValue();
    }

    /** first: descend to the first element below the top of the stack. */
    method FirstBelow()
      requires bucket.Valid() && Ready(bucket.tree, stack)
      modifies this`stack
      ensures Placed() && Remaining(bucket.tree, stack) == old(Remaining(bucket.tree, stack))
      ensures LeavesFrom(bucket.tree, stack) == old(LeavesFrom(bucket.tree, stack))
      ensures old(SubAt(bucket.tree, stack)).Leaf? ==> stack == old(stack)
      ensures old(SubAt(bucket.tree, stack)).Branch? ==> Top(stack).index == 0
    {
      hide Remaining, LeavesFrom, StoredBut;
      ghost var t := bucket.tree;
      ghost var start := stack;
      TopPage(bucket.pages, bucket.nodes, t, bucket.height, {}, stack);
      while !bucket.PageNode(stack[|stack| - 1].id).isLeaf
        invariant Ready(t, stack) && TopShown(bucket.pages, bucket.nodes, t, stack)
        invariant Remaining(t, stack) == Remaining(t, start) && LeavesFrom(t, stack) == LeavesFrom(t, start)
        invariant stack == start || (SubAt(t, start).Branch? && Top(stack).index == 0)
        invariant |stack| <= bucket.height + 1
        decreases bucket.height + 1 - |stack|
      {
        var ref := stack[|stack| - 1];
        Descend(t, stack);
        stack := stack + [Ref(bucket.PageNode(ref.id).inodes[ref.index].pgid, 0)];
        TopPage(bucket.pages, bucket.nodes, t, bucket.height, {}, stack);
      }
    }

    /** The first half of next: move the deepest position that has a successor, dropping what is below it. */
    method Advance() returns (moved: bool)
      requires Placed()
      modifies this`stack
      ensures bucket.Valid()
      ensures !moved ==> stack == old(stack) && old(Ahead()) == []
      ensures moved ==> Ready(bucket.tree, stack) && Remaining(bucket.tree, stack) == old(Ahead())
      ensures moved ==>
        (|| LeavesFrom(bucket.tree, stack) < old(LeavesFrom(bucket.tree, stack))
         || (SubAt(bucket.tree, stack).Leaf? && Top(stack).index < |SubAt(bucket.tree, stack).inodes|))
    {
      hide Remaining, Following, LeavesFrom, StoredBut;
      ghost var t := bucket.tree;
      var s := stack;
      StackPages(bucket.pages, bucket.nodes, t, bucket.height, s);
      LastInLeaf(t, s);
      var n := |s|;
      while n > 0 && s[n - 1].index + 1 >= |bucket.PageNode(s[n - 1].id).inodes|
        invariant stack == s && 0 <= n <= |s| && (n > 0 ==> LevelShown(bucket.pages, bucket.nodes, t, s, n))
        invariant n < |s| ==> Along(t, s[..n + 1]) && Following(t, s) == After(t, s[..n + 1])
        invariant n < |s| ==> LeavesAfter(t, s[..n + 1]) < LeavesFrom(t, s)
      {
        if n < |s| {
          LastChild(t, s, n);
        }
        n := n - 1;
        assert s[..|s|] == s;
      }
      if n == 0 {
        NothingAfter(t, s);
        assert Following(t, s) == After(t, s[..1]);
        return false;
      }
      if n < |s| {
        Climb(t, s, n);
        StepUp(t, s, n);
      } else {
        assert s[..|s|] == s;
        NextInLeaf(t, s);
      }
      stack := s[..n][n - 1 := s[n - 1].(index := s[n - 1].index + 1)];
      moved := true;
    }

    /** next: the element after the position, skipping empty leaves; at the end the cursor stays behind nothing. */
    method NextLeaf() returns (x: Opt<Inode>)
      requires Placed()
      modifies this`stack
      ensures Stands(old(Ahead())) && x == Head(old(Ahead()))
    {
      hide Remaining, LeavesFrom, StoredBut, Ordered, Less;
      while true
        invariant Placed() && Ahead() == old(Ahead())
        decreases LeavesFrom(bucket.tree, stack)
      {
        ghost var before := LeavesFrom(bucket.tree, stack);
        var moved := Advance();
        if !moved {
          return None;
        }
        FirstBelow();
        x := KeyValue();
        HeadOfRemaining(bucket.tree, stack);
        if x.Some? {
          return;
        }
      }
    }

    /** First: the first pair of the bucket, if it has one. */
    method First() returns (r: Opt<Pair>)
      requires bucket.Valid()
      modifies this`stack
      ensures Stands(Flatten(bucket.tree)) && r == HeadPair(Flatten(bucket.tree))
      ensures if r.None? then bucket.Contents() == map[]
        else PairIn(r.value, bucket.Contents()) && forall k :: k in bucket.Contents() ==> k == r.value.key || Precedes(r.value.key, k)
    {
      hide Remaining, Ordered, Less, MapOf, PairIn, Precedes, StoredBut;
      StoredOrdered(bucket.pages, bucket.nodes, bucket.tree, bucket.height);
      FlattenOrdered(bucket.tree, Open, Open);
      LeastFrom(Flatten(bucket.tree), 0);
      stack := [Ref(bucket.root, 0)];
      StartRemaining(bucket.tree, stack);
      FirstBelow();
      HeadOfRemaining(bucket.tree, stack);
      var x := KeyValue();
      if x.None? {
        x := NextLeaf();
      }
      r := if x.None? then None else Some(PairOf(x.value));
    }

    /** Next: the pair after the cursor's position. */
    method Next() returns (r: Opt<Pair>)
      requires Placed()
      modifies this`stack
      ensures Stands(old(Ahead())) && r == HeadPair(old(Ahead()))
    {
      var x := NextLeaf();
      r := if x.None? then None else Some(PairOf(x.value));
    }

    /** Seek: the pair with the least key not below the target in the whole bucket, if there is one. */
    method Seek(key: Bytes) returns (r: Opt<Pair>)
      requires bucket.Valid()
      modifies this`stack
      ensures Stands(Flatten(bucket.tree)[LowerBound(Flatten(bucket.tree), key)..])
      ensures r == HeadPair(Flatten(bucket.tree)[LowerBound(Flatten(bucket.tree), key)..])
      ensures if r.None? then forall k :: k in bucket.Contents() ==> Precedes(k, key)
        else PairIn(r.value, bucket.Contents()) && !Precedes(r.value.key, key)
             && forall k :: k in bucket.Contents() ==> Precedes(k, key) || k == r.value.key || Precedes(r.value.key, k)
    {
      hide Remaining, Ordered, Less, LowerBound, MapOf, PairIn, Precedes, StoredBut;
      StoredOrdered(bucket.pages, bucket.nodes, bucket.tree, bucket.height);
      FlattenOrdered(bucket.tree, Open, Open);
      LeastNotBelow(Flatten(bucket.tree), key);
      var x := SeekLeaf(key);
      SeekRemaining(bucket.tree, bucket.height, key);
      HeadOfRemaining(bucket.tree, stack);
      if x.None? {
        x := NextLeaf();
      }
      r := if x.None? then None else Some(PairOf(x.value));
    }

    /** node: bring the whole path into memory and return the leaf's node. */
    method MaterializePath() returns (id: nat)
      requires Placed() && bucket.writable
      modifies bucket`nodes
      ensures Placed() && id == Top(stack).id && id in bucket.nodes
    {
      hide StoredBut, TopShown;
      ghost var t, h := bucket.tree, bucket.height;
      TopPage(bucket.pages, bucket.nodes, t, h, {}, stack);
      if stack[|stack| - 1].id in bucket.nodes && bucket.PageNode(stack[|stack| - 1].id).isLeaf {
        return stack[|stack| - 1].id;
      }
      RootBrought(bucket.pages, bucket.nodes, t, h, stack);
      bucket.Materialize(stack[0].id, Root);
      id := stack[0].id;
      var k := 0;
      while k < |stack| - 1
        invariant 0 <= k <= |stack| - 1 && Stored(bucket.pages, bucket.nodes, t, h)
        invariant id == stack[k].id && id in bucket.nodes
      {
        ChildBrought(bucket.pages, bucket.nodes, t, h, {}, stack, k + 1);
        var child := bucket.nodes[id].inodes[stack[k].index].pgid;
        bucket.Materialize(child, Under(id));
        id, k := child, k + 1;
      }
    }
  }

  /** The page or node at the top of a stack shows the subtree there. */
  ghost predicate TopShown(pages: map<nat, Data>, nodes: map<nat, Node>, t: Tree, stack: seq<Ref>)
    requires Along(t, stack)
  {
    var sub := SubAt(t, stack);
    && Held(pages, nodes, Top(stack).id) && Shown(pages, nodes, Top(stack).id) == Data(sub.Leaf?, sub.inodes)
    && (sub.Branch? ==>
          && |sub.kids| == |sub.inodes|
          && (forall i :: 0 <= i < |sub.kids| ==> sub.inodes[i].pgid == sub.kids[i].id)
          && (forall i :: 0 <= i < |sub.kids| && sub.kids[i].Branch? ==> |sub.kids[i].kids| > 0))
  }

  lemma TopPage(pages: map<nat, Data>, nodes: map<nat, Node>, t: Tree, h: nat, thin: set<nat>, stack: seq<Ref>)
    requires StoredBut(pages, nodes, t, h, thin) && Along(t, stack)
    ensures TopShown(pages, nodes, t, stack) && |stack| <= h + 1
  {
    hide Linked, Ordered, Apart;
    HoldsAlong(pages, nodes, t, stack);
    ShapedAlong(t, h, thin, stack);
    TopId(t, stack);
  }

  lemma {:induction false} TopId(t: Tree, stack: seq<Ref>)
    requires Along(t, stack)
    ensures Top(stack).id == SubAt(t, stack).id
    decreases |stack|
  {
    if |stack| > 1 {
      TopId(t.kids[stack[0].index], stack[1..]);
    }
  }

  /** What the first n positions of a stack refer to. */
  ghost predicate LevelShown(pages: map<nat, Data>, nodes: map<nat, Node>, t: Tree, stack: seq<Ref>, n: nat)
    requires 1 <= n <= |stack|
  {
    && Along(t, stack[..n]) && TopShown(pages, nodes, t, stack[..n]) && Held(pages, nodes, stack[n - 1].id)
    && (n < |stack| ==> SubAt(t, stack[..n]).Branch?)
  }

  lemma StackPages(pages: map<nat, Data>, nodes: map<nat, Node>, t: Tree, h: nat, stack: seq<Ref>)
    requires Stored(pages, nodes, t, h) && Along(t, stack)
    ensures forall n :: 1 <= n <= |stack| ==> LevelShown(pages, nodes, t, stack, n)
  {
    hide StoredBut, SubAt;
    forall n | 1 <= n <= |stack| ensures LevelShown(pages, nodes, t, stack, n) {
      AlongPrefix(t, stack, n);
      TopPage(pages, nodes, t, h, {}, stack[..n]);
      assert Top(stack[..n]) == stack[n - 1];
      if n < |stack| {
        Climb(t, stack, n);
      }
    }
  }

  lemma LastInLeaf(t: Tree, stack: seq<Ref>)
    requires OnLeaf(t, stack)
    ensures Top(stack).index + 1 >= |SubAt(t, stack).inodes| ==> Following(t, stack) == After(t, stack)
    ensures LeavesAfter(t, stack) < LeavesFrom(t, stack)
  {
    var rest := SubAt(t, stack).inodes[Top(stack).index..];
    if Top(stack).index + 1 == |SubAt(t, stack).inodes| {
      assert (rest + After(t, stack))[1..] == After(t, stack);
    } else if Top(stack).index == |SubAt(t, stack).inodes| {
      assert rest + After(t, stack) == After(t, stack);
    }
  }

  lemma NextInLeaf(t: Tree, stack: seq<Ref>)
    requires OnLeaf(t, stack) && Top(stack).index + 1 < |SubAt(t, stack).inodes|
    ensures var s := stack[..|stack|][|stack| - 1 := Top(stack).(index := Top(stack).index + 1)];
      OnLeaf(t, s) && SubAt(t, s) == SubAt(t, stack) && Remaining(t, s) == Following(t, stack)
  {
    hide FlattenAll, LeafCountAll, After, LeavesAfter;
    assert stack[..|stack|] == stack;
    Retop(t, stack, Top(stack).index + 1);
    var inodes, i := SubAt(t, stack).inodes, Top(stack).index;
    assert (inodes[i..] + After(t, stack))[1..] == inodes[i + 1..] + After(t, stack);
  }

  /** Behind the last child nothing follows but what follows the parent. */
  lemma LastChild(t: Tree, stack: seq<Ref>, n: nat)
    requires Along(t, stack) && 1 <= n < |stack| && Along(t, stack[..n])
    requires SubAt(t, stack[..n]).Branch? && stack[n - 1].index + 1 >= |SubAt(t, stack[..n]).kids|
    ensures Along(t, stack[..n + 1])
    ensures After(t, stack[..n + 1]) == After(t, stack[..n]) && LeavesAfter(t, stack[..n + 1]) == LeavesAfter(t, stack[..n])
  {
    hide After, LeavesAfter, SubAt;
    Climb(t, stack, n);
    var later := SubAt(t, stack[..n]).kids[stack[n - 1].index + 1..];
    assert later == [] && FlattenAll(later) == [];
    assert [] + After(t, stack[..n]) == After(t, stack[..n]);
  }

  lemma NothingAfter(t: Tree, stack: seq<Ref>)
    requires Along(t, stack)
    ensures Along(t, stack[..1]) && After(t, stack[..1]) == []
  {
    AlongPrefix(t, stack, 1);
  }

  lemma StandsAhead(c: Cursor, rest: seq<Inode>)
    requires c.Stands(rest)
    ensures c.Placed() && (rest != [] ==> c.Ahead() == rest[1..])
  {
  }

  /** On an element, it heads what remains; behind the last element of a leaf, what remains lies ahead. */
  lemma HeadOfRemaining(t: Tree, stack: seq<Ref>)
    requires OnLeaf(t, stack)
    ensures var here := SubAt(t, stack).inodes[Top(stack).index..];
      if here == [] then Following(t, stack) == Remaining(t, stack)
      else Remaining(t, stack) != [] && Remaining(t, stack)[0] == here[0] && Following(t, stack) == Remaining(t, stack)[1..]
  {
  }

  lemma StartRemaining(t: Tree, stack: seq<Ref>)
    requires stack == [Ref(t.id, 0)] && (t.Branch? ==> |t.kids| > 0)
    ensures Ready(t, stack) && Remaining(t, stack) == Flatten(t)
  {
    if t.Branch? {
      assert t.kids[0..] == t.kids;
    }
    assert Flatten(t) + [] == Flatten(t);
  }

  /** A search leaves before the cursor exactly the elements below the key. */
  lemma SeekRemaining(t: Tree, h: nat, key: Bytes)
    requires Ordered(t, Open, Open)
    ensures OnLeaf(t, PathTo(t, key))
    ensures Remaining(t, PathTo(t, key)) == Flatten(t)[LowerBound(Flatten(t), key)..]
  {
    hide Less, LowerBound;
    var path := PathTo(t, key);
    SearchSplits(t, key, Open, Open);
    FlattenOrdered(t, Open, Open);
    Around(t, path);
    BoundInside(Before(t, path), SubAt(t, path).inodes, After(t, path), key);
    SkipBefore(Before(t, path), SubAt(t, path).inodes, After(t, path), Top(path).index);
  }

  lemma SkipBefore<T>(a: seq<T>, b: seq<T>, c: seq<T>, i: nat)
    requires i <= |b|
    ensures (a + b + c)[|a| + i..] == b[i..] + c
  {
  }

  // ---------- bringing pages into memory ----------

  /** The nodes after a page has been brought in. */
  function Brought(pages: map<nat, Data>, nodes: map<nat, Node>, id: nat, parent: Place): map<nat, Node>
    requires Held(pages, nodes, id)
  {
    if id in nodes then nodes
    else nodes[id := Node(pages[id].isLeaf, false, FirstKey(pages[id].inodes), parent, pages[id].inodes)]
  }

  lemma BroughtShown(pages: map<nat, Data>, nodes: map<nat, Node>, id: nat, parent: Place, ids: set<nat>)
    requires Held(pages, nodes, id)
    ensures SameShown(pages, nodes, Brought(pages, nodes, id, parent), ids)
  {
  }

  lemma RootBrought(pages: map<nat, Data>, nodes: map<nat, Node>, t: Tree, h: nat, stack: seq<Ref>)
    requires Stored(pages, nodes, t, h) && Along(t, stack)
    ensures Held(pages, nodes, stack[0].id)
    ensures Stored(pages, Brought(pages, nodes, stack[0].id, Root), t, h)
  {
    hide Ordered, Apart;
    if t.id !in nodes {
      BroughtShown(pages, nodes, t.id, Root, Ids(t));
      HoldsFrame(pages, nodes, Brought(pages, nodes, t.id, Root), t);
      IdIn(t);
      LinkedBelow(t, h, {}, nodes, Brought(pages, nodes, t.id, Root)[t.id]);
    }
  }

  /** Bringing in the child on a path whose parent is in memory. */
  lemma ChildBrought(pages: map<nat, Data>, nodes: map<nat, Node>, t: Tree, h: nat, thin: set<nat>, stack: seq<Ref>, n: nat)
    requires StoredBut(pages, nodes, t, h, thin) && Along(t, stack) && 1 <= n < |stack| && stack[n - 1].id in nodes
    ensures Held(pages, nodes, stack[n].id)
    ensures StoredBut(pages, Brought(pages, nodes, stack[n].id, Under(stack[n - 1].id)), t, h, thin)
    ensures stack[n - 1].index < |nodes[stack[n - 1].id].inodes|
    ensures nodes[stack[n - 1].id].inodes[stack[n - 1].index].pgid == stack[n].id
  {
    hide StoredBut;
    Climb(t, stack, n);
    var parents, path := stack[..n], stack[..n + 1];
    TopPage(pages, nodes, t, h, thin, path);
    ShownChild(pages, nodes, t, h, thin, parents);
    assert Top(parents) == stack[n - 1] && Top(path) == stack[n];
    Pop(t, path);
    assert path[..n] == parents;
    if stack[n].id !in nodes {
      ChildStored(pages, nodes, t, h, thin, path);
    }
  }

  lemma ShownChild(pages: map<nat, Data>, nodes: map<nat, Node>, t: Tree, h: nat, thin: set<nat>, stack: seq<Ref>)
    requires StoredBut(pages, nodes, t, h, thin) && Along(t, stack) && SubAt(t, stack).Branch?
    requires Top(stack).index < |SubAt(t, stack).kids| && Top(stack).id in nodes
    ensures Top(stack).index < |nodes[Top(stack).id].inodes|
    ensures nodes[Top(stack).id].inodes[Top(stack).index].pgid == SubAt(t, stack).kids[Top(stack).index].id
  {
    TopPage(pages, nodes, t, h, thin, stack);
  }

  lemma ChildStored(pages: map<nat, Data>, nodes: map<nat, Node>, t: Tree, h: nat, thin: set<nat>, path: seq<Ref>)
    requires StoredBut(pages, nodes, t, h, thin) && Along(t, path) && |path| > 1 && Top(path).id !in nodes && Top(path).id in pages
    requires path[|path| - 2].id in nodes
    ensures StoredBut(pages, Brought(pages, nodes, Top(path).id, Under(path[|path| - 2].id)), t, h, thin)
  {
    hide Ordered, Apart;
    var id, parent := Top(path).id, Under(path[|path| - 2].id);
    var nodes' := Brought(pages, nodes, id, parent);
    TopPage(pages, nodes, t, h, thin, path);
    TopId(t, path);
    LinkedAlong(t, nodes, path);
    LinkedAdd(t, h, thin, nodes, path, nodes'[id]);
    ShapedAlong(t, h, thin, path);
    IdIn(SubAt(t, path));
    BroughtShown(pages, nodes, id, parent, Ids(t));
    HoldsFrame(pages, nodes, nodes', t);
    OwnIdOnly(t, h, thin, path);
  }
}
