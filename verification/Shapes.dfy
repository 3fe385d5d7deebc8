/** How a tree sits in the pages and nodes of a bucket, and how editing one leaf changes it. */
module Shapes {
  import opened Keys
  import opened Trees
  import opened Paths

  /** The contents of one page or node. */
  datatype Data = Data(isLeaf: bool, inodes: seq<Inode>)

  datatype Place = Root | Under(id: nat)

  /** A page brought into memory: its parent, the key under which the parent lists it, and its elements. */
  datatype Node = Node(isLeaf: bool, unbalanced: bool, key: Bytes, parent: Place, inodes: seq<Inode>)

  predicate Held(pages: map<nat, Data>, nodes: map<nat, Node>, id: nat) {
    id in nodes || id in pages
  }

  /** pageNode: the node if there is one, else the page. */
  function Shown(pages: map<nat, Data>, nodes: map<nat, Node>, id: nat): Data
    requires Held(pages, nodes, id)
  {
    if id in nodes then Data(nodes[id].isLeaf, nodes[id].inodes) else pages[id]
  }

  ghost function Ids(t: Tree): set<nat>
    decreases t
  {
    {t.id} + if t.Leaf? then {} else set i, x | 0 <= i < |t.kids| && x in Ids(t.kids[i]) :: x
  }

  /** No page occurs twice. */
  ghost predicate Apart(t: Tree) {
    t.Branch? ==>
      && (forall i :: 0 <= i < |t.kids| ==> t.id !in Ids(t.kids[i]))
      && (forall i, j :: 0 <= i < j < |t.kids| ==> Ids(t.kids[i]) !! Ids(t.kids[j]))
  }

  /** Leaf elements name no child page. */
  ghost predicate NoPages(inodes: seq<Inode>) {
    forall i :: 0 <= i < |inodes| ==> inodes[i].pgid == 0
  }

  /** All leaves at depth h, branches with at least two children (thin ones with one), elements naming the children. */
  ghost predicate Shaped(t: Tree, h: nat, thin: set<nat>)
    decreases t
  {
    && Apart(t) && (t.Leaf? <==> h == 0)
    && (t.Leaf? ==> NoPages(t.inodes))
    && (t.Branch? ==>
          && |t.inodes| == |t.kids| >= (if t.id in thin then 1 else 2)
          && (forall i :: 0 <= i < |t.kids| ==> t.inodes[i].pgid == t.kids[i].id)
          && (forall i :: 0 <= i < |t.kids| ==> Shaped(t.kids[i], h - 1, thin)))
  }

  /** The pages, overlaid with the nodes, show exactly this tree. */
  ghost predicate Holds(pages: map<nat, Data>, nodes: map<nat, Node>, t: Tree)
    decreases t
  {
    && Held(pages, nodes, t.id) && Shown(pages, nodes, t.id) == Data(t.Leaf?, t.inodes)
    && (t.Branch? ==> forall i :: 0 <= i < |t.kids| ==> Holds(pages, nodes, t.kids[i]))
  }

  /** A child's node knows its parent and separator; a child still on its page starts with the separator. */
  ghost predicate KidLinked(kid: Tree, nodes: map<nat, Node>, parent: nat, sep: Bytes) {
    if kid.id in nodes then parent in nodes && nodes[kid.id].parent == Under(parent) && nodes[kid.id].key == sep
    else |kid.inodes| > 0 && kid.inodes[0].key == sep
  }

  ghost predicate Linked(t: Tree, nodes: map<nat, Node>)
    decreases t
  {
    t.Branch? ==>
      |t.inodes| == |t.kids| &&
      forall i :: 0 <= i < |t.kids| ==> KidLinked(t.kids[i], nodes, t.id, t.inodes[i].key) && Linked(t.kids[i], nodes)
  }

  /** Every branch but those on the left edge starts at its lower bound, as trees do when a transaction begins. */
  ghost predicate Tight(t: Tree, lo: Bound)
    decreases t
  {
    t.Branch? ==>
      && |t.inodes| == |t.kids| > 0 && (lo.At? ==> t.inodes[0].key == lo.key)
      && forall i :: 0 <= i < |t.kids| ==> Tight(t.kids[i], KidLo(t.inodes, lo, i))
  }

  ghost predicate SameShown(pages: map<nat, Data>, nodes: map<nat, Node>, nodes': map<nat, Node>, ids: set<nat>) {
    forall x :: x in ids && Held(pages, nodes, x) ==> Held(pages, nodes', x) && Shown(pages, nodes', x) == Shown(pages, nodes, x)
  }

  lemma {:induction false} HoldsFrame(pages: map<nat, Data>, nodes: map<nat, Node>, nodes': map<nat, Node>, t: Tree)
    requires Holds(pages, nodes, t) && SameShown(pages, nodes, nodes', Ids(t))
    ensures Holds(pages, nodes', t)
    decreases t
  {
    assert t.id in Ids(t);
    if t.Branch? {
      forall i | 0 <= i < |t.kids| ensures Holds(pages, nodes', t.kids[i]) {
        assert Ids(t.kids[i]) <= Ids(t);
        HoldsFrame(pages, nodes, nodes', t.kids[i]);
      }
    }
  }

  lemma {:induction false} HoldsAlong(pages: map<nat, Data>, nodes: map<nat, Node>, t: Tree, stack: seq<Ref>)
    requires Holds(pages, nodes, t) && Along(t, stack)
    ensures Holds(pages, nodes, SubAt(t, stack))
    decreases |stack|
  {
    if |stack| > 1 {
      HoldsAlong(pages, nodes, t.kids[stack[0].index], stack[1..]);
    }
  }

  lemma {:induction false} ShapedAlong(t: Tree, h: nat, thin: set<nat>, stack: seq<Ref>)
    requires Shaped(t, h, thin) && Along(t, stack)
    ensures h + 1 >= |stack| && Shaped(SubAt(t, stack), h + 1 - |stack|, thin)
    ensures Ids(SubAt(t, stack)) <= Ids(t)
    decreases |stack|
  {
    if |stack| > 1 {
      ShapedAlong(t.kids[stack[0].index], h - 1, thin, stack[1..]);
    }
  }

  // ---------- replacing a subtree ----------

  /** The tree with another subtree at the top of the stack. */
  ghost function Graft(t: Tree, stack: seq<Ref>, sub: Tree): Tree
    requires Along(t, stack)
    decreases |stack|
  {
    if |stack| == 1 then sub
    else var i := stack[0].index; t.(kids := t.kids[i := Graft(t.kids[i], stack[1..], sub)])
  }

  lemma {:induction false} GraftFlatten(t: Tree, stack: seq<Ref>, sub: Tree)
    requires Along(t, stack)
    ensures Flatten(Graft(t, stack, sub)) == Before(t, stack) + Flatten(sub) + After(t, stack)
    decreases |stack|
  {
    hide FlattenAll;
    if |stack| == 1 {
      assert [] + Flatten(sub) + [] == Flatten(sub);
    } else {
      var i, u := stack[0].index, Graft(t, stack, sub);
      GraftFlatten(t.kids[i], stack[1..], sub);
      FlattenAround(u.kids, i);
      assert u.kids[..i] == t.kids[..i] && u.kids[i + 1..] == t.kids[i + 1..];
      Regroup(FlattenAll(t.kids[..i]), Before(t.kids[i], stack[1..]), Flatten(sub),
              After(t.kids[i], stack[1..]), FlattenAll(t.kids[i + 1..]));
    }
  }

  lemma IdIn(t: Tree)
    ensures t.id in Ids(t)
  {
  }

  lemma KidIds(t: Tree)
    requires t.Branch?
    ensures forall i :: 0 <= i < |t.kids| ==> Ids(t.kids[i]) <= Ids(t)
  {
  }

  /** Which branches may be thin matters only for those in the tree. */
  lemma {:induction false} ShapedThin(t: Tree, h: nat, thin: set<nat>, thin': set<nat>)
    requires Shaped(t, h, thin) && Ids(t) * thin <= thin'
    ensures Shaped(t, h, thin')
    decreases t
  {
    IdIn(t);
    if t.Branch? {
      KidIds(t);
      forall i | 0 <= i < |t.kids| ensures Shaped(t.kids[i], h - 1, thin') {
        ShapedThin(t.kids[i], h - 1, thin, thin');
      }
    }
  }

  /** The first child a path enters. */
  lemma Enter(t: Tree, h: nat, thin: set<nat>, stack: seq<Ref>)
    requires Along(t, stack) && |stack| > 1 && Shaped(t, h, thin)
    ensures h >= 1 && Shaped(t.kids[stack[0].index], h - 1, thin)
    ensures Ids(SubAt(t, stack)) <= Ids(t.kids[stack[0].index]) <= Ids(t)
    ensures t.id in Ids(t) && t.id !in Ids(t.kids[stack[0].index]) && t.kids[stack[0].index].id in Ids(t.kids[stack[0].index])
    ensures |stack| > 2 ==> t.kids[stack[0].index].id !in Ids(SubAt(t, stack))
    ensures |stack| == 2 ==> SubAt(t, stack) == t.kids[stack[0].index]
  {
    hide Ids, Apart;
    var i := stack[0].index;
    ShapedAlong(t.kids[i], h - 1, thin, stack[1..]);
    KidIds(t);
    IdIn(t);
    IdIn(t.kids[i]);
    OwnIdOnly(t, h, thin, [stack[0], Ref(t.kids[i].id, 0)]);
    if |stack| > 2 {
      OwnIdOnly(t.kids[i], h - 1, thin, stack[1..]);
    }
  }

  lemma {:induction false} GraftAlong(t: Tree, stack: seq<Ref>, sub: Tree)
    requires Along(t, stack) && sub.id == SubAt(t, stack).id
    ensures Along(Graft(t, stack, sub), stack) && SubAt(Graft(t, stack, sub), stack) == sub
    ensures Graft(t, stack, sub).id == t.id
    decreases |stack|
  {
    if |stack| > 1 {
      GraftAlong(t.kids[stack[0].index], stack[1..], sub);
    }
  }

  /** A subtree may be replaced by one of the same depth that uses no other pages. */
  lemma {:induction false} GraftShape(t: Tree, stack: seq<Ref>, sub: Tree, h: nat, thin: set<nat>, thin': set<nat>)
    requires Along(t, stack) && Shaped(t, h, thin) && |stack| <= h + 1 && Shaped(sub, h + 1 - |stack|, thin')
    requires sub.id == SubAt(t, stack).id && Ids(sub) <= Ids(SubAt(t, stack)) && thin <= Ids(SubAt(t, stack))
    ensures Graft(t, stack, sub).id == t.id
    ensures Shaped(Graft(t, stack, sub), h, thin')
    ensures Ids(Graft(t, stack, sub)) == Ids(t) - (Ids(SubAt(t, stack)) - Ids(sub))
    decreases |stack|
  {
    hide Ids, Apart;
    if |stack| > 1 {
      var i := stack[0].index;
      Enter(t, h, thin, stack);
      GraftShape(t.kids[i], stack[1..], sub, h - 1, thin, thin');
      ShapedWithKid(t, h, thin, thin', i, Ids(SubAt(t, stack)) - Ids(sub), Graft(t.kids[i], stack[1..], sub));
    }
  }

  /** Only one child changed, losing some pages. */
  lemma ShapedWithKid(t: Tree, h: nat, thin: set<nat>, thin': set<nat>, i: nat, lost: set<nat>, kid: Tree)
    requires Shaped(t, h, thin) && t.Branch? && i < |t.kids| && thin <= Ids(t.kids[i]) && lost <= Ids(t.kids[i])
    requires kid.id == t.kids[i].id && Shaped(kid, h - 1, thin') && Ids(kid) == Ids(t.kids[i]) - lost
    ensures Shaped(t.(kids := t.kids[i := kid]), h, thin')
    ensures Ids(t.(kids := t.kids[i := kid])) == Ids(t) - lost
  {
    var u := t.(kids := t.kids[i := kid]);
    forall j | 0 <= j < |t.kids| && j != i ensures Shaped(u.kids[j], h - 1, thin') {
      ShapedThin(t.kids[j], h - 1, thin, thin');
    }
    assert forall j :: 0 <= j < |t.kids| ==> Ids(u.kids[j]) <= Ids(t.kids[j]);
    assert Apart(u);
    IdsWithKid(t, i, lost, kid);
  }

  lemma IdsWithKid(t: Tree, i: nat, lost: set<nat>, kid: Tree)
    requires t.Branch? && Apart(t) && i < |t.kids| && lost <= Ids(t.kids[i]) && Ids(kid) == Ids(t.kids[i]) - lost
    ensures Ids(t.(kids := t.kids[i := kid])) == Ids(t) - lost
  {
    var u := t.(kids := t.kids[i := kid]);
    forall x ensures x in Ids(u) <==> x in Ids(t) && x !in lost {
      if x in Ids(t) && x !in lost && x != t.id {
        var j :| 0 <= j < |t.kids| && x in Ids(t.kids[j]);
        assert x in Ids(u.kids[j]);
      }
      if x in Ids(u) && x != t.id {
        var j :| 0 <= j < |u.kids| && x in Ids(u.kids[j]);
        assert x in Ids(t.kids[j]);
      }
    }
  }

  lemma {:induction false} GraftHolds(t: Tree, stack: seq<Ref>, sub: Tree, h: nat, thin: set<nat>,
                                      pages: map<nat, Data>, nodes: map<nat, Node>, nodes': map<nat, Node>)
    requires Along(t, stack) && Shaped(t, h, thin) && Holds(pages, nodes, t) && Holds(pages, nodes', sub)
    requires SameShown(pages, nodes, nodes', Ids(t) - Ids(SubAt(t, stack)))
    ensures Holds(pages, nodes', Graft(t, stack, sub))
    decreases |stack|
  {
    hide Ids, Apart;
    if |stack| > 1 {
      var i, lost := stack[0].index, Ids(SubAt(t, stack));
      Enter(t, h, thin, stack);
      GraftHolds(t.kids[i], stack[1..], sub, h - 1, thin, pages, nodes, nodes');
      HoldsWithKid(t, h, thin, pages, nodes, nodes', i, lost, Graft(t.kids[i], stack[1..], sub));
    }
  }

  lemma HoldsWithKid(t: Tree, h: nat, thin: set<nat>, pages: map<nat, Data>, nodes: map<nat, Node>, nodes': map<nat, Node>,
                     i: nat, changed: set<nat>, kid: Tree)
    requires Shaped(t, h, thin) && Holds(pages, nodes, t) && t.Branch? && i < |t.kids| && changed <= Ids(t.kids[i])
    requires SameShown(pages, nodes, nodes', Ids(t) - changed) && Holds(pages, nodes', kid)
    ensures Holds(pages, nodes', t.(kids := t.kids[i := kid]))
  {
    KidIds(t);
    IdIn(t);
    forall j | 0 <= j < |t.kids| && j != i ensures Holds(pages, nodes', t.kids[j]) {
      assert changed !! Ids(t.kids[j]);
      HoldsFrame(pages, nodes, nodes', t.kids[j]);
    }
  }

  /** The same nodes in the same places, whatever their elements. */
  ghost predicate SameTags(nodes: map<nat, Node>, nodes': map<nat, Node>, ids: set<nat>) {
    forall x :: x in ids ==>
      && (x in nodes <==> x in nodes')
      && (x in nodes ==> nodes'[x].parent == nodes[x].parent && nodes'[x].key == nodes[x].key)
  }

  lemma {:induction false} SameTagsLinked(nodes: map<nat, Node>, nodes': map<nat, Node>, t: Tree)
    requires Linked(t, nodes) && SameTags(nodes, nodes', Ids(t))
    ensures Linked(t, nodes')
    decreases t
  {
    if t.Branch? {
      KidIds(t);
      IdIn(t);
      forall i | 0 <= i < |t.kids| ensures Linked(t.kids[i], nodes') && KidLinked(t.kids[i], nodes', t.id, t.inodes[i].key) {
        IdIn(t.kids[i]);
        SameTagsLinked(nodes, nodes', t.kids[i]);
      }
    }
  }

  lemma {:induction false} GraftLinked(t: Tree, stack: seq<Ref>, sub: Tree, h: nat, thin: set<nat>,
                                       nodes: map<nat, Node>, nodes': map<nat, Node>)
    requires Along(t, stack) && Shaped(t, h, thin) && Linked(t, nodes) && Linked(sub, nodes')
    requires sub.id == SubAt(t, stack).id && sub.id in nodes
    requires SameTags(nodes, nodes', Ids(t) - Ids(SubAt(t, stack)) + {sub.id})
    ensures Linked(Graft(t, stack, sub), nodes')
    decreases |stack|
  {
    hide Ids, Apart, KidLinked;
    if |stack| > 1 {
      var i, changed := stack[0].index, Ids(SubAt(t, stack));
      Enter(t, h, thin, stack);
      GraftLinked(t.kids[i], stack[1..], sub, h - 1, thin, nodes, nodes');
      GraftTag(t, stack, sub, h, thin, nodes, nodes');
      LinkedWithKid(t, h, thin, nodes, nodes', i, changed, Graft(t.kids[i], stack[1..], sub));
    }
  }

  /** The child a path enters keeps its place in its parent when something below it changes. */
  lemma GraftTag(t: Tree, stack: seq<Ref>, sub: Tree, h: nat, thin: set<nat>, nodes: map<nat, Node>, nodes': map<nat, Node>)
    requires Along(t, stack) && |stack| > 1 && Shaped(t, h, thin) && Linked(t, nodes)
    requires sub.id == SubAt(t, stack).id && sub.id in nodes
    requires SameTags(nodes, nodes', Ids(t) - Ids(SubAt(t, stack)) + {sub.id})
    ensures var i := stack[0].index; KidLinked(Graft(t.kids[i], stack[1..], sub), nodes', t.id, t.inodes[i].key)
  {
    hide Ids, Apart, Shaped;
    var i := stack[0].index;
    Enter(t, h, thin, stack);
    assert KidLinked(t.kids[i], nodes, t.id, t.inodes[i].key);
    assert t.id in Ids(t) - Ids(SubAt(t, stack));
  }

  lemma LinkedWithKid(t: Tree, h: nat, thin: set<nat>, nodes: map<nat, Node>, nodes': map<nat, Node>, i: nat, changed: set<nat>, kid: Tree)
    requires Shaped(t, h, thin) && Linked(t, nodes) && t.Branch? && i < |t.kids| && changed <= Ids(t.kids[i])
    requires SameTags(nodes, nodes', Ids(t) - changed)
    requires Linked(kid, nodes') && KidLinked(kid, nodes', t.id, t.inodes[i].key)
    ensures Linked(t.(kids := t.kids[i := kid]), nodes')
  {
    KidIds(t);
    IdIn(t);
    forall j | 0 <= j < |t.kids| && j != i
      ensures KidLinked(t.kids[j], nodes', t.id, t.inodes[j].key) && Linked(t.kids[j], nodes')
    {
      assert changed !! Ids(t.kids[j]);
      IdIn(t.kids[j]);
      SameTagsLinked(nodes, nodes', t.kids[j]);
    }
  }

  /** The second tree is as well ordered as the first, whatever the bounds. */
  ghost predicate AsOrdered(t: Tree, u: Tree) {
    forall lo, hi :: Ordered(t, lo, hi) ==> Ordered(u, lo, hi)
  }

  lemma {:induction false} GraftOrdered(t: Tree, stack: seq<Ref>, sub: Tree, lo: Bound, hi: Bound)
    requires Along(t, stack) && Ordered(t, lo, hi) && AsOrdered(SubAt(t, stack), sub)
    ensures Ordered(Graft(t, stack, sub), lo, hi)
    decreases |stack|
  {
    if |stack| > 1 {
      var i := stack[0].index;
      GraftOrdered(t.kids[i], stack[1..], sub, KidLo(t.inodes, lo, i), KidHi(t.inodes, hi, i));
    }
  }

  // ---------- editing one leaf ----------

  /** The tree with the leaf at the top of the stack holding other elements. */
  ghost function Edit(t: Tree, stack: seq<Ref>, inodes: seq<Inode>): Tree
    requires Along(t, stack)
  {
    Graft(t, stack, Leaf(SubAt(t, stack).id, inodes))
  }

  /** Elements allowed in the leaf a search reaches: the old ones, and one with the searched key. */
  ghost predicate LeafEdit(old_: seq<Inode>, inodes: seq<Inode>, key: Bytes) {
    && Sorted(inodes) && NoPages(inodes)
    && forall x :: x in inodes ==> x in old_ || x.key == key
  }

  lemma {:induction false} EditOrdered(t: Tree, key: Bytes, inodes: seq<Inode>, lo: Bound, hi: Bound)
    requires Ordered(t, lo, hi) && Tight(t, lo) && AtLeast(key, lo) && Below(key, hi)
    requires OnLeaf(t, PathTo(t, key)) && LeafEdit(SubAt(t, PathTo(t, key)).inodes, inodes, key)
    ensures Ordered(Edit(t, PathTo(t, key), inodes), lo, hi) && Tight(Edit(t, PathTo(t, key), inodes), lo)
    decreases t
  {
    hide Less;
    if t.Branch? {
      var i := Pick(t.inodes, key);
      assert PathTo(t, key)[1..] == PathTo(t.kids[i], key);
      PickSplits(t.inodes, key);
      EditOrdered(t.kids[i], key, inodes, KidLo(t.inodes, lo, i), KidHi(t.inodes, hi, i));
    } else {
      LeafEditWithin(t.inodes, inodes, key, lo, hi);
    }
  }

  lemma LeafEditWithin(old_: seq<Inode>, inodes: seq<Inode>, key: Bytes, lo: Bound, hi: Bound)
    requires Within(old_, lo, hi) && LeafEdit(old_, inodes, key) && AtLeast(key, lo) && Below(key, hi)
    ensures Within(inodes, lo, hi)
  {
    forall i | 0 <= i < |inodes| ensures AtLeast(inodes[i].key, lo) && Below(inodes[i].key, hi) {
      assert inodes[i] in inodes;
    }
  }

  // ---------- bringing pages into nodes ----------

  /** A child enters the nodes under its parent with its separator for key. */
  lemma {:induction false} LinkedAdd(t: Tree, h: nat, thin: set<nat>, nodes: map<nat, Node>, stack: seq<Ref>, n: Node)
    requires Shaped(t, h, thin) && Linked(t, nodes) && Along(t, stack) && |stack| > 1 && SubAt(t, stack).id !in nodes
    requires |SubAt(t, stack).inodes| > 0 && stack[|stack| - 2].id in nodes
    requires n.parent == Under(stack[|stack| - 2].id) && n.key == SubAt(t, stack).inodes[0].key
    ensures Linked(t, nodes[SubAt(t, stack).id := n])
    decreases |stack|
  {
    hide KidLinked, Apart, Ids;
    var i, sub := stack[0].index, SubAt(t, stack);
    var kid := t.kids[i];
    ShapedAlong(kid, h - 1, thin, stack[1..]);
    IdIn(sub);
    if |stack| > 2 {
      LinkedAdd(kid, h - 1, thin, nodes, stack[1..], n);
      OwnIdOnly(kid, h - 1, thin, stack[1..]);
      KidKept(kid, nodes, t.id, t.inodes[i].key, sub.id, n);
    } else {
      LinkedBelow(sub, h - 1, thin, nodes, n);
      KidAdded(sub, nodes, t.id, t.inodes[i].key, n);
    }
    LinkedWithKid(t, h, thin, nodes, nodes[sub.id := n], i, {sub.id}, kid);
    assert t.kids[i := kid] == t.kids;
  }

  lemma KidKept(kid: Tree, nodes: map<nat, Node>, parent: nat, sep: Bytes, id: nat, n: Node)
    requires KidLinked(kid, nodes, parent, sep) && kid.id != id
    ensures KidLinked(kid, nodes[id := n], parent, sep)
  {
  }

  lemma KidAdded(kid: Tree, nodes: map<nat, Node>, parent: nat, sep: Bytes, n: Node)
    requires KidLinked(kid, nodes, parent, sep) && kid.id !in nodes && parent in nodes
    requires |kid.inodes| > 0 && n.parent == Under(parent) && n.key == kid.inodes[0].key
    ensures KidLinked(kid, nodes[kid.id := n], parent, sep)
  {
  }

  /** Below the top of a longer path the id of the tree itself does not occur again. */
  lemma OwnIdOnly(t: Tree, h: nat, thin: set<nat>, stack: seq<Ref>)
    requires Shaped(t, h, thin) && Along(t, stack) && |stack| > 1
    ensures SubAt(t, stack).id != t.id && t.id !in Ids(SubAt(t, stack))
  {
    ShapedAlong(t.kids[stack[0].index], h - 1, thin, stack[1..]);
    IdIn(SubAt(t, stack));
  }

  lemma LinkedBelow(t: Tree, h: nat, thin: set<nat>, nodes: map<nat, Node>, n: Node)
    requires Shaped(t, h, thin) && Linked(t, nodes) && t.id !in nodes
    ensures Linked(t, nodes[t.id := n])
  {
    if t.Branch? {
      KidIds(t);
      forall i | 0 <= i < |t.kids|
        ensures KidLinked(t.kids[i], nodes[t.id := n], t.id, t.inodes[i].key) && Linked(t.kids[i], nodes[t.id := n])
      {
        IdIn(t.kids[i]);
        SameTagsLinked(nodes, nodes[t.id := n], t.kids[i]);
      }
    }
  }

  /** What a child's page or node tells about its place. */
  lemma {:induction false} LinkedAlong(t: Tree, nodes: map<nat, Node>, stack: seq<Ref>)
    requires Linked(t, nodes) && Along(t, stack) && |stack| > 1
    ensures var sub, up := SubAt(t, stack), stack[..|stack| - 1];
      && Along(t, up) && SubAt(t, up).Branch? && Top(up).index < |SubAt(t, up).inodes| && SubAt(t, up).id == Top(up).id
      && KidLinked(sub, nodes, Top(up).id, SubAt(t, up).inodes[Top(up).index].key)
    decreases |stack|
  {
    if |stack| > 2 {
      LinkedAlong(t.kids[stack[0].index], nodes, stack[1..]);
      assert stack[1..][..|stack| - 2] == stack[..|stack| - 1][1..];
    }
  }
}
