/** node.rebalance: removing empty nodes, merging siblings and collapsing the root, up to the root. */
module Rebalancing {
  import opened Keys
  import opened Trees
  import opened Paths
  import opened Contents
  import opened Shapes
  import opened Siblings
  import opened Buckets

  const PAGE_HEADER_SIZE: nat := 16
  const ELEMENT_SIZE: nat := 16

  /** node.size: the bytes the elements take on a page. */
  function Size(inodes: seq<Inode>): nat {
    if inodes == [] then PAGE_HEADER_SIZE
    else Size(inodes[..|inodes| - 1]) + ELEMENT_SIZE + |inodes[|inodes| - 1].key| + |inodes[|inodes| - 1].value|
  }

  function MinKeys(n: Node): nat {
    if n.isLeaf then 1 else 2
  }

  /** The children of a branch, which may be in memory or not. */
  ghost function KidSet(t: Tree): set<nat> {
    if t.Leaf? then {} else set j | 0 <= j < |t.kids| :: t.kids[j].id
  }

  /** Nodes whose elements and places are as they were, except at p, l and r and in the places of r's children. */
  ghost predicate JoinedNodes(nodes: map<nat, Node>, nodes': map<nat, Node>, p: Tree, i: nat)
    requires p.Branch? && |p.inodes| == |p.kids| && i + 1 < |p.kids|
  {
    var l, r := p.kids[i], p.kids[i + 1];
    && nodes'.Keys == nodes.Keys - {r.id} && p.id in nodes' && l.id in nodes'
    && (forall x :: x in nodes' ==> nodes'[x].key == nodes[x].key && nodes'[x].isLeaf == nodes[x].isLeaf)
    && (forall x :: x in nodes' && x != p.id && x != l.id ==> nodes'[x].inodes == nodes[x].inodes)
    && (forall x :: x in nodes' && x !in KidSet(r) ==> nodes'[x].parent == nodes[x].parent)
    && (forall x :: x in nodes' && x in KidSet(r) ==> nodes'[x].parent == Under(l.id))
    && nodes'[p.id].inodes == Without(p.inodes, i + 1) && nodes'[l.id].inodes == l.inodes + r.inodes
  }

  lemma KidSetIds(t: Tree)
    requires Apart(t)
    ensures KidSet(t) <= Ids(t) - {t.id}
  {
    if t.Branch? {
      KidIds(t);
      forall j | 0 <= j < |t.kids| ensures t.kids[j].id in Ids(t) - {t.id} {
        IdIn(t.kids[j]);
        KidOf(t, j);
      }
    }
  }

  /** The merged node with its children linked to it. */
  lemma JoinedLinked(l: Tree, r: Tree, h: nat, thin: set<nat>, nodes: map<nat, Node>, nodes': map<nat, Node>)
    requires Shaped(l, h, thin) && Shaped(r, h, thin) && Ids(l) !! Ids(r) && Linked(l, nodes) && Linked(r, nodes)
    requires l.id in nodes' && SameTags(nodes, nodes', Ids(l)) && SameTags(nodes, nodes', Ids(r) - {r.id} - KidSet(r))
    requires forall x :: x in KidSet(r) ==>
      (x in nodes <==> x in nodes') && (x in nodes ==> nodes'[x].key == nodes[x].key && nodes'[x].parent == Under(l.id))
    ensures Linked(Joined(l, r), nodes')
  {
    hide Ids, Apart, KidSet;
    SameTagsLinked(nodes, nodes', l);
    if l.Branch? {
      var u := Joined(l, r);
      forall j | 0 <= j < |u.kids| ensures KidLinked(u.kids[j], nodes', u.id, u.inodes[j].key) && Linked(u.kids[j], nodes') {
        if j >= |l.kids| {
          MovedKid(r, j - |l.kids|, h, thin, nodes, nodes', l.id);
        }
      }
    }
  }

  lemma MovedKid(r: Tree, j: nat, h: nat, thin: set<nat>, nodes: map<nat, Node>, nodes': map<nat, Node>, to: nat)
    requires Shaped(r, h, thin) && r.Branch? && j < |r.kids| && Linked(r, nodes) && to in nodes'
    requires SameTags(nodes, nodes', Ids(r) - {r.id} - KidSet(r))
    requires forall x :: x in KidSet(r) ==>
      (x in nodes <==> x in nodes') && (x in nodes ==> nodes'[x].key == nodes[x].key && nodes'[x].parent == Under(to))
    ensures KidLinked(r.kids[j], nodes', to, r.inodes[j].key) && Linked(r.kids[j], nodes')
  {
    hide Ids, Apart;
    var kid := r.kids[j];
    assert kid.id in KidSet(r);
    assert KidLinked(kid, nodes, r.id, r.inodes[j].key);
    if kid.Branch? {
      forall k | 0 <= k < |kid.kids|
        ensures KidLinked(kid.kids[k], nodes', kid.id, kid.inodes[k].key) && Linked(kid.kids[k], nodes')
      {
        assert KidLinked(kid.kids[k], nodes, kid.id, kid.inodes[k].key);
        KidOf(r, j);
        KidOf(kid, k);
        IdIn(kid.kids[k]);
        GrandkidsApart(r, j, k, h, thin);
        SameTagsLinked(nodes, nodes', kid.kids[k]);
      }
    }
  }

  /** A grandchild's pages hold no child of the branch. */
  lemma GrandkidsApart(r: Tree, j: nat, k: nat, h: nat, thin: set<nat>)
    requires Shaped(r, h, thin) && r.Branch? && j < |r.kids| && r.kids[j].Branch? && k < |r.kids[j].kids|
    ensures Ids(r.kids[j].kids[k]) !! KidSet(r)
  {
    hide Ids, Apart;
    KidOf(r.kids[j], k);
    forall x | x in KidSet(r) ensures x !in Ids(r.kids[j].kids[k]) {
      var m :| 0 <= m < |r.kids| && r.kids[m].id == x;
      IdIn(r.kids[m]);
      if m != j {
        KidsApart(r, j, m);
      }
    }
  }

  // ---------- merging two siblings ----------

  lemma JoinedSame(pages: map<nat, Data>, nodes: map<nat, Node>, nodes': map<nat, Node>, p: Tree, i: nat, ids: set<nat>)
    requires p.Branch? && |p.inodes| == |p.kids| && i + 1 < |p.kids| && JoinedNodes(nodes, nodes', p, i)
    ensures ids !! {p.id, p.kids[i].id, p.kids[i + 1].id} ==> SameShown(pages, nodes, nodes', ids)
    ensures ids !! {p.kids[i + 1].id} + KidSet(p.kids[i + 1]) ==> SameTags(nodes, nodes', ids)
  {
    hide KidSet;
  }

  lemma KidsHold(pages: map<nat, Data>, nodes: map<nat, Node>, nodes': map<nat, Node>, t: Tree)
    requires Holds(pages, nodes, t) && Apart(t) && SameShown(pages, nodes, nodes', Ids(t) - {t.id})
    ensures t.Branch? ==> forall j :: 0 <= j < |t.kids| ==> Holds(pages, nodes', t.kids[j])
  {
    hide Ids, Apart;
    if t.Branch? {
      forall j | 0 <= j < |t.kids| ensures Holds(pages, nodes', t.kids[j]) {
        KidOf(t, j);
        HoldsFrame(pages, nodes, nodes', t.kids[j]);
      }
    }
  }

  lemma JoinedHolds(pages: map<nat, Data>, nodes: map<nat, Node>, nodes': map<nat, Node>, l: Tree, r: Tree)
    requires (l.Leaf? <==> r.Leaf?) && Apart(l) && Apart(r) && Holds(pages, nodes, l) && Holds(pages, nodes, r)
    requires SameShown(pages, nodes, nodes', Ids(l) - {l.id}) && SameShown(pages, nodes, nodes', Ids(r) - {r.id})
    requires Held(pages, nodes', l.id) && Shown(pages, nodes', l.id) == Data(l.Leaf?, l.inodes + r.inodes)
    ensures Holds(pages, nodes', Joined(l, r))
  {
    hide Ids, Apart;
    KidsHold(pages, nodes, nodes', l);
    KidsHold(pages, nodes, nodes', r);
  }

  lemma JoinHolds(pages: map<nat, Data>, nodes: map<nat, Node>, nodes': map<nat, Node>, p: Tree, i: nat, h: nat, thin: set<nat>)
    requires p.Branch? && Shaped(p, h, thin) && i + 1 < |p.kids| && JoinedNodes(nodes, nodes', p, i)
    requires p.id in nodes && p.kids[i].id in nodes && Holds(pages, nodes, p)
    ensures (p.kids[i].Leaf? <==> p.kids[i + 1].Leaf?) && Holds(pages, nodes', JoinKids(p, i))
  {
    hide Ids, Apart, KidSet;
    var l, r, u := p.kids[i], p.kids[i + 1], JoinKids(p, i);
    KidsApart(p, i, i + 1);
    KidsApart(p, i + 1, i);
    IdIn(l);
    IdIn(r);
    JoinedSame(pages, nodes, nodes', p, i, Ids(l) - {l.id});
    JoinedSame(pages, nodes, nodes', p, i, Ids(r) - {r.id});
    JoinedHolds(pages, nodes, nodes', l, r);
    forall j | 0 <= j < |u.kids| ensures Holds(pages, nodes', u.kids[j]) {
      if j != i {
        var k := if j < i then j else j + 1;
        KidsApart(p, k, i);
        KidsApart(p, k, i + 1);
        JoinedSame(pages, nodes, nodes', p, i, Ids(p.kids[k]));
        HoldsFrame(pages, nodes, nodes', p.kids[k]);
      }
    }
  }

  lemma JoinLinked(nodes: map<nat, Node>, nodes': map<nat, Node>, p: Tree, i: nat, h: nat, thin: set<nat>)
    requires p.Branch? && Shaped(p, h, thin) && i + 1 < |p.kids| && JoinedNodes(nodes, nodes', p, i)
    requires p.id in nodes && p.kids[i].id in nodes && Linked(p, nodes)
    ensures (p.kids[i].Leaf? <==> p.kids[i + 1].Leaf?) && Linked(JoinKids(p, i), nodes')
  {
    hide Ids, Apart, KidSet, JoinedNodes, SameTags, SameShown;
    var l, r, u := p.kids[i], p.kids[i + 1], JoinKids(p, i);
    JoinedKid(nodes, nodes', p, i, h, thin);
    forall j | 0 <= j < |u.kids| ensures KidLinked(u.kids[j], nodes', u.id, u.inodes[j].key) && Linked(u.kids[j], nodes') {
      if j != i {
        OtherKid(nodes, nodes', p, i, if j < i then j else j + 1);
      }
    }
  }

  lemma JoinedKid(nodes: map<nat, Node>, nodes': map<nat, Node>, p: Tree, i: nat, h: nat, thin: set<nat>)
    requires p.Branch? && Shaped(p, h, thin) && i + 1 < |p.kids| && JoinedNodes(nodes, nodes', p, i)
    requires p.id in nodes && p.kids[i].id in nodes && Linked(p, nodes)
    ensures var l, r := p.kids[i], p.kids[i + 1];
      && (l.Leaf? <==> r.Leaf?) && Linked(Joined(l, r), nodes') && KidLinked(Joined(l, r), nodes', p.id, p.inodes[i].key)
  {
    hide Ids, Apart, KidSet, SameTags, SameShown;
    var l, r := p.kids[i], p.kids[i + 1];
    KidsApart(p, i, i + 1);
    IdIn(l);
    IdIn(r);
    KidSetIds(r);
    JoinedSame(map[], nodes, nodes', p, i, Ids(l));
    JoinedSame(map[], nodes, nodes', p, i, Ids(r) - {r.id} - KidSet(r));
    KidSetMoved(nodes, nodes', p, i);
    JoinedLinked(l, r, h - 1, thin, nodes, nodes');
    assert KidLinked(l, nodes, p.id, p.inodes[i].key);
  }

  lemma OtherKid(nodes: map<nat, Node>, nodes': map<nat, Node>, p: Tree, i: nat, k: nat)
    requires p.Branch? && Apart(p) && |p.inodes| == |p.kids| && i + 1 < |p.kids| && JoinedNodes(nodes, nodes', p, i)
    requires p.id in nodes && Linked(p, nodes) && k < |p.kids| && k != i && k != i + 1 && Apart(p.kids[i + 1])
    ensures KidLinked(p.kids[k], nodes', p.id, p.inodes[k].key) && Linked(p.kids[k], nodes')
  {
    hide Ids, Apart, KidSet, SameTags, SameShown;
    assert KidLinked(p.kids[k], nodes, p.id, p.inodes[k].key);
    var r := p.kids[i + 1];
    IdIn(p.kids[k]);
    KidsApart(p, k, i + 1);
    KidSetIds(r);
    IdIn(r);
    JoinedSame(map[], nodes, nodes', p, i, Ids(p.kids[k]));
    SameTagsLinked(nodes, nodes', p.kids[k]);
  }

  lemma KidSetMoved(nodes: map<nat, Node>, nodes': map<nat, Node>, p: Tree, i: nat)
    requires p.Branch? && |p.inodes| == |p.kids| && i + 1 < |p.kids| && JoinedNodes(nodes, nodes', p, i)
    requires Apart(p.kids[i + 1])
    ensures forall x :: x in KidSet(p.kids[i + 1]) ==>
      (x in nodes <==> x in nodes') && (x in nodes ==> nodes'[x].key == nodes[x].key && nodes'[x].parent == Under(p.kids[i].id))
  {
    hide Apart, KidSet, Ids;
    KidSetIds(p.kids[i + 1]);
  }

  /** The tree around a changed branch: what holds of the branch holds of the whole. */
  lemma GraftStored(pages: map<nat, Data>, nodes: map<nat, Node>, nodes': map<nat, Node>, t: Tree, h: nat, thin: set<nat>,
                    ps: seq<Ref>, p': Tree, lost: set<nat>)
    requires StoredBut(pages, nodes, t, h, thin) && Along(t, ps) && |ps| <= h + 1 && SubAt(t, ps).Branch?
    requires thin <= Ids(SubAt(t, ps)) && p'.id == SubAt(t, ps).id && p'.id in nodes && p'.Branch?
    requires Shaped(p', h + 1 - |ps|, {p'.id}) && Ids(p') == Ids(SubAt(t, ps)) - lost && lost <= Ids(SubAt(t, ps)) - {p'.id}
    requires Holds(pages, nodes', p') && Linked(p', nodes') && AsOrdered(SubAt(t, ps), p')
    requires Flatten(p') == Flatten(SubAt(t, ps))
    requires SameShown(pages, nodes, nodes', Ids(t) - Ids(SubAt(t, ps)))
    requires SameTags(nodes, nodes', Ids(t) - Ids(SubAt(t, ps)) + {p'.id})
    requires nodes'.Keys <= nodes.Keys - lost
    ensures var t' := Graft(t, ps, p');
      && StoredBut(pages, nodes', t', h, {p'.id}) && t'.id == t.id
      && Along(t', ps) && SubAt(t', ps) == p'
      && Flatten(t') == Flatten(t) && Ids(t') == Ids(t) - lost
  {
    hide Ids, Apart, Linked, Holds, SameShown, SameTags, Shaped, Ordered, AsOrdered;
    GraftTree(t, h, thin, ps, p', lost);
    GraftNodes(pages, nodes, nodes', t, h, thin, ps, p');
    KidOrRoot(t, ps);
  }

  lemma GraftTree(t: Tree, h: nat, thin: set<nat>, ps: seq<Ref>, p': Tree, lost: set<nat>)
    requires Shaped(t, h, thin) && Ordered(t, Open, Open) && Along(t, ps) && |ps| <= h + 1
    requires thin <= Ids(SubAt(t, ps)) && p'.id == SubAt(t, ps).id
    requires Shaped(p', h + 1 - |ps|, {p'.id}) && Ids(p') == Ids(SubAt(t, ps)) - lost && lost <= Ids(SubAt(t, ps))
    requires AsOrdered(SubAt(t, ps), p') && Flatten(p') == Flatten(SubAt(t, ps))
    ensures var t' := Graft(t, ps, p');
      && Shaped(t', h, {p'.id}) && Ordered(t', Open, Open) && t'.id == t.id
      && Along(t', ps) && SubAt(t', ps) == p'
      && Flatten(t') == Flatten(t) && Ids(t') == Ids(t) - lost
  {
    hide Ids, Apart, AsOrdered;
    ShapedAlong(t, h, thin, ps);
    GraftAlong(t, ps, p');
    GraftShape(t, ps, p', h, thin, {p'.id});
    GraftOrdered(t, ps, p', Open, Open);
    GraftFlatten(t, ps, p');
    Around(t, ps);
  }

  lemma GraftNodes(pages: map<nat, Data>, nodes: map<nat, Node>, nodes': map<nat, Node>, t: Tree, h: nat, thin: set<nat>,
                   ps: seq<Ref>, p': Tree)
    requires StoredBut(pages, nodes, t, h, thin) && Along(t, ps) && p'.id == SubAt(t, ps).id && p'.id in nodes
    requires Holds(pages, nodes', p') && Linked(p', nodes')
    requires SameShown(pages, nodes, nodes', Ids(t) - Ids(SubAt(t, ps)))
    requires SameTags(nodes, nodes', Ids(t) - Ids(SubAt(t, ps)) + {p'.id})
    ensures Holds(pages, nodes', Graft(t, ps, p')) && Linked(Graft(t, ps, p'), nodes')
    ensures t.id in nodes <==> t.id in nodes'
    ensures t.id in nodes ==> nodes'[t.id].parent == nodes[t.id].parent
  {
    hide Ids, Apart, SameShown, SameTags, Ordered;
    GraftHolds(t, ps, p', h, thin, pages, nodes, nodes');
    GraftLinked(t, ps, p', h, thin, nodes, nodes');
    RootTag(t, h, thin, ps, nodes, nodes');
  }

  lemma RootTag(t: Tree, h: nat, thin: set<nat>, ps: seq<Ref>, nodes: map<nat, Node>, nodes': map<nat, Node>)
    requires Along(t, ps) && Shaped(t, h, thin) && SameTags(nodes, nodes', Ids(t) - Ids(SubAt(t, ps)) + {SubAt(t, ps).id})
    ensures t.id in nodes <==> t.id in nodes'
    ensures t.id in nodes ==> nodes'[t.id].parent == nodes[t.id].parent
  {
    hide Ids, Apart;
    IdIn(t);
    if |ps| > 1 {
      OwnIdOnly(t, h, thin, ps);
    }
  }

  lemma KidOrRoot(t: Tree, ps: seq<Ref>)
    requires Along(t, ps) && SubAt(t, ps).Branch?
    ensures t.Branch?
  {
  }

  /** Two siblings in memory merged under their parent. */
  lemma JoinStored(pages: map<nat, Data>, nodes: map<nat, Node>, nodes': map<nat, Node>, t: Tree, h: nat, thin: set<nat>,
                   ps: seq<Ref>, i: nat)
    requires StoredBut(pages, nodes, t, h, thin) && Along(t, ps) && SubAt(t, ps).Branch?
    requires var p := SubAt(t, ps);
      && |p.kids| == |p.inodes| && i + 1 < |p.kids| && p.id in nodes && p.kids[i].id in nodes
      && thin <= {p.kids[i].id, p.kids[i + 1].id} && JoinedNodes(nodes, nodes', p, i)
    ensures var p := SubAt(t, ps);
      (p.kids[i].Leaf? <==> p.kids[i + 1].Leaf?)
      && var t' := Graft(t, ps, JoinKids(p, i));
      && StoredBut(pages, nodes', t', h, {p.id}) && t'.id == t.id
      && Along(t', ps) && SubAt(t', ps).id == p.id
      && Flatten(t') == Flatten(t) && Ids(t') == Ids(t) - {p.kids[i + 1].id} && p.kids[i + 1].id in Ids(t)
      && p.kids[i + 1].id != t.id && t.Branch?
  {
    hide Ids, Apart, KidSet, Linked, Holds, Ordered, Joined;
    var p := SubAt(t, ps);
    var l, r, hp := p.kids[i], p.kids[i + 1], h + 1 - |ps|;
    ShapedAlong(t, h, thin, ps);
    HoldsAlong(pages, nodes, t, ps);
    LinkedSub(t, nodes, ps);
    KidIds(p);
    KidOf(p, i);
    KidOf(p, i + 1);
    IdIn(l);
    IdIn(r);
    IdIn(t);
    JoinHolds(pages, nodes, nodes', p, i, hp, thin);
    JoinLinked(nodes, nodes', p, i, hp, thin);
    JoinShape(p, i, hp, thin);
    JoinFlatten(p, i);
    forall lo, hi | Ordered(p, lo, hi) ensures Ordered(JoinKids(p, i), lo, hi) {
      JoinOrdered(p, i, lo, hi);
    }
    IdIn(p);
    KidSetIds(r);
    JoinedSame(pages, nodes, nodes', p, i, Ids(t) - Ids(p));
    JoinedSame(pages, nodes, nodes', p, i, Ids(t) - Ids(p) + {p.id});
    GraftStored(pages, nodes, nodes', t, h, thin, ps, JoinKids(p, i), {r.id});
    KidOrRoot(t, ps);
    if |ps| > 1 {
      OwnIdOnly(t, h, thin, ps);
    }
  }

  lemma {:induction false} LinkedSub(t: Tree, nodes: map<nat, Node>, stack: seq<Ref>)
    requires Linked(t, nodes) && Along(t, stack)
    ensures Linked(SubAt(t, stack), nodes)
    decreases |stack|
  {
    if |stack| > 1 {
      LinkedSub(t.kids[stack[0].index], nodes, stack[1..]);
    }
  }

  // ---------- removing an empty leaf ----------

  ghost predicate DroppedNodes(nodes: map<nat, Node>, nodes': map<nat, Node>, p: Tree, i: nat)
    requires p.Branch? && |p.inodes| == |p.kids| && i < |p.kids|
  {
    && nodes'.Keys == nodes.Keys - {p.kids[i].id} && p.id in nodes'
    && (forall x :: x in nodes' ==>
          nodes'[x].key == nodes[x].key && nodes'[x].isLeaf == nodes[x].isLeaf && nodes'[x].parent == nodes[x].parent)
    && (forall x :: x in nodes' && x != p.id ==> nodes'[x].inodes == nodes[x].inodes)
    && nodes'[p.id].inodes == Without(p.inodes, i)
  }

  lemma DroppedSame(pages: map<nat, Data>, nodes: map<nat, Node>, nodes': map<nat, Node>, p: Tree, i: nat, ids: set<nat>)
    requires p.Branch? && |p.inodes| == |p.kids| && i < |p.kids| && DroppedNodes(nodes, nodes', p, i)
    ensures ids !! {p.id, p.kids[i].id} ==> SameShown(pages, nodes, nodes', ids)
    ensures p.kids[i].id !in ids ==> SameTags(nodes, nodes', ids)
  {
  }

  lemma DropPart(pages: map<nat, Data>, nodes: map<nat, Node>, nodes': map<nat, Node>, p: Tree, i: nat, h: nat, thin: set<nat>)
    requires p.Branch? && Shaped(p, h, thin) && i < |p.kids| && DroppedNodes(nodes, nodes', p, i)
    requires p.id in nodes && Holds(pages, nodes, p) && Linked(p, nodes)
    ensures Holds(pages, nodes', DropKid(p, i)) && Linked(DropKid(p, i), nodes')
  {
    hide Ids, Apart;
    var u := DropKid(p, i);
    IdIn(p.kids[i]);
    forall j | 0 <= j < |u.kids|
      ensures Holds(pages, nodes', u.kids[j])
      ensures KidLinked(u.kids[j], nodes', u.id, u.inodes[j].key) && Linked(u.kids[j], nodes')
    {
      var k := if j < i then j else j + 1;
      assert KidLinked(p.kids[k], nodes, p.id, p.inodes[k].key);
      KidsApart(p, k, i);
      IdIn(p.kids[k]);
      DroppedSame(pages, nodes, nodes', p, i, Ids(p.kids[k]));
      HoldsFrame(pages, nodes, nodes', p.kids[k]);
      SameTagsLinked(nodes, nodes', p.kids[k]);
    }
  }

  lemma DropStored(pages: map<nat, Data>, nodes: map<nat, Node>, nodes': map<nat, Node>, t: Tree, h: nat, ps: seq<Ref>, i: nat)
    requires StoredBut(pages, nodes, t, h, {}) && Along(t, ps) && SubAt(t, ps).Branch?
    requires var p := SubAt(t, ps);
      && |p.kids| == |p.inodes| && i < |p.kids| && p.id in nodes && p.kids[i].Leaf? && p.kids[i].inodes == []
      && DroppedNodes(nodes, nodes', p, i)
    ensures var p := SubAt(t, ps);
      var t' := Graft(t, ps, DropKid(p, i));
      && StoredBut(pages, nodes', t', h, {p.id}) && t'.id == t.id
      && Along(t', ps) && SubAt(t', ps).id == p.id
      && Flatten(t') == Flatten(t) && Ids(t') == Ids(t) - {p.kids[i].id} && p.kids[i].id in Ids(t)
      && p.kids[i].id != t.id && t.Branch?
  {
    hide Ids, Apart;
    var p, hp := SubAt(t, ps), h + 1 - |ps|;
    ShapedAlong(t, h, {}, ps);
    HoldsAlong(pages, nodes, t, ps);
    LinkedSub(t, nodes, ps);
    KidOf(p, i);
    LeafIds(p.kids[i], p.kids[i]);
    IdIn(p);
    IdIn(t);
    DropPart(pages, nodes, nodes', p, i, hp, {});
    DropShape(p, i, hp, {});
    DropFlatten(p, i);
    forall lo, hi | Ordered(p, lo, hi) ensures Ordered(DropKid(p, i), lo, hi) {
      DropOrdered(p, i, lo, hi);
    }
    DroppedSame(pages, nodes, nodes', p, i, Ids(t) - Ids(p));
    DroppedSame(pages, nodes, nodes', p, i, Ids(t) - Ids(p) + {p.id});
    GraftStored(pages, nodes, nodes', t, h, {}, ps, DropKid(p, i), {p.kids[i].id});
    KidOrRoot(t, ps);
    if |ps| > 1 {
      OwnIdOnly(t, h, {}, ps);
    }
  }

  // ---------- collapsing the root ----------

  /** The only child's contents under the root's id. */
  ghost function Raised(t: Tree): Tree
    requires t.Branch? && |t.kids| == 1
  {
    var c := t.kids[0];
    if c.Leaf? then Leaf(t.id, c.inodes) else Branch(t.id, c.inodes, c.kids)
  }

  ghost predicate CollapsedNodes(nodes: map<nat, Node>, nodes': map<nat, Node>, t: Tree)
    requires t.Branch? && |t.kids| == 1
  {
    var c := t.kids[0];
    && nodes'.Keys == nodes.Keys - {c.id} && t.id in nodes'
    && (forall x :: x in nodes' ==> nodes'[x].key == nodes[x].key)
    && (forall x :: x in nodes' && x != t.id ==> nodes'[x].inodes == nodes[x].inodes && nodes'[x].isLeaf == nodes[x].isLeaf)
    && (forall x :: x in nodes' && x !in KidSet(c) ==> nodes'[x].parent == nodes[x].parent)
    && (forall x :: x in nodes' && x in KidSet(c) ==> nodes'[x].parent == Under(t.id))
    && nodes'[t.id].inodes == c.inodes && nodes'[t.id].isLeaf == c.Leaf?
  }

  lemma CollapseStored(pages: map<nat, Data>, nodes: map<nat, Node>, nodes': map<nat, Node>, t: Tree, h: nat)
    requires StoredBut(pages, nodes, t, h, {t.id}) && t.id in nodes && t.Branch? && |t.kids| == 1
    requires CollapsedNodes(nodes, nodes', t)
    ensures h >= 1 && StoredBut(pages, nodes', Raised(t), h - 1, {})
    ensures Flatten(Raised(t)) == Flatten(t)
    ensures t.kids[0].id in Ids(t) && t.kids[0].id != 0 && Ids(Raised(t)) == Ids(t) - {t.kids[0].id}
  {
    hide Ids, Apart, KidSet;
    var c, u := t.kids[0], Raised(t);
    FlattenOne(c);
    assert t.kids == [c];
    KidOf(t, 0);
    IdIn(c);
    RaisedIds(t);
    KidShaped(t, h, {t.id}, {}, 0);
    RaisedShape(t, h);
    OrderedKid(t, Open, Open, 0);
    KidSetIds(c);
    RaisedKids(pages, nodes, nodes', t, h);
  }

  lemma RaisedIds(t: Tree)
    requires t.Branch? && |t.kids| == 1 && Apart(t) && Apart(t.kids[0])
    ensures Ids(Raised(t)) == Ids(t) - {t.kids[0].id} && Apart(Raised(t))
  {
    var c, u := t.kids[0], Raised(t);
    assert c.id in Ids(c);
    forall x ensures x in Ids(u) <==> x in Ids(t) && x != c.id {
      if x in Ids(u) && x != u.id {
        var k := KidWith(u, x);
        assert x in Ids(c.kids[k]);
      }
    }
  }

  lemma RaisedShape(t: Tree, h: nat)
    requires h >= 1 && t.Branch? && |t.kids| == 1 && Shaped(t.kids[0], h - 1, {}) && Apart(Raised(t))
    ensures Shaped(Raised(t), h - 1, {})
  {
    hide Ids, Apart;
  }

  lemma RaisedKids(pages: map<nat, Data>, nodes: map<nat, Node>, nodes': map<nat, Node>, t: Tree, h: nat)
    requires t.Branch? && |t.kids| == 1 && Shaped(t, h, {t.id}) && Holds(pages, nodes, t) && Linked(t, nodes)
    requires t.id in nodes && CollapsedNodes(nodes, nodes', t)
    ensures Holds(pages, nodes', Raised(t)) && Linked(Raised(t), nodes')
  {
    hide Ids, Apart, KidSet;
    var c, u := t.kids[0], Raised(t);
    KidOf(t, 0);
    KidSetIds(c);
    assert SameShown(pages, nodes, nodes', Ids(c) - {c.id});
    KidsHold(pages, nodes, nodes', c);
    if c.Branch? {
      forall j | 0 <= j < |c.kids| ensures KidLinked(c.kids[j], nodes', t.id, c.inodes[j].key) && Linked(c.kids[j], nodes') {
        MovedKid(c, j, h - 1, {t.id}, nodes, nodes', t.id);
      }
    }
  }

  // ---------- the operations ----------

  /** A bucket in which only branches in thin may have a single child. */
  ghost predicate Loose(b: Bucket, thin: set<nat>)
    reads b
  {
    && StoredBut(b.pages, b.nodes, b.tree, b.height, thin) && b.tree.id == b.root && b.writable
    && b.freed !! Ids(b.tree)
  }

  /** All pages the bucket has, or has given back to the freelist. */
  ghost function AllPages(b: Bucket): set<nat>
    reads b
  {
    Ids(b.tree) + b.freed
  }

  ghost function PgidSet(inodes: seq<Inode>): set<nat> {
    set i | 0 <= i < |inodes| :: inodes[i].pgid
  }

  /** Apart from one node, none is marked unbalanced that was not before. */
  ghost predicate NoNewMarks(before: map<nat, Node>, after: map<nat, Node>, but: nat) {
    forall x :: x in after && x != but && after[x].unbalanced ==> x in before && before[x].unbalanced
  }

  /** A marked node that rebalance has to do something about. */
  predicate TooSmall(n: Node, pageSize: nat) {
    && n.unbalanced && (Size(n.inodes) <= pageSize / 4 || |n.inodes| <= MinKeys(n))
    && (n.parent == Root ==> !n.isLeaf && |n.inodes| == 1)
  }

  /** The children in memory of these elements move under another parent. */
  method Reparent(b: Bucket, inodes: seq<Inode>, to: nat)
    modifies b`nodes
    ensures b.nodes.Keys == old(b.nodes).Keys
    ensures forall x :: x in b.nodes ==>
      b.nodes[x] == if x in PgidSet(inodes) then old(b.nodes)[x].(parent := Under(to)) else old(b.nodes)[x]
  {
    var i := 0;
    while i < |inodes|
      invariant 0 <= i <= |inodes| && b.nodes.Keys == old(b.nodes).Keys
      invariant forall x :: x in b.nodes ==>
        b.nodes[x] == if x in PgidSet(inodes[..i]) then old(b.nodes)[x].(parent := Under(to)) else old(b.nodes)[x]
    {
      var id := inodes[i].pgid;
      PgidSetNext(inodes, i);
      if id in b.nodes {
        b.nodes := b.nodes[id := b.nodes[id].(parent := Under(to))];
      }
      i := i + 1;
    }
    assert inodes[..i] == inodes;
  }

  lemma PgidSetNext(inodes: seq<Inode>, i: nat)
    requires i < |inodes|
    ensures PgidSet(inodes[..i + 1]) == PgidSet(inodes[..i]) + {inodes[i].pgid}
  {
    var a, b := inodes[..i], inodes[..i + 1];
    forall x ensures x in PgidSet(b) <==> x in PgidSet(a) + {inodes[i].pgid} {
      if x in PgidSet(b) {
        var j :| 0 <= j < |b| && b[j].pgid == x;
        assert j < i ==> a[j] == b[j];
      }
      if x in PgidSet(a) {
        var j :| 0 <= j < |a| && a[j].pgid == x;
        assert b[j] == a[j];
      }
      assert b[i] == inodes[i];
    }
  }

  /** free: give a page back to the freelist. */
  method Free(b: Bucket, id: nat)
    modifies b`freed
    ensures b.freed == old(b.freed) + if id != 0 then {id} else {}
  {
    if id != 0 {
      b.freed := b.freed + {id};
    }
  }

  // ---------- where a node stands ----------

  /** What a node in memory knows about its place in the tree. */
  lemma PlaceOf(pages: map<nat, Data>, nodes: map<nat, Node>, t: Tree, h: nat, thin: set<nat>, stack: seq<Ref>)
    requires StoredBut(pages, nodes, t, h, thin) && Along(t, stack) && Top(stack).id in nodes
    ensures var n, sub := nodes[Top(stack).id], SubAt(t, stack);
      && sub.id == Top(stack).id && n.inodes == sub.inodes && n.isLeaf == sub.Leaf? && Sorted(n.inodes)
      && (sub.Branch? ==> |sub.kids| == |sub.inodes| > 0)
      && (|stack| == 1 ==> sub == t && n.parent == Root)
    ensures |stack| > 1 ==>
      var n, up := nodes[Top(stack).id], stack[..|stack| - 1];
      && Along(t, up) && SubAt(t, up).Branch? && |SubAt(t, up).kids| == |SubAt(t, up).inodes|
      && Top(up).index < |SubAt(t, up).kids| && SubAt(t, up).kids[Top(up).index] == SubAt(t, stack)
      && n.parent == Under(SubAt(t, up).id) && SubAt(t, up).id in nodes && Top(up).id == SubAt(t, up).id
      && n.key == SubAt(t, up).inodes[Top(up).index].key
  {
    hide Ids, Apart;
    TopPage(pages, nodes, t, h, thin, stack);
    TopId(t, stack);
    ShapedAlong(t, h, thin, stack);
    OrderedAlong(t, Open, Open, stack);
    if |stack| > 1 {
      LinkedAlong(t, nodes, stack);
      Pop(t, stack);
      ShapedAlong(t, h, thin, stack[..|stack| - 1]);
    }
  }

  lemma {:induction false} GraftSelf(t: Tree, stack: seq<Ref>)
    requires Along(t, stack)
    ensures Graft(t, stack, SubAt(t, stack)) == t
    decreases |stack|
  {
    if |stack| > 1 {
      GraftSelf(t.kids[stack[0].index], stack[1..]);
    }
  }

  /** A node that is a leaf or has two children need not be counted as thin. */
  lemma NotThin(t: Tree, h: nat, stack: seq<Ref>)
    requires Along(t, stack) && Shaped(t, h, {SubAt(t, stack).id})
    requires SubAt(t, stack).Branch? ==> |SubAt(t, stack).kids| >= 2
    ensures Shaped(t, h, {})
  {
    hide Ids, Apart;
    var sub := SubAt(t, stack);
    ShapedAlong(t, h, {sub.id}, stack);
    if sub.Branch? {
      forall j | 0 <= j < |sub.kids| ensures Shaped(sub.kids[j], h - |stack|, {}) {
        KidOf(sub, j);
        KidShaped(sub, h + 1 - |stack|, {sub.id}, {}, j);
      }
    }
    IdIn(sub);
    GraftShape(t, stack, sub, h, {sub.id}, {});
    GraftSelf(t, stack);
  }

  /** Setting the unbalanced flag of a node changes nothing else. */
  lemma Flagged(pages: map<nat, Data>, nodes: map<nat, Node>, t: Tree, h: nat, thin: set<nat>, id: nat, flag: bool)
    requires StoredBut(pages, nodes, t, h, thin) && id in nodes
    ensures StoredBut(pages, nodes[id := nodes[id].(unbalanced := flag)], t, h, thin)
  {
    hide Shaped, Ordered, Ids;
    var nodes' := nodes[id := nodes[id].(unbalanced := flag)];
    HoldsFrame(pages, nodes, nodes', t);
    SameTagsLinked(nodes, nodes', t);
  }

  /** A sibling may be brought into memory: its parent is. */
  lemma SiblingBrought(pages: map<nat, Data>, nodes: map<nat, Node>, t: Tree, h: nat, thin: set<nat>, ps: seq<Ref>, j: nat)
    requires StoredBut(pages, nodes, t, h, thin) && Along(t, ps) && SubAt(t, ps).Branch? && j < |SubAt(t, ps).kids|
    requires Top(ps).id in nodes
    ensures var kid := SubAt(t, ps).kids[j];
      && Held(pages, nodes, kid.id)
      && StoredBut(pages, Brought(pages, nodes, kid.id, Under(Top(ps).id)), t, h, thin)
      && j < |nodes[Top(ps).id].inodes| && nodes[Top(ps).id].inodes[j].pgid == kid.id
  {
    hide StoredBut;
    var s := ps[|ps| - 1 := Top(ps).(index := j)];
    Retop(t, ps, j);
    var ref := Ref(SubAt(t, ps).kids[j].id, 0);
    Push(t, s, ref);
    ChildBrought(pages, nodes, t, h, thin, s + [ref], |ps|);
  }

  lemma RemoveAt(s: seq<Inode>, i: nat)
    requires Sorted(s) && i < |s|
    ensures LowerBound(s, s[i].key) == i && Hit(s, s[i].key) && Remove(s, s[i].key) == Without(s, i)
  {
    hide Less, LowerBound;
    TotalOrder();
    LowerBoundIs(s, s[i].key, i);
  }

  // ---------- rebalance ----------

  /** If a branch root has one child left, take over the child's contents. */
  method CollapseRoot(b: Bucket, id: nat)
    requires Loose(b, {id}) && id == b.root && id in b.nodes && b.tree.Branch? && |b.tree.kids| == 1
    modifies b
    ensures Loose(b, {}) && Flatten(b.tree) == old(Flatten(b.tree)) && AllPages(b) == old(AllPages(b)) && b.root == old(b.root)
    ensures b.freed > old(b.freed) && NoNewMarks(old(b.nodes), b.nodes, id)
    ensures id in b.nodes ==> b.nodes[id].unbalanced == old(b.nodes)[id].unbalanced
    ensures b.tree == Raised(old(b.tree)) && b.freed == old(b.freed) + {old(b.tree).kids[0].id}
  {
    hide StoredBut, Flatten, Ids, CollapsedNodes, PgidSet, Sorted;
    ghost var t, before := b.tree, b.nodes;
    PlaceOf(b.pages, b.nodes, t, b.height, {id}, [Ref(id, 0)]);
    SiblingBrought(b.pages, b.nodes, t, b.height, {id}, [Ref(id, 0)], 0);
    var child := b.nodes[id].inodes[0].pgid;
    b.Materialize(child, Under(id));
    ghost var nodes := b.nodes;
    PlaceOf(b.pages, nodes, t, b.height, {id}, [Ref(id, 0), Ref(child, 0)]);
    var c := b.nodes[child];
    b.nodes := b.nodes[id := b.nodes[id].(isLeaf := c.isLeaf, inodes := c.inodes)];
    Reparent(b, c.inodes, id);
    b.nodes := b.nodes - {child};
    CollapseNodes(b.pages, nodes, b.nodes, t, b.height);
    CollapseStored(b.pages, nodes, b.nodes, t, b.height);
    Free(b, child);
    b.tree, b.height := Raised(t), b.height - 1;
  }

  lemma CollapseNodes(pages: map<nat, Data>, nodes: map<nat, Node>, nodes': map<nat, Node>, t: Tree, h: nat)
    requires StoredBut(pages, nodes, t, h, {t.id}) && t.id in nodes && t.Branch? && |t.kids| == 1 && t.kids[0].id in nodes
    requires nodes'.Keys == nodes.Keys - {t.kids[0].id}
    requires var n := nodes[t.id].(isLeaf := nodes[t.kids[0].id].isLeaf, inodes := nodes[t.kids[0].id].inodes);
      forall x :: x in nodes' ==>
        var y := if x == t.id then n else nodes[x];
        nodes'[x] == if x in PgidSet(nodes[t.kids[0].id].inodes) then y.(parent := Under(t.id)) else y
    ensures CollapsedNodes(nodes, nodes', t)
  {
    hide Ids, Apart, Ordered;
    var c := t.kids[0];
    KidOf(t, 0);
    IdIn(c);
    PgidKids(pages, nodes, c, h - 1, {t.id});
    KidSetIds(c);
    IdIn(t);
  }

  /** Among the nodes, the children a page's elements name are those of the subtree. */
  lemma PgidKids(pages: map<nat, Data>, nodes: map<nat, Node>, c: Tree, h: nat, thin: set<nat>)
    requires Shaped(c, h, thin) && Holds(pages, nodes, c) && c.id in nodes
    ensures nodes[c.id].inodes == c.inodes && nodes[c.id].isLeaf == c.Leaf?
    ensures forall x :: x in PgidSet(c.inodes) <==> x in KidSet(c) || (c.Leaf? && c.inodes != [] && x == 0)
  {
    hide Ids, Apart;
    forall x ensures x in PgidSet(c.inodes) <==> x in KidSet(c) || (c.Leaf? && c.inodes != [] && x == 0) {
      if c.Leaf? && c.inodes != [] && x == 0 {
        assert c.inodes[0].pgid == 0;
      }
      if c.Branch? && x in KidSet(c) {
        var j :| 0 <= j < |c.kids| && c.kids[j].id == x;
        assert c.inodes[j].pgid == x;
      }
    }
  }

  /** The parent is left to be looked at next: it lost a child and may be down to one. */
  ghost predicate Pending(b: Bucket, p: nat, ps: seq<Ref>)
    reads b
  {
    && Loose(b, {p}) && Along(b.tree, ps) && Top(ps).id == p
    && p in b.nodes && b.nodes[p].unbalanced
  }

  /** The tree with child i of the branch at the top of the stack dropped, or joined by the next child. */
  ghost function DroppedAt(t: Tree, ps: seq<Ref>, i: nat): Tree {
    if Along(t, ps) && SubAt(t, ps).Branch? && |SubAt(t, ps).inodes| == |SubAt(t, ps).kids| && i < |SubAt(t, ps).kids|
    then Graft(t, ps, DropKid(SubAt(t, ps), i)) else t
  }

  ghost predicate Joinable(p: Tree, i: nat) {
    p.Branch? && |p.inodes| == |p.kids| && i + 1 < |p.kids| && (p.kids[i].Leaf? <==> p.kids[i + 1].Leaf?)
  }

  ghost function JoinedAt(t: Tree, ps: seq<Ref>, i: nat): Tree {
    if Along(t, ps) && Joinable(SubAt(t, ps), i) then Graft(t, ps, JoinKids(SubAt(t, ps), i)) else t
  }

  /** Remove a node without elements from its parent. */
  method RemoveEmpty(b: Bucket, id: nat, p: nat, ghost stack: seq<Ref>)
    requires Loose(b, {}) && Along(b.tree, stack) && |stack| > 1 && Top(stack).id == id
    requires id in b.nodes && b.nodes[id].inodes == [] && b.nodes[id].parent == Under(p)
    modifies b
    ensures Pending(b, p, stack[..|stack| - 1])
    ensures Flatten(b.tree) == old(Flatten(b.tree)) && AllPages(b) == old(AllPages(b)) && b.root == old(b.root)
    ensures b.freed == old(b.freed) + {id} > old(b.freed) && NoNewMarks(old(b.nodes), b.nodes, p)
    ensures b.tree == DroppedAt(old(b.tree), stack[..|stack| - 1], stack[|stack| - 2].index)
  {
    hide StoredBut, Flatten, Ids, DroppedNodes, Deleted, Linked;
    ghost var t, nodes, ps := b.tree, b.nodes, stack[..|stack| - 1];
    PlaceOf(b.pages, nodes, t, b.height, {}, stack);
    PlaceOf(b.pages, nodes, t, b.height, {}, ps);
    b.DeleteElement(p, b.nodes[id].key);
    b.nodes := b.nodes - {id};
    Free(b, id);
    ghost var i := Top(ps).index;
    DropNodes(b.pages, nodes, b.nodes, t, b.height, ps);
    DropStored(b.pages, nodes, b.nodes, t, b.height, ps, i);
    NotZero(b.pages, nodes, t, b.height, {}, id);
    b.tree := Graft(t, ps, DropKid(SubAt(t, ps), i));
  }

  lemma NotZero(pages: map<nat, Data>, nodes: map<nat, Node>, t: Tree, h: nat, thin: set<nat>, id: nat)
    requires StoredBut(pages, nodes, t, h, thin) && t.Branch? && id in nodes
    ensures id != 0
  {
  }

  lemma DropNodes(pages: map<nat, Data>, nodes: map<nat, Node>, nodes': map<nat, Node>, t: Tree, h: nat, ps: seq<Ref>)
    requires StoredBut(pages, nodes, t, h, {}) && Along(t, ps) && SubAt(t, ps).Branch? && Top(ps).id in nodes
    requires Top(ps).index < |SubAt(t, ps).kids| == |SubAt(t, ps).inodes|
    requires nodes' == nodes[Top(ps).id := Deleted(nodes[Top(ps).id], SubAt(t, ps).inodes[Top(ps).index].key)] - {SubAt(t, ps).kids[Top(ps).index].id}
    ensures DroppedNodes(nodes, nodes', SubAt(t, ps), Top(ps).index) && nodes'[SubAt(t, ps).id].unbalanced
  {
    hide StoredBut, Along, SubAt, Remove, Hit, Without;
    DropPlace(pages, nodes, t, h, ps);
  }

  /** The branch that loses a child: what its node shows, and that the child is another page. */
  lemma DropPlace(pages: map<nat, Data>, nodes: map<nat, Node>, t: Tree, h: nat, ps: seq<Ref>)
    requires StoredBut(pages, nodes, t, h, {}) && Along(t, ps) && SubAt(t, ps).Branch? && Top(ps).id in nodes
    requires Top(ps).index < |SubAt(t, ps).kids| == |SubAt(t, ps).inodes|
    ensures var p, i := SubAt(t, ps), Top(ps).index;
      && p.id == Top(ps).id != p.kids[i].id && nodes[p.id].inodes == p.inodes
      && Hit(p.inodes, p.inodes[i].key) && Remove(p.inodes, p.inodes[i].key) == Without(p.inodes, i)
  {
    hide Ids, Apart, Linked, Holds, Ordered, Remove, Hit, Without, LowerBound;
    var p := SubAt(t, ps);
    PlaceOf(pages, nodes, t, h, {}, ps);
    RemoveAt(p.inodes, Top(ps).index);
    ShapedAlong(t, h, {}, ps);
    KidOf(p, Top(ps).index);
    IdIn(p.kids[Top(ps).index]);
  }

  /** Move the right sibling's elements and children into the left one, and drop the right one. */
  method MergeInto(b: Bucket, p: nat, l: nat, r: nat, ghost thin: set<nat>, ghost ps: seq<Ref>, ghost i: nat)
    requires Loose(b, thin) && thin <= {l, r} && Along(b.tree, ps) && SubAt(b.tree, ps).Branch? && Top(ps).id == p
    requires i + 1 < |SubAt(b.tree, ps).kids| && SubAt(b.tree, ps).kids[i].id == l && SubAt(b.tree, ps).kids[i + 1].id == r
    requires p in b.nodes && l in b.nodes && r in b.nodes
    modifies b
    ensures Pending(b, p, ps)
    ensures Flatten(b.tree) == old(Flatten(b.tree)) && AllPages(b) == old(AllPages(b)) && b.root == old(b.root)
    ensures b.freed == old(b.freed) + {r} > old(b.freed) && NoNewMarks(old(b.nodes), b.nodes, p)
    ensures b.tree == JoinedAt(old(b.tree), ps, i)
  {
    hide StoredBut, Flatten, Ids, JoinedNodes, Deleted, Linked, PgidSet, KidSet, Graft, JoinKids, Hit, Remove, NoNewMarks, Along, SubAt;
    ghost var t, nodes := b.tree, b.nodes;
    PlaceOf(b.pages, nodes, t, b.height, thin, ps);
    SiblingPlace(b.pages, nodes, t, b.height, thin, ps, i);
    SiblingPlace(b.pages, nodes, t, b.height, thin, ps, i + 1);
    SiblingIds(b.pages, nodes, t, b.height, thin, ps, i);
    var left, right := b.nodes[l], b.nodes[r];
    Reparent(b, right.inodes, l);
    ghost var moved := b.nodes;
    b.nodes := b.nodes[l := b.nodes[l].(inodes := left.inodes + right.inodes)];
    OtherNode(b.pages, nodes, t, b.height, thin, ps, i, moved);
    b.DeleteElement(p, right.key);
    b.nodes := b.nodes - {r};
    MergeMarks(nodes, moved, b.nodes, l, p, left.inodes + right.inodes, right.key, r);
    Free(b, r);
    MergeStored(b.pages, nodes, moved, b.nodes, t, b.height, thin, ps, i);
    b.tree := Graft(t, ps, JoinKids(SubAt(t, ps), i));
  }

  lemma MergeMarks(nodes: map<nat, Node>, moved: map<nat, Node>, nodes': map<nat, Node>, l: nat, p: nat, inodes: seq<Inode>, key: Bytes, r: nat)
    requires moved.Keys == nodes.Keys && l in moved && p in moved && forall x :: x in moved ==> moved[x].unbalanced == nodes[x].unbalanced
    requires var joined := moved[l := moved[l].(inodes := inodes)]; nodes' == joined[p := Deleted(joined[p], key)] - {r}
    ensures NoNewMarks(nodes, nodes', p)
  {
    hide Deleted;
  }

  lemma MergeStored(pages: map<nat, Data>, nodes: map<nat, Node>, moved: map<nat, Node>, nodes': map<nat, Node>, t: Tree, h: nat, thin: set<nat>,
                    ps: seq<Ref>, i: nat)
    requires StoredBut(pages, nodes, t, h, thin) && Along(t, ps) && SubAt(t, ps).Branch? && i + 1 < |SubAt(t, ps).kids|
    requires |SubAt(t, ps).kids| == |SubAt(t, ps).inodes| && thin <= {SubAt(t, ps).kids[i].id, SubAt(t, ps).kids[i + 1].id}
    requires var p := SubAt(t, ps); p.id in nodes && p.kids[i].id in nodes && p.kids[i + 1].id in nodes
    requires moved.Keys == nodes.Keys
    requires var r := SubAt(t, ps).kids[i + 1];
      forall x :: x in moved ==>
        moved[x] == if x in PgidSet(r.inodes) then nodes[x].(parent := Under(SubAt(t, ps).kids[i].id)) else nodes[x]
    requires var p := SubAt(t, ps);
      var l, r := p.kids[i], p.kids[i + 1];
      && p.id != l.id
      && nodes' == moved[l.id := moved[l.id].(inodes := l.inodes + r.inodes)][p.id := Deleted(moved[p.id], p.inodes[i + 1].key)] - {r.id}
    ensures var p := SubAt(t, ps);
      var r := p.kids[i + 1].id;
      && (p.kids[i].Leaf? <==> p.kids[i + 1].Leaf?)
      && var t' := Graft(t, ps, JoinKids(p, i));
      && StoredBut(pages, nodes', t', h, {p.id}) && t'.id == t.id && Along(t', ps)
      && Flatten(t') == Flatten(t) && Ids(t') == Ids(t) - {r} && r in Ids(t) && r != 0
      && p.id in nodes' && nodes'[p.id].unbalanced
  {
    hide StoredBut, Ids, JoinedNodes, Deleted, Linked;
    JoinNodes(pages, nodes, moved, nodes', t, h, thin, ps, i);
    JoinStored(pages, nodes, nodes', t, h, thin, ps, i);
    NotZero(pages, nodes, t, h, thin, SubAt(t, ps).kids[i + 1].id);
  }

  /** A child in memory: its elements, and its key in the parent. */
  lemma SiblingPlace(pages: map<nat, Data>, nodes: map<nat, Node>, t: Tree, h: nat, thin: set<nat>, ps: seq<Ref>, j: nat)
    requires StoredBut(pages, nodes, t, h, thin) && Along(t, ps) && SubAt(t, ps).Branch? && j < |SubAt(t, ps).kids|
    requires SubAt(t, ps).kids[j].id in nodes
    ensures j < |SubAt(t, ps).inodes|
    ensures var kid := SubAt(t, ps).kids[j];
      && nodes[kid.id].inodes == kid.inodes && nodes[kid.id].isLeaf == kid.Leaf?
      && nodes[kid.id].key == SubAt(t, ps).inodes[j].key
  {
    hide StoredBut;
    var s := ps[|ps| - 1 := Top(ps).(index := j)];
    Retop(t, ps, j);
    var ref := Ref(SubAt(t, ps).kids[j].id, 0);
    Push(t, s, ref);
    PlaceOf(pages, nodes, t, h, thin, s + [ref]);
    assert (s + [ref])[..|ps|] == s;
  }

  lemma SiblingIds(pages: map<nat, Data>, nodes: map<nat, Node>, t: Tree, h: nat, thin: set<nat>, ps: seq<Ref>, i: nat)
    requires StoredBut(pages, nodes, t, h, thin) && Along(t, ps) && SubAt(t, ps).Branch? && i + 1 < |SubAt(t, ps).kids|
    ensures var p := SubAt(t, ps);
      && p.kids[i].id != p.kids[i + 1].id && p.id != p.kids[i].id && p.id != p.kids[i + 1].id
      && p.id !in KidSet(p.kids[i + 1]) && p.kids[i].id !in KidSet(p.kids[i + 1]) && p.kids[i + 1].id !in KidSet(p.kids[i + 1])
      && t.Branch?
  {
    hide Ids, Apart, KidSet, Linked, Ordered;
    var p := SubAt(t, ps);
    ShapedAlong(t, h, thin, ps);
    KidsApart(p, i, i + 1);
    KidOf(p, i);
    KidOf(p, i + 1);
    IdIn(p.kids[i]);
    IdIn(p.kids[i + 1]);
    KidSetIds(p.kids[i + 1]);
    KidOrRoot(t, ps);
  }

  /** Moving the right sibling's children leaves the elements of the parent alone. */
  lemma OtherNode(pages: map<nat, Data>, nodes: map<nat, Node>, t: Tree, h: nat, thin: set<nat>, ps: seq<Ref>, i: nat, moved: map<nat, Node>)
    requires StoredBut(pages, nodes, t, h, thin) && Along(t, ps) && SubAt(t, ps).Branch? && i + 1 < |SubAt(t, ps).kids|
    requires Top(ps).id in nodes && moved.Keys == nodes.Keys
    requires forall x :: x in moved ==> moved[x].inodes == nodes[x].inodes
    ensures Sorted(moved[Top(ps).id].inodes)
  {
    PlaceOf(pages, nodes, t, h, thin, ps);
  }

  lemma JoinNodes(pages: map<nat, Data>, nodes: map<nat, Node>, moved: map<nat, Node>, nodes': map<nat, Node>, t: Tree, h: nat, thin: set<nat>,
                  ps: seq<Ref>, i: nat)
    requires StoredBut(pages, nodes, t, h, thin) && Along(t, ps) && SubAt(t, ps).Branch? && i + 1 < |SubAt(t, ps).kids|
    requires |SubAt(t, ps).kids| == |SubAt(t, ps).inodes|
    requires var p := SubAt(t, ps); p.id in nodes && p.kids[i].id in nodes && p.kids[i + 1].id in nodes
    requires moved.Keys == nodes.Keys
    requires var r := SubAt(t, ps).kids[i + 1];
      forall x :: x in moved ==>
        moved[x] == if x in PgidSet(r.inodes) then nodes[x].(parent := Under(SubAt(t, ps).kids[i].id)) else nodes[x]
    requires var p := SubAt(t, ps);
      var l, r := p.kids[i], p.kids[i + 1];
      && p.id != l.id
      && nodes' == moved[l.id := moved[l.id].(inodes := l.inodes + r.inodes)][p.id := Deleted(moved[p.id], p.inodes[i + 1].key)] - {r.id}
    ensures JoinedNodes(nodes, nodes', SubAt(t, ps), i)
    ensures SubAt(t, ps).id in nodes' && nodes'[SubAt(t, ps).id].unbalanced
  {
    hide Ids, Apart, Linked, Ordered, PgidSet, KidSet, JoinedNodes, StoredBut;
    var p := SubAt(t, ps);
    TopId(t, ps);
    PlaceOf(pages, nodes, t, h, thin, ps);
    RemoveAt(p.inodes, i + 1);
    SiblingIds(pages, nodes, t, h, thin, ps, i);
    SiblingPgids(pages, nodes, t, h, thin, ps, i + 1);
    JoinMaps(nodes, moved, nodes', p, i);
  }

  lemma SiblingPgids(pages: map<nat, Data>, nodes: map<nat, Node>, t: Tree, h: nat, thin: set<nat>, ps: seq<Ref>, j: nat)
    requires StoredBut(pages, nodes, t, h, thin) && Along(t, ps) && SubAt(t, ps).Branch? && j < |SubAt(t, ps).kids|
    requires SubAt(t, ps).kids[j].id in nodes
    ensures var r := SubAt(t, ps).kids[j]; forall x :: x in nodes ==> (x in PgidSet(r.inodes) <==> x in KidSet(r))
  {
    hide Ids, Apart, Linked, Ordered, PgidSet, KidSet;
    ShapedAlong(t, h, thin, ps);
    HoldsAlong(pages, nodes, t, ps);
    PgidKids(pages, nodes, SubAt(t, ps).kids[j], h - |ps|, thin);
    KidOrRoot(t, ps);
    ZeroFree(pages, nodes, t, h, thin);
  }

  lemma JoinMaps(nodes: map<nat, Node>, moved: map<nat, Node>, nodes': map<nat, Node>, p: Tree, i: nat)
    requires p.Branch? && i + 1 < |p.kids| == |p.inodes|
    requires p.id in nodes && p.kids[i].id in nodes && p.kids[i + 1].id in nodes && moved.Keys == nodes.Keys
    requires p.id != p.kids[i].id && p.id != p.kids[i + 1].id && p.kids[i].id != p.kids[i + 1].id
    requires p.id !in KidSet(p.kids[i + 1]) && p.kids[i].id !in KidSet(p.kids[i + 1])
    requires nodes[p.id].inodes == p.inodes && Remove(p.inodes, p.inodes[i + 1].key) == Without(p.inodes, i + 1)
    requires Hit(p.inodes, p.inodes[i + 1].key)
    requires var r := p.kids[i + 1];
      && (forall x :: x in nodes ==> (x in PgidSet(r.inodes) <==> x in KidSet(r)))
      && forall x :: x in moved ==>
           moved[x] == if x in PgidSet(r.inodes) then nodes[x].(parent := Under(p.kids[i].id)) else nodes[x]
    requires var l, r := p.kids[i], p.kids[i + 1];
      nodes' == moved[l.id := moved[l.id].(inodes := l.inodes + r.inodes)][p.id := Deleted(moved[p.id], p.inodes[i + 1].key)] - {r.id}
    ensures JoinedNodes(nodes, nodes', p, i) && nodes'[p.id].unbalanced
  {
    hide PgidSet, KidSet, Remove, Hit;
  }

  lemma ZeroFree(pages: map<nat, Data>, nodes: map<nat, Node>, t: Tree, h: nat, thin: set<nat>)
    requires StoredBut(pages, nodes, t, h, thin) && t.Branch?
    ensures 0 !in nodes
  {
  }

  /** Merge a node with its next sibling if it is the first child, else with its previous one. */
  method MergeWithSibling(b: Bucket, id: nat, p: nat, ghost stack: seq<Ref>)
    requires Loose(b, {id}) && Along(b.tree, stack) && |stack| > 1 && Top(stack).id == id
    requires id in b.nodes && b.nodes[id].parent == Under(p)
    modifies b
    ensures Pending(b, p, stack[..|stack| - 1])
    ensures Flatten(b.tree) == old(Flatten(b.tree)) && AllPages(b) == old(AllPages(b)) && b.root == old(b.root)
    ensures b.freed > old(b.freed) && NoNewMarks(old(b.nodes), b.nodes, p)
    ensures b.tree == JoinedAt(old(b.tree), stack[..|stack| - 1], if stack[|stack| - 2].index == 0 then 0 else stack[|stack| - 2].index - 1)
  {
    hide StoredBut, Flatten, Ids, Linked, Less, LowerBound;
    ghost var ps := stack[..|stack| - 1];
    PlaceOf(b.pages, b.nodes, b.tree, b.height, {id}, stack);
    PlaceOf(b.pages, b.nodes, b.tree, b.height, {id}, ps);
    WideParent(b.pages, b.nodes, b.tree, b.height, stack);
    RemoveAt(b.nodes[p].inodes, Top(ps).index);
    var index, _ := SortSearch(b.nodes[p].inodes, b.nodes[id].key);
    var sibling := if index == 0 then 1 else index - 1;
    SiblingBrought(b.pages, b.nodes, b.tree, b.height, {id}, ps, sibling);
    var target := b.nodes[p].inodes[sibling].pgid;
    b.Materialize(target, Under(p));
    if index == 0 {
      MergeInto(b, p, id, target, {id}, ps, 0);
    } else {
      MergeInto(b, p, target, id, {id}, ps, index - 1);
    }
  }

  /** The parent of a node being rebalanced has at least two children. */
  lemma WideParent(pages: map<nat, Data>, nodes: map<nat, Node>, t: Tree, h: nat, stack: seq<Ref>)
    requires Along(t, stack) && |stack| > 1 && StoredBut(pages, nodes, t, h, {Top(stack).id})
    ensures var up := stack[..|stack| - 1];
      Along(t, up) && SubAt(t, up).Branch? && |SubAt(t, up).kids| >= 2
  {
    hide Ids, Linked, Ordered, Apart;
    var up := stack[..|stack| - 1];
    Pop(t, stack);
    ShapedAlong(t, h, {Top(stack).id}, up);
    KidOf(SubAt(t, up), Top(up).index);
    IdIn(SubAt(t, up).kids[Top(up).index]);
  }

  /**
   * rebalance: a node that has become too small is removed, merged with a sibling or, at the root, replaced by its
   * only child; then its parent is looked at. Contents, order and pages in use stay what they were, and every
   * branch ends up with at least two children.
   */
  method Rebalance(b: Bucket, id: nat, ghost stack: seq<Ref>)
    requires Loose(b, {id}) && Along(b.tree, stack) && Top(stack).id == id && id in b.nodes
    requires b.nodes[id].unbalanced || Loose(b, {})
    modifies b
    ensures Loose(b, {}) && Flatten(b.tree) == old(Flatten(b.tree)) && AllPages(b) == old(AllPages(b)) && b.root == old(b.root)
    ensures if TooSmall(old(b.nodes)[id], b.pageSize) then b.freed > old(b.freed) else b.tree == old(b.tree) && b.freed == old(b.freed)
    ensures NoNewMarks(old(b.nodes), b.nodes, id) && (id in b.nodes ==> !b.nodes[id].unbalanced)
    ensures b.freed > old(b.freed) <==>
      (old(b.nodes)[id].unbalanced
       && if old(b.nodes)[id].parent == Root then !old(b.nodes)[id].isLeaf && |old(b.nodes)[id].inodes| == 1
          else |old(b.nodes)[id].inodes| < 2 || (!old(b.nodes)[id].isLeaf && |old(b.nodes)[id].inodes| == 2) || 4 * Size(old(b.nodes)[id].inodes) < b.pageSize + 4 - b.pageSize % 4)
    ensures old(b.nodes)[id].inodes == [] && old(b.nodes)[id].unbalanced && old(b.nodes)[id].parent != Root ==> id in b.freed
    decreases |stack|
  {
    hide StoredBut, Flatten, Ids, Size, Ordered, Linked;
    if !b.nodes[id].unbalanced {
      return;
    }
    Flagged(b.pages, b.nodes, b.tree, b.height, {id}, id, false);
    b.nodes := b.nodes[id := b.nodes[id].(unbalanced := false)];
    PlaceOf(b.pages, b.nodes, b.tree, b.height, {id}, stack);
    ghost var sub := SubAt(b.tree, stack);
    NotThinStored(b.pages, b.nodes, b.tree, b.height, stack);
    var n := b.nodes[id];
    if Size(n.inodes) > b.pageSize / 4 && |n.inodes| > MinKeys(n) {
      return;
    }
    if n.parent == Root {
      if !n.isLeaf && |n.inodes| == 1 {
        CollapseRoot(b, id);
      }
      return;
    }
    var p := n.parent.id;
    if |n.inodes| == 0 {
      RemoveEmpty(b, id, p, stack);
    } else {
      MergeWithSibling(b, id, p, stack);
    }
    Rebalance(b, p, stack[..|stack| - 1]);
  }

  lemma NotThinStored(pages: map<nat, Data>, nodes: map<nat, Node>, t: Tree, h: nat, stack: seq<Ref>)
    requires Along(t, stack) && StoredBut(pages, nodes, t, h, {SubAt(t, stack).id})
    ensures SubAt(t, stack).Leaf? || |SubAt(t, stack).kids| >= 2 ==> StoredBut(pages, nodes, t, h, {})
  {
    if SubAt(t, stack).Leaf? || |SubAt(t, stack).kids| >= 2 {
      NotThin(t, h, stack);
    }
  }

  /** The way to a node of the tree. */
  ghost function PathOf(t: Tree, id: nat): (stack: seq<Ref>)
    requires id in Ids(t)
    ensures Along(t, stack) && SubAt(t, stack).id == id && Top(stack).id == id
    decreases t
  {
    if t.id == id then [Ref(id, 0)]
    else
      var i :| 0 <= i < |t.kids| && id in Ids(t.kids[i]);
      var rest := PathOf(t.kids[i], id);
      var stack := [Ref(t.id, i)] + rest;
      assert stack[1..] == rest;
      stack
  }

  /** Bucket.rebalance: every node, in whatever order the map of nodes yields them. */
  method RebalanceAll(b: Bucket, order: seq<nat>)
    requires Loose(b, {})
    modifies b
    ensures Loose(b, {}) && b.Valid() && b.Contents() == old(b.Contents())
    ensures Flatten(b.tree) == old(Flatten(b.tree)) && AllPages(b) == old(AllPages(b)) && b.root == old(b.root)
    ensures (forall x :: x in old(b.nodes) ==> x in order) ==> forall x :: x in b.nodes ==> !b.nodes[x].unbalanced
  {
    hide Flatten, Ids, Ordered, Linked, Holds;
    var i := 0;
    while i < |order|
      invariant Loose(b, {})
      invariant Flatten(b.tree) == old(Flatten(b.tree)) && AllPages(b) == old(AllPages(b)) && b.root == old(b.root)
      invariant 0 <= i <= |order|
      invariant forall x :: x in b.nodes && b.nodes[x].unbalanced ==> x in old(b.nodes) && x !in order[..i]
    {
      if order[i] in b.nodes {
        ghost var path := PathOf(b.tree, order[i]);
        Loosened(b, order[i]);
        Rebalance(b, order[i], path);
      }
      i := i + 1;
    }
  }

  lemma Loosened(b: Bucket, id: nat)
    requires Loose(b, {})
    ensures Loose(b, {id})
  {
    ShapedThin(b.tree, b.height, {}, {id});
  }
}
