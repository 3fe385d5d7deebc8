/** Removing and merging children of a branch: contents, order and page use stay what they were. */
module Siblings {
  import opened Keys
  import opened Trees
  import opened Paths
  import opened Shapes

  function Without<T>(s: seq<T>, i: nat): seq<T>
    requires i < |s|
  {
    s[..i] + s[i + 1..]
  }

  /** Two siblings as one, under the left one's id. */
  ghost function Joined(l: Tree, r: Tree): Tree
    requires l.Leaf? <==> r.Leaf?
  {
    if l.Leaf? then Leaf(l.id, l.inodes + r.inodes) else Branch(l.id, l.inodes + r.inodes, l.kids + r.kids)
  }

  ghost function DropKid(p: Tree, i: nat): Tree
    requires p.Branch? && |p.inodes| == |p.kids| && i < |p.kids|
  {
    Branch(p.id, Without(p.inodes, i), Without(p.kids, i))
  }

  /** Child i takes over the contents of child i + 1. */
  ghost function JoinKids(p: Tree, i: nat): Tree
    requires p.Branch? && |p.inodes| == |p.kids| && i + 1 < |p.kids|
    requires p.kids[i].Leaf? <==> p.kids[i + 1].Leaf?
  {
    Branch(p.id, Without(p.inodes, i + 1), Without(p.kids[i := Joined(p.kids[i], p.kids[i + 1])], i + 1))
  }

  // ---------- contents ----------

  lemma DropFlatten(p: Tree, i: nat)
    requires p.Branch? && |p.inodes| == |p.kids| && i < |p.kids| && Flatten(p.kids[i]) == []
    ensures Flatten(DropKid(p, i)) == Flatten(p)
  {
    FlattenAround(p.kids, i);
    FlattenConcat(p.kids[..i], p.kids[i + 1..]);
  }

  lemma JoinedFlatten(l: Tree, r: Tree)
    requires l.Leaf? <==> r.Leaf?
    ensures Flatten(Joined(l, r)) == Flatten(l) + Flatten(r)
  {
    if l.Branch? {
      FlattenConcat(l.kids, r.kids);
    }
  }

  lemma JoinFlatten(p: Tree, i: nat)
    requires p.Branch? && |p.inodes| == |p.kids| && i + 1 < |p.kids| && (p.kids[i].Leaf? <==> p.kids[i + 1].Leaf?)
    ensures Flatten(JoinKids(p, i)) == Flatten(p)
  {
    hide FlattenAll;
    var l, r := p.kids[i], p.kids[i + 1];
    var u := JoinKids(p, i);
    JoinedFlatten(l, r);
    FlattenAround(u.kids, i);
    assert u.kids[..i] == p.kids[..i] && u.kids[i + 1..] == p.kids[i + 2..];
    FlattenAround(p.kids, i);
    FlattenAround(p.kids[i + 1..], 0);
    assert p.kids[i + 1..][..0] == [] && p.kids[i + 1..][1..] == p.kids[i + 2..];
    NoTrees();
    Middle(FlattenAll(p.kids[..i]), Flatten(l), Flatten(r), FlattenAll(p.kids[i + 2..]));
  }

  lemma NoTrees()
    ensures FlattenAll([]) == []
  {
  }

  lemma Middle<T>(a: seq<T>, l: seq<T>, r: seq<T>, b: seq<T>)
    ensures a + (l + r) + b == a + l + ([] + r + b)
  {
  }

  // ---------- order ----------

  /** The first bound admits all the second does. */
  ghost predicate WeakerLo(lo: Bound, lo': Bound) {
    lo'.At? ==> lo.At? && !Less(lo.key, lo'.key)
  }

  ghost predicate WeakerHi(hi: Bound, hi': Bound) {
    hi'.At? ==> hi.At? && !Less(hi'.key, hi.key)
  }

  lemma WithinWider(s: seq<Inode>, lo: Bound, hi: Bound, lo': Bound, hi': Bound)
    requires Within(s, lo, hi) && WeakerLo(lo, lo') && WeakerHi(hi, hi')
    ensures Within(s, lo', hi')
  {
    hide Less;
    TotalOrder();
  }

  lemma {:induction false} OrderedWider(t: Tree, lo: Bound, hi: Bound, lo': Bound, hi': Bound)
    requires Ordered(t, lo, hi) && WeakerLo(lo, lo') && WeakerHi(hi, hi')
    ensures Ordered(t, lo', hi')
    decreases t
  {
    hide Less, Within, Sorted;
    TotalOrder();
    WithinWider(t.inodes, lo, hi, lo', hi');
    if t.Branch? {
      forall i | 0 <= i < |t.kids| ensures Ordered(t.kids[i], KidLo(t.inodes, lo', i), KidHi(t.inodes, hi', i)) {
        OrderedWider(t.kids[i], KidLo(t.inodes, lo, i), KidHi(t.inodes, hi, i), KidLo(t.inodes, lo', i), KidHi(t.inodes, hi', i));
      }
    }
  }

  lemma SortedWithout(s: seq<Inode>, i: nat, lo: Bound, hi: Bound)
    requires Sorted(s) && Within(s, lo, hi) && i < |s|
    ensures Sorted(Without(s, i)) && Within(Without(s, i), lo, hi)
  {
    hide Less;
  }

  lemma DropOrdered(p: Tree, i: nat, lo: Bound, hi: Bound)
    requires p.Branch? && |p.inodes| == |p.kids| >= 2 && i < |p.kids| && Ordered(p, lo, hi)
    ensures Ordered(DropKid(p, i), lo, hi)
  {
    hide Less, Within, Sorted;
    var u := DropKid(p, i);
    SortedWithout(p.inodes, i, lo, hi);
    forall j | 0 <= j < |u.kids| ensures Ordered(u.kids[j], KidLo(u.inodes, lo, j), KidHi(u.inodes, hi, j)) {
      var k := if j < i then j else j + 1;
      DropBounds(p, i, lo, hi, j);
      OrderedWider(p.kids[k], KidLo(p.inodes, lo, k), KidHi(p.inodes, hi, k), KidLo(u.inodes, lo, j), KidHi(u.inodes, hi, j));
    }
  }

  /** A child's bounds only widen when a neighbour goes. */
  lemma DropBounds(p: Tree, i: nat, lo: Bound, hi: Bound, j: nat)
    requires p.Branch? && |p.inodes| == |p.kids| && i < |p.kids| && Ordered(p, lo, hi) && j + 1 < |p.kids|
    ensures var u, k := DropKid(p, i), if j < i then j else j + 1;
      && u.kids[j] == p.kids[k]
      && WeakerLo(KidLo(p.inodes, lo, k), KidLo(u.inodes, lo, j)) && WeakerHi(KidHi(p.inodes, hi, k), KidHi(u.inodes, hi, j))
  {
    hide Less;
    TotalOrder();
  }

  lemma JoinedOrdered(l: Tree, r: Tree, lo: Bound, mid: Bytes, hi: Bound)
    requires (l.Leaf? <==> r.Leaf?) && Ordered(l, lo, At(mid)) && Ordered(r, At(mid), hi)
    requires AtLeast(mid, lo) && Below(mid, hi)
    ensures Ordered(Joined(l, r), lo, hi)
  {
    hide Less, Within, Sorted, AtLeast, Below;
    TotalOrder();
    SortedConcat(l.inodes, r.inodes, lo, mid, hi);
    if l.Branch? {
      var u, n := Joined(l, r), |l.kids|;
      forall j | 0 <= j < |u.kids| ensures Ordered(u.kids[j], KidLo(u.inodes, lo, j), KidHi(u.inodes, hi, j)) {
        if j < n {
          OrderedKid(l, lo, At(mid), j);
          FirstAbove(r, mid, hi);
          OrderedWider(l.kids[j], KidLo(l.inodes, lo, j), KidHi(l.inodes, At(mid), j), KidLo(u.inodes, lo, j), KidHi(u.inodes, hi, j));
        } else {
          OrderedKid(r, At(mid), hi, j - n);
        }
      }
    }
  }

  lemma FirstAbove(r: Tree, mid: Bytes, hi: Bound)
    requires Ordered(r, At(mid), hi) && r.Branch?
    ensures |r.inodes| > 0 && WeakerHi(At(mid), At(r.inodes[0].key))
  {
    assert AtLeast(r.inodes[0].key, At(mid));
  }

  lemma JoinOrdered(p: Tree, i: nat, lo: Bound, hi: Bound)
    requires p.Branch? && |p.inodes| == |p.kids| && i + 1 < |p.kids| && (p.kids[i].Leaf? <==> p.kids[i + 1].Leaf?)
    requires Ordered(p, lo, hi)
    ensures Ordered(JoinKids(p, i), lo, hi)
  {
    hide Less, Within, Sorted;
    var u, m := JoinKids(p, i), p.inodes[i + 1].key;
    SortedWithout(p.inodes, i + 1, lo, hi);
    forall j | 0 <= j < |u.kids| ensures Ordered(u.kids[j], KidLo(u.inodes, lo, j), KidHi(u.inodes, hi, j)) {
      if j == i {
        OrderedKid(p, lo, hi, i);
        OrderedKid(p, lo, hi, i + 1);
        JoinMid(p, i, lo, hi);
        JoinedOrdered(p.kids[i], p.kids[i + 1], KidLo(p.inodes, lo, i), m, KidHi(p.inodes, hi, i + 1));
      } else {
        OrderedKid(p, lo, hi, if j < i then j else j + 1);
      }
    }
  }

  lemma JoinMid(p: Tree, i: nat, lo: Bound, hi: Bound)
    requires p.Branch? && |p.inodes| == |p.kids| && i + 1 < |p.kids| && Ordered(p, lo, hi)
    ensures var m := p.inodes[i + 1].key;
      AtLeast(m, KidLo(p.inodes, lo, i)) && Below(m, KidHi(p.inodes, hi, i + 1))
  {
    hide Less;
    TotalOrder();
  }

  // ---------- pages ----------

  /** Which branches may be thin does not matter for a child that has none of them. */
  lemma KidShaped(t: Tree, h: nat, thin: set<nat>, thin': set<nat>, j: nat)
    requires Shaped(t, h, thin) && t.Branch? && j < |t.kids| && thin !! Ids(t.kids[j])
    ensures Shaped(t.kids[j], h - 1, thin')
  {
    hide Apart, Ids;
    ShapedThin(t.kids[j], h - 1, thin, thin');
  }

  lemma KidsApart(t: Tree, i: nat, j: nat)
    requires t.Branch? && Apart(t) && i < |t.kids| && j < |t.kids| && i != j
    ensures Ids(t.kids[i]) !! Ids(t.kids[j]) && t.id !in Ids(t.kids[i])
  {
  }

  lemma DropShape(p: Tree, i: nat, h: nat, thin: set<nat>)
    requires p.Branch? && Shaped(p, h, thin) && i < |p.kids| && thin <= Ids(p.kids[i])
    ensures Shaped(DropKid(p, i), h, {p.id}) && Ids(DropKid(p, i)) == Ids(p) - Ids(p.kids[i])
  {
    hide Ids, Apart;
    var u := DropKid(p, i);
    DropIds(p, i);
    KidOf(p, i);
    forall j | 0 <= j < |u.kids| ensures Shaped(u.kids[j], h - 1, {p.id}) {
      var k := if j < i then j else j + 1;
      KidsApart(p, i, k);
      KidShaped(p, h, thin, {p.id}, k);
    }
  }

  lemma DropIds(p: Tree, i: nat)
    requires p.Branch? && Apart(p) && |p.inodes| == |p.kids| && i < |p.kids|
    ensures Apart(DropKid(p, i)) && Ids(DropKid(p, i)) == Ids(p) - Ids(p.kids[i])
  {
    hide Ids, Apart, DropKid;
    var u := DropKid(p, i);
    DropApart(p, i);
    forall x | x in Ids(p) && x !in Ids(p.kids[i]) ensures x in Ids(u) {
      DropKeeps(p, i, x);
    }
    forall x | x in Ids(u) ensures x in Ids(p) && x !in Ids(p.kids[i]) {
      DropTakes(p, i, x);
    }
  }

  lemma DropKeeps(p: Tree, i: nat, x: nat)
    requires p.Branch? && |p.inodes| == |p.kids| && i < |p.kids| && x in Ids(p) && x !in Ids(p.kids[i])
    ensures x in Ids(DropKid(p, i))
  {
    hide Ids;
    IdIn(DropKid(p, i));
    if x != p.id {
      var k := KidWith(p, x);
      InKid(DropKid(p, i), if k < i then k else k - 1, x);
    }
  }

  lemma DropTakes(p: Tree, i: nat, x: nat)
    requires p.Branch? && Apart(p) && |p.inodes| == |p.kids| && i < |p.kids| && x in Ids(DropKid(p, i))
    ensures x in Ids(p) && x !in Ids(p.kids[i])
  {
    hide Ids, Apart;
    IdIn(p);
    KidOf(p, i);
    if x != p.id {
      var j := KidWith(DropKid(p, i), x);
      var k := if j < i then j else j + 1;
      KidsApart(p, i, k);
      InKid(p, k, x);
    }
  }

  lemma KidWith(t: Tree, x: nat) returns (k: nat)
    requires x in Ids(t) && x != t.id
    ensures t.Branch? && k < |t.kids| && x in Ids(t.kids[k])
  {
    k :| 0 <= k < |t.kids| && x in Ids(t.kids[k]);
  }

  lemma InKid(t: Tree, k: nat, x: nat)
    requires t.Branch? && k < |t.kids| && x in Ids(t.kids[k])
    ensures x in Ids(t)
  {
  }

  lemma DropApart(p: Tree, i: nat)
    requires p.Branch? && Apart(p) && |p.inodes| == |p.kids| && i < |p.kids|
    ensures Apart(DropKid(p, i))
  {
    hide Ids;
  }

  lemma JoinedIds(l: Tree, r: Tree)
    requires (l.Leaf? <==> r.Leaf?) && Apart(l) && Apart(r) && Ids(l) !! Ids(r)
    ensures Apart(Joined(l, r)) && Ids(Joined(l, r)) == Ids(l) + Ids(r) - {r.id}
  {
    hide Ids, Apart;
    var u := Joined(l, r);
    IdIn(l);
    IdIn(r);
    IdIn(u);
    JoinedApart(l, r);
    forall x ensures x in Ids(u) <==> x in Ids(l) + Ids(r) - {r.id} {
      if x in Ids(l) && x != l.id {
        var k := KidWith(l, x);
        InKid(u, k, x);
      }
      if x in Ids(r) && x != r.id {
        var k := KidWith(r, x);
        InKid(u, |l.kids| + k, x);
      }
      if x in Ids(u) && x != l.id {
        var k := KidWith(u, x);
        if k < |l.kids| {
          InKid(l, k, x);
        } else {
          KidOf(r, k - |l.kids|);
        }
      }
    }
  }

  lemma JoinedApart(l: Tree, r: Tree)
    requires (l.Leaf? <==> r.Leaf?) && Apart(l) && Apart(r) && Ids(l) !! Ids(r)
    ensures Apart(Joined(l, r))
  {
    hide Ids;
    if l.Branch? {
      KidIds(l);
      KidIds(r);
      IdIn(l);
    }
  }

  lemma JoinedShape(l: Tree, r: Tree, h: nat, thin: set<nat>, thin': set<nat>)
    requires Shaped(l, h, thin) && Shaped(r, h, thin) && Ids(l) !! Ids(r) && thin <= {l.id, r.id}
    ensures Shaped(Joined(l, r), h, thin')
  {
    hide Ids, Apart;
    JoinedIds(l, r);
    if l.Branch? {
      var u, n := Joined(l, r), |l.kids|;
      forall j | 0 <= j < |u.kids| ensures Shaped(u.kids[j], h - 1, thin') {
        if j < n {
          KidOf(l, j);
          IdIn(r);
          KidShaped(l, h, thin, thin', j);
        } else {
          KidOf(r, j - n);
          IdIn(l);
          KidShaped(r, h, thin, thin', j - n);
        }
      }
    }
  }

  lemma KidOf(t: Tree, j: nat)
    requires t.Branch? && Apart(t) && j < |t.kids|
    ensures Ids(t.kids[j]) <= Ids(t) - {t.id}
  {
  }

  /** A child replaced by one with more pages, none of them in the tree. */
  lemma GrowKid(p: Tree, i: nat, kid: Tree, gain: set<nat>)
    requires p.Branch? && Apart(p) && i < |p.kids| && Ids(kid) == Ids(p.kids[i]) + gain && gain !! Ids(p)
    ensures var u := p.(kids := p.kids[i := kid]); Apart(u) && Ids(u) == Ids(p) + gain
  {
    var u := p.(kids := p.kids[i := kid]);
    KidIds(p);
    IdIn(p);
    forall j, k | 0 <= j < k < |u.kids| ensures Ids(u.kids[j]) !! Ids(u.kids[k]) {
      assert Ids(p.kids[j]) !! Ids(p.kids[k]);
    }
    forall x ensures x in Ids(u) <==> x in Ids(p) + gain {
      if x in Ids(p) && x != p.id {
        var k :| 0 <= k < |p.kids| && x in Ids(p.kids[k]);
        assert x in Ids(u.kids[k]);
      }
      if x in gain {
        assert x in Ids(u.kids[i]);
      }
    }
  }

  lemma JoinIds(p: Tree, i: nat)
    requires p.Branch? && Apart(p) && |p.inodes| == |p.kids| && i + 1 < |p.kids|
    requires (p.kids[i].Leaf? <==> p.kids[i + 1].Leaf?) && Apart(p.kids[i]) && Apart(p.kids[i + 1])
    ensures Apart(JoinKids(p, i))
    ensures p.kids[i + 1].id in Ids(p) && Ids(JoinKids(p, i)) == Ids(p) - {p.kids[i + 1].id}
  {
    hide Ids, Apart, Joined;
    var l, r, d := p.kids[i], p.kids[i + 1], DropKid(p, i + 1);
    KidsApart(p, i, i + 1);
    JoinedIds(l, r);
    KidIds(p);
    IdIn(r);
    DropIds(p, i + 1);
    GrowKid(d, i, Joined(l, r), Ids(r) - {r.id});
    assert JoinKids(p, i).kids == d.kids[i := Joined(l, r)];
  }

  lemma JoinShape(p: Tree, i: nat, h: nat, thin: set<nat>)
    requires p.Branch? && Shaped(p, h, thin) && i + 1 < |p.kids| && thin <= {p.kids[i].id, p.kids[i + 1].id}
    requires p.kids[i].Leaf? <==> p.kids[i + 1].Leaf?
    ensures Shaped(JoinKids(p, i), h, {p.id})
    ensures p.kids[i + 1].id in Ids(p) && Ids(JoinKids(p, i)) == Ids(p) - {p.kids[i + 1].id}
  {
    hide Ids, Apart;
    var u, l, r := JoinKids(p, i), p.kids[i], p.kids[i + 1];
    IdIn(l);
    IdIn(r);
    KidsApart(p, i, i + 1);
    JoinedShape(l, r, h - 1, thin, {p.id});
    JoinIds(p, i);
    forall j | 0 <= j < |u.kids| ensures Shaped(u.kids[j], h - 1, {p.id}) {
      if j != i {
        var k := if j < i then j else j + 1;
        KidsApart(p, i, k);
        KidsApart(p, i + 1, k);
        KidShaped(p, h, thin, {p.id}, k);
      }
    }
  }
}
