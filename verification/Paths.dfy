/** Positions in a tree: the stack of a cursor, the path a search takes, and what lies before and after it. */
module Paths {
  import opened Keys
  import opened Trees

  // ---------- searching one page ----------

  /** The first position whose key is not below the given one; what sort.Search finds. */
  ghost function LowerBound(s: seq<Inode>, key: Bytes): (i: nat)
    ensures i <= |s|
    ensures forall j :: 0 <= j < i ==> Less(s[j].key, key)
    ensures i < |s| ==> !Less(s[i].key, key)
  {
    if s == [] || !Less(s[0].key, key) then 0 else 1 + LowerBound(s[1..], key)
  }

  /** In a sorted page everything from there on is at least the key. */
  lemma LowerBoundSplits(s: seq<Inode>, key: Bytes)
    requires Sorted(s)
    ensures forall j :: LowerBound(s, key) <= j < |s| ==> !Less(s[j].key, key)
  {
    hide Less;
    TotalOrder();
  }

  /** It is the only position of its kind. */
  lemma LowerBoundIs(s: seq<Inode>, key: Bytes, i: nat)
    requires Sorted(s) && i <= |s| && AllBelow(s[..i], key) && (i < |s| ==> !Less(s[i].key, key))
    ensures i == LowerBound(s, key)
  {
    hide Less;
    forall j | 0 <= j < i ensures Less(s[j].key, key) {
      assert s[..i][j] == s[j];
    }
  }

  ghost predicate Hit(s: seq<Inode>, key: Bytes) {
    LowerBound(s, key) < |s| && s[LowerBound(s, key)].key == key
  }

  /** The child a search descends into: an exact separator's own, else the one before, else the first. */
  ghost function Pick(s: seq<Inode>, key: Bytes): (i: nat)
    ensures |s| > 0 ==> i < |s|
  {
    var i := LowerBound(s, key);
    if !Hit(s, key) && i > 0 then i - 1 else i
  }

  lemma PickSplits(s: seq<Inode>, key: Bytes)
    requires Sorted(s) && |s| > 0
    ensures var i := Pick(s, key);
      && (i > 0 ==> !Less(key, s[i].key))
      && (i + 1 < |s| ==> Less(key, s[i + 1].key))
  {
    hide Less;
    TotalOrder();
    LowerBoundSplits(s, key);
  }

  // ---------- stacks ----------

  /** The stack follows child positions from the root; its top may be a branch or a leaf. */
  ghost predicate Along(t: Tree, stack: seq<Ref>)
    decreases |stack|
  {
    && |stack| > 0 && stack[0].id == t.id
    && (|stack| > 1 ==> t.Branch? && stack[0].index < |t.kids| && Along(t.kids[stack[0].index], stack[1..]))
  }

  /** The subtree at the top of the stack. */
  ghost function SubAt(t: Tree, stack: seq<Ref>): Tree
    requires Along(t, stack)
    decreases |stack|
  {
    if |stack| == 1 then t else SubAt(t.kids[stack[0].index], stack[1..])
  }

  /** A position of a cursor: a path down to a leaf, and an element of it or its end. */
  ghost predicate OnLeaf(t: Tree, stack: seq<Ref>) {
    Along(t, stack) && SubAt(t, stack).Leaf? && Top(stack).index <= |SubAt(t, stack).inodes|
  }

  function Top(stack: seq<Ref>): Ref
    requires |stack| > 0
  {
    stack[|stack| - 1]
  }

  /** The leaf elements in front of the subtree at the top of the stack. */
  ghost function Before(t: Tree, stack: seq<Ref>): seq<Inode>
    requires Along(t, stack)
    decreases |stack|
  {
    if |stack| == 1 then [] else
      FlattenAll(t.kids[..stack[0].index]) + Before(t.kids[stack[0].index], stack[1..])
  }

  ghost function After(t: Tree, stack: seq<Ref>): seq<Inode>
    requires Along(t, stack)
    decreases |stack|
  {
    if |stack| == 1 then [] else
      After(t.kids[stack[0].index], stack[1..]) + FlattenAll(t.kids[stack[0].index + 1..])
  }

  ghost function LeafCount(t: Tree): (n: nat)
    ensures t.Leaf? ==> n == 1
    decreases t
  {
    if t.Leaf? then 1 else LeafCountAll(t.kids)
  }

  ghost function LeafCountAll(kids: seq<Tree>): nat
    decreases kids
  {
    if kids == [] then 0 else LeafCount(kids[0]) + LeafCountAll(kids[1..])
  }

  ghost function LeavesAfter(t: Tree, stack: seq<Ref>): nat
    requires Along(t, stack)
    decreases |stack|
  {
    if |stack| == 1 then 0 else
      LeavesAfter(t.kids[stack[0].index], stack[1..]) + LeafCountAll(t.kids[stack[0].index + 1..])
  }

  lemma {:induction false} Around(t: Tree, stack: seq<Ref>)
    requires Along(t, stack)
    ensures Flatten(t) == Before(t, stack) + Flatten(SubAt(t, stack)) + After(t, stack)
    decreases |stack|
  {
    if |stack| == 1 {
      assert [] + Flatten(t) + [] == Flatten(t);
    } else {
      var i := stack[0].index;
      Around(t.kids[i], stack[1..]);
      FlattenAround(t.kids, i);
      Regroup(FlattenAll(t.kids[..i]), Before(t.kids[i], stack[1..]), Flatten(SubAt(t, stack)),
              After(t.kids[i], stack[1..]), FlattenAll(t.kids[i + 1..]));
    }
  }

  lemma Regroup<T>(a: seq<T>, b: seq<T>, c: seq<T>, d: seq<T>, e: seq<T>)
    ensures a + (b + c + d) + e == (a + b) + c + (d + e)
  {
  }

  /** Pushing a child of the top onto the stack. */
  lemma {:induction false} Push(t: Tree, stack: seq<Ref>, ref: Ref)
    requires Along(t, stack) && SubAt(t, stack).Branch?
    requires Top(stack).index < |SubAt(t, stack).kids| && ref.id == SubAt(t, stack).kids[Top(stack).index].id
    ensures Along(t, stack + [ref])
    ensures SubAt(t, stack + [ref]) == SubAt(t, stack).kids[Top(stack).index]
    ensures Before(t, stack + [ref]) == Before(t, stack) + FlattenAll(SubAt(t, stack).kids[..Top(stack).index])
    ensures After(t, stack + [ref]) == FlattenAll(SubAt(t, stack).kids[Top(stack).index + 1..]) + After(t, stack)
    ensures LeavesAfter(t, stack + [ref]) == LeafCountAll(SubAt(t, stack).kids[Top(stack).index + 1..]) + LeavesAfter(t, stack)
    decreases |stack|
  {
    hide FlattenAll;
    var longer, i := stack + [ref], stack[0].index;
    if |stack| == 1 {
      assert longer[1..] == [ref];
      var k := t.kids[i];
      assert Along(k, [ref]) && Before(k, [ref]) == [] && After(k, [ref]) == [];
      assert FlattenAll(t.kids[..i]) + [] == [] + FlattenAll(t.kids[..i]);
      assert [] + FlattenAll(t.kids[i + 1..]) == FlattenAll(t.kids[i + 1..]) + [];
    } else {
      Push(t.kids[i], stack[1..], ref);
      assert longer[1..] == stack[1..] + [ref];
      assert Top(stack[1..]) == Top(stack);
    }
  }

  /** Dropping the top of the stack; the inverse of Push. */
  lemma {:induction false} Pop(t: Tree, stack: seq<Ref>)
    requires Along(t, stack) && |stack| > 1
    ensures var s := stack[..|stack| - 1];
      && Along(t, s) && SubAt(t, s).Branch? && Top(s).index < |SubAt(t, s).kids|
      && Top(stack).id == SubAt(t, s).kids[Top(s).index].id && SubAt(t, stack) == SubAt(t, s).kids[Top(s).index]
    decreases |stack|
  {
    var s := stack[..|stack| - 1];
    if |stack| > 2 {
      Pop(t.kids[stack[0].index], stack[1..]);
      assert stack[1..][..|stack| - 2] == s[1..];
    }
  }

  /** Moving the index of the top changes nothing below it. */
  lemma {:induction false} Retop(t: Tree, stack: seq<Ref>, index: nat)
    requires Along(t, stack)
    ensures var s := stack[|stack| - 1 := Top(stack).(index := index)];
      && Along(t, s) && SubAt(t, s) == SubAt(t, stack) && Before(t, s) == Before(t, stack) && After(t, s) == After(t, stack)
      && LeavesAfter(t, s) == LeavesAfter(t, stack)
    decreases |stack|
  {
    var s := stack[|stack| - 1 := Top(stack).(index := index)];
    if |stack| > 1 {
      Retop(t.kids[stack[0].index], stack[1..], index);
      assert s[1..] == stack[1..][|stack| - 2 := Top(stack[1..]).(index := index)];
    }
  }

  // ---------- iteration ----------

  /** A stack whose top is a leaf, or a branch with a child still to descend into. */
  ghost predicate Ready(t: Tree, stack: seq<Ref>) {
    && Along(t, stack)
    && var sub := SubAt(t, stack);
       if sub.Leaf? then Top(stack).index <= |sub.inodes| else Top(stack).index < |sub.kids|
  }

  /** The elements from the position on. */
  ghost function Remaining(t: Tree, stack: seq<Ref>): seq<Inode>
    requires Ready(t, stack)
  {
    var sub := SubAt(t, stack);
    (if sub.Leaf? then sub.inodes[Top(stack).index..] else FlattenAll(sub.kids[Top(stack).index..])) + After(t, stack)
  }

  /** The elements behind the position: what Next has yet to return. */
  ghost function Following(t: Tree, stack: seq<Ref>): seq<Inode>
    requires OnLeaf(t, stack)
  {
    var rest := Remaining(t, stack);
    if Top(stack).index < |SubAt(t, stack).inodes| then rest[1..] else rest
  }

  ghost function LeavesFrom(t: Tree, stack: seq<Ref>): nat
    requires Ready(t, stack)
  {
    var sub := SubAt(t, stack);
    (if sub.Leaf? then 1 else LeafCountAll(sub.kids[Top(stack).index..])) + LeavesAfter(t, stack)
  }

  /** Descending to the first position of the next child skips nothing. */
  lemma Descend(t: Tree, stack: seq<Ref>)
    requires Ready(t, stack) && SubAt(t, stack).Branch?
    requires var kid := SubAt(t, stack).kids[Top(stack).index]; kid.Branch? ==> |kid.kids| > 0
    ensures var s := stack + [Ref(SubAt(t, stack).kids[Top(stack).index].id, 0)];
      && Ready(t, s) && SubAt(t, s) == SubAt(t, stack).kids[Top(stack).index]
      && Remaining(t, s) == Remaining(t, stack) && LeavesFrom(t, s) == LeavesFrom(t, stack)
  {
    hide FlattenAll, LeafCountAll;
    var sub, i := SubAt(t, stack), Top(stack).index;
    var kid := sub.kids[i];
    Push(t, stack, Ref(kid.id, 0));
    FirstOf(sub.kids[i..]);
    assert sub.kids[i..][1..] == sub.kids[i + 1..];
    if kid.Branch? {
      assert kid.kids[0..] == kid.kids;
    }
    var rest := FlattenAll(sub.kids[i + 1..]);
    assert Flatten(kid) + (rest + After(t, stack)) == (Flatten(kid) + rest) + After(t, stack);
  }

  lemma FirstOf(kids: seq<Tree>)
    requires kids != []
    ensures FlattenAll(kids) == Flatten(kids[0]) + FlattenAll(kids[1..])
    ensures LeafCountAll(kids) == LeafCount(kids[0]) + LeafCountAll(kids[1..])
  {
  }

  lemma {:induction false} AlongPrefix(t: Tree, stack: seq<Ref>, n: nat)
    requires Along(t, stack) && 1 <= n <= |stack|
    ensures Along(t, stack[..n])
    decreases |stack|
  {
    if n < |stack| {
      Pop(t, stack);
      AlongPrefix(t, stack[..|stack| - 1], n);
      assert stack[..|stack| - 1][..n] == stack[..n];
    } else {
      assert stack[..n] == stack;
    }
  }

  /** One level up: what follows a subtree is its later siblings, then what follows the parent. */
  lemma Climb(t: Tree, stack: seq<Ref>, n: nat)
    requires Along(t, stack) && 1 <= n < |stack|
    ensures Along(t, stack[..n]) && Along(t, stack[..n + 1]) && SubAt(t, stack[..n]).Branch?
    ensures stack[n - 1].index < |SubAt(t, stack[..n]).kids|
    ensures var later := SubAt(t, stack[..n]).kids[stack[n - 1].index + 1..];
      && After(t, stack[..n + 1]) == FlattenAll(later) + After(t, stack[..n])
      && LeavesAfter(t, stack[..n + 1]) == LeafCountAll(later) + LeavesAfter(t, stack[..n])
  {
    hide FlattenAll, LeafCountAll, After, LeavesAfter, SubAt;
    AlongPrefix(t, stack, n + 1);
    Pop(t, stack[..n + 1]);
    assert stack[..n + 1][..n] == stack[..n];
    assert Top(stack[..n]) == stack[n - 1];
    assert stack[..n] + [stack[n]] == stack[..n + 1];
    Push(t, stack[..n], stack[n]);
  }

  /** Stepping to the next child of an ancestor whose later descendants on the path are exhausted. */
  lemma StepUp(t: Tree, stack: seq<Ref>, n: nat)
    requires Along(t, stack) && 1 <= n < |stack| && Along(t, stack[..n])
    requires SubAt(t, stack[..n]).Branch? && stack[n - 1].index + 1 < |SubAt(t, stack[..n]).kids|
    ensures var s := stack[..n][n - 1 := stack[n - 1].(index := stack[n - 1].index + 1)];
      && Ready(t, s)
      && Along(t, stack[..n + 1])
      && Remaining(t, s) == After(t, stack[..n + 1]) && LeavesFrom(t, s) == LeavesAfter(t, stack[..n + 1])
  {
    hide FlattenAll, LeafCountAll, After, LeavesAfter;
    Climb(t, stack, n);
    assert Top(stack[..n]) == stack[n - 1];
    Retop(t, stack[..n], stack[n - 1].index + 1);
  }

  // ---------- the search path ----------

  /** The path a search for the key takes, down to the first element of the leaf not below it. */
  ghost function PathTo(t: Tree, key: Bytes): seq<Ref>
    decreases t
  {
    if t.Leaf? then [Ref(t.id, LowerBound(t.inodes, key))]
    else
      var i := Pick(t.inodes, key);
      [Ref(t.id, i)] + if i < |t.kids| then PathTo(t.kids[i], key) else []
  }

  ghost predicate AllBelow(s: seq<Inode>, key: Bytes) {
    forall i :: 0 <= i < |s| ==> Less(s[i].key, key)
  }

  ghost predicate AllAbove(s: seq<Inode>, key: Bytes) {
    forall i :: 0 <= i < |s| ==> Less(key, s[i].key)
  }

  /** Everything before the leaf a search reaches is below the key, everything after it is above. */
  lemma {:induction false} SearchSplits(t: Tree, key: Bytes, lo: Bound, hi: Bound)
    requires Ordered(t, lo, hi)
    ensures OnLeaf(t, PathTo(t, key))
    ensures AllBelow(Before(t, PathTo(t, key)), key)
    ensures AllAbove(After(t, PathTo(t, key)), key)
    ensures Top(PathTo(t, key)).index == LowerBound(SubAt(t, PathTo(t, key)).inodes, key)
    decreases t
  {
    hide Less, Ordered, Sorted, Within, Pick, FlattenAll, LowerBound;
    var path := PathTo(t, key);
    OrderedPage(t, lo, hi);
    if t.Branch? {
      var i := Pick(t.inodes, key);
      var kid := t.kids[i];
      OrderedKid(t, lo, hi, i);
      SearchSplits(kid, key, KidLo(t.inodes, lo, i), KidHi(t.inodes, hi, i));
      assert path[1..] == PathTo(kid, key);
      assert Top(path) == Top(path[1..]);
      SiblingsSplit(t, key, lo, hi);
      BelowConcat(FlattenAll(t.kids[..i]), Before(kid, path[1..]), key);
      AboveConcat(After(kid, path[1..]), FlattenAll(t.kids[i + 1..]), key);
    }
  }

  lemma BelowConcat(a: seq<Inode>, b: seq<Inode>, key: Bytes)
    requires AllBelow(a, key) && AllBelow(b, key)
    ensures AllBelow(a + b, key)
  {
  }

  lemma AboveConcat(a: seq<Inode>, b: seq<Inode>, key: Bytes)
    requires AllAbove(a, key) && AllAbove(b, key)
    ensures AllAbove(a + b, key)
  {
  }

  lemma SiblingsSplit(t: Tree, key: Bytes, lo: Bound, hi: Bound)
    requires Ordered(t, lo, hi) && t.Branch?
    ensures AllBelow(FlattenAll(t.kids[..Pick(t.inodes, key)]), key)
    ensures AllAbove(FlattenAll(t.kids[Pick(t.inodes, key) + 1..]), key)
  {
    hide Less, Ordered;
    TotalOrder();
    var i := Pick(t.inodes, key);
    OrderedPage(t, lo, hi);
    PickSplits(t.inodes, key);
    if i > 0 {
      PrefixBelow(t, lo, hi, i);
    }
    if i + 1 < |t.kids| {
      FlattenOrderedFrom(t, lo, hi, i + 1);
    }
  }

  lemma OrderedPage(t: Tree, lo: Bound, hi: Bound)
    requires Ordered(t, lo, hi)
    ensures Sorted(t.inodes) && Within(t.inodes, lo, hi)
    ensures t.Branch? ==> |t.kids| == |t.inodes| > 0
  {
  }

  lemma OrderedKid(t: Tree, lo: Bound, hi: Bound, i: nat)
    requires Ordered(t, lo, hi) && t.Branch? && i < |t.kids|
    ensures i < |t.inodes| && Ordered(t.kids[i], KidLo(t.inodes, lo, i), KidHi(t.inodes, hi, i))
  {
  }

  /** What lies in the children before a separator is below it. */
  lemma {:induction false} PrefixBelow(t: Tree, lo: Bound, hi: Bound, i: nat)
    requires Ordered(t, lo, hi) && t.Branch? && i < |t.kids|
    ensures AllBelow(FlattenAll(t.kids[..i]), t.inodes[i].key)
    decreases i
  {
    hide Less, Sorted, Within, KidLo, Flatten;
    if i > 0 {
      PrefixBelow(t, lo, hi, i - 1);
      var kid := t.kids[i - 1];
      FlattenOrdered(kid, KidLo(t.inodes, lo, i - 1), KidHi(t.inodes, hi, i - 1));
      WithinBelow(Flatten(kid), KidLo(t.inodes, lo, i - 1), t.inodes[i].key);
      SeparatorsRise(t, lo, hi, i - 1);
      BelowWeaker(FlattenAll(t.kids[..i - 1]), t.inodes[i - 1].key, t.inodes[i].key);
      assert t.kids[..i] == t.kids[..i - 1] + [kid];
      FlattenConcat(t.kids[..i - 1], [kid]);
      FlattenOne(kid);
      BelowConcat(FlattenAll(t.kids[..i - 1]), Flatten(kid), t.inodes[i].key);
    }
  }

  lemma SeparatorsRise(t: Tree, lo: Bound, hi: Bound, i: nat)
    requires Ordered(t, lo, hi) && i + 1 < |t.inodes|
    ensures Less(t.inodes[i].key, t.inodes[i + 1].key)
  {
  }

  lemma WithinBelow(s: seq<Inode>, lo: Bound, key: Bytes)
    requires Within(s, lo, At(key))
    ensures AllBelow(s, key)
  {
  }

  lemma BelowWeaker(s: seq<Inode>, key: Bytes, key': Bytes)
    requires AllBelow(s, key) && Less(key, key')
    ensures AllBelow(s, key')
  {
    hide Less;
    TotalOrder();
  }

  lemma FlattenOne(t: Tree)
    ensures FlattenAll([t]) == Flatten(t)
  {
    assert [t][1..] == [];
    assert Flatten(t) + [] == Flatten(t);
  }
}
