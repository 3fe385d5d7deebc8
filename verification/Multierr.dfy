/** multierr: combined errors whose slices may share backing arrays. */
module Multierr {
  /** nil, an error that is no multiError, or a multiError. */
  datatype Err = Nil | Single(id: nat) | Multi(m: MultiError)

  /** The first len elements of a backing array; its length is the capacity. */
  datatype Slice = Slice(arr: array<Err>, len: nat)

  class MultiError {
    var copyNeeded: bool
    const errors: Slice

    constructor (errors: Slice)
      ensures this.errors == errors && !copyNeeded
    {
      this.errors, copyNeeded := errors, false;
    }
  }

  // ---------- what errors stand for ----------

  ghost predicate Fits(s: Slice) {
    s.len <= s.arr.Length
  }

  ghost function Elements(s: Slice): seq<Err>
    requires Fits(s)
    reads s.arr
  {
    s.arr[..s.len]
  }

  /** The list an error stands for. */
  ghost function ErrorsOf(e: Err): seq<Err>
    requires e.Multi? ==> Fits(e.m.errors)
    reads if e.Multi? then {e.m.errors.arr} else {}
  {
    match e
    case Nil => []
    case Single(_) => [e]
    case Multi(m) => Elements(m.errors)
  }

  /** All multiErrors there are, and the arrays they use. */
  datatype World = World(all: set<MultiError>, arrays: set<array<Err>>) {
    ghost function With(m: MultiError): World {
      World(all + {m}, arrays + {m.errors.arr})
    }

    ghost predicate Knows(e: Err) {
      e.Multi? ==> e.m in all && e.m.errors.arr in arrays
    }

    ghost predicate Within(now: World) {
      all <= now.all && arrays <= now.arrays
    }
  }

  /** A multiError holds at least two errors and no other multiError. */
  ghost predicate Flat(m: MultiError)
    reads m.errors.arr
  {
    Fits(m.errors) && m.errors.len >= 2 && (forall k :: 0 <= k < m.errors.len ==> m.errors.arr[k].Single?)
  }

  /** Of two multiErrors on one array only the longer one may still be appended to in place. */
  ghost predicate MayShare(m: MultiError, n: MultiError)
    reads m, n
  {
    m != n && m.errors.arr == n.errors.arr && !m.copyNeeded ==> n.copyNeeded && n.errors.len <= m.errors.len
  }

  ghost predicate Valid(w: World)
    reads w.all, w.arrays
  {
    && (forall m :: m in w.all ==> m.errors.arr in w.arrays)
    && (forall m :: m in w.all ==> Flat(m))
    && (forall m, n :: m in w.all && n in w.all ==> MayShare(m, n))
  }

  // ---------- slices ----------

  /** Go's append of one element: in place when there is room, else in a new array of any sufficient capacity. */
  method AppendOne(s: Slice, e: Err) returns (r: Slice)
    requires Fits(s)
    modifies s.arr
    ensures Fits(r) && Elements(r) == old(Elements(s)) + [e]
    ensures s.len < s.arr.Length ==> r.arr == s.arr
    ensures s.len == s.arr.Length ==> fresh(r.arr) && s.arr[..] == old(s.arr[..])
    ensures s.arr[..s.len] == old(s.arr[..s.len])
  {
    if s.len < s.arr.Length {
      s.arr[s.len] := e;
      r := Slice(s.arr, s.len + 1);
    } else {
      assert s.len + 1 > s.len;
      var capacity: nat :| capacity > s.len;
      var arr := new Err[capacity](_ => Nil);
      forall k | 0 <= k < s.len {
        arr[k] := s.arr[k];
      }
      arr[s.len] := e;
      r := Slice(arr, s.len + 1);
    }
  }

  /** Errors: a slice of its own for the caller. */
  method Errors(err: Err) returns (r: array<Err>)
    requires err.Multi? ==> Fits(err.m.errors)
    ensures fresh(r) && r[..] == ErrorsOf(err)
  {
    match err {
      case Nil =>
        r := new Err[0];
      case Single(_) =>
        r := new Err[1](_ => err);
      case Multi(m) =>
        r := new Err[m.errors.len](_ => Nil);
        forall k | 0 <= k < m.errors.len {
          r[k] := m.errors.arr[k];
        }
    }
  }

  // ---------- lists of errors ----------

  function Concat(lists: seq<seq<Err>>): seq<Err> {
    if lists == [] then [] else Concat(lists[..|lists| - 1]) + lists[|lists| - 1]
  }

  function NonNil(es: seq<Err>): nat {
    if es == [] then 0 else NonNil(es[..|es| - 1]) + (if es[|es| - 1].Nil? then 0 else 1)
  }

  /** l may be the list of e. */
  ghost predicate MayStand(e: Err, l: seq<Err>) {
    match e
    case Nil => l == []
    case Single(_) => l == [e]
    case Multi(_) => |l| >= 2 && (forall k :: 0 <= k < |l| ==> l[k].Single?)
  }

  ghost predicate MayStandAll(es: seq<Err>, lists: seq<seq<Err>>) {
    |es| == |lists| && (forall k :: 0 <= k < |es| ==> MayStand(es[k], lists[k]))
  }

  /** Now the errors, all of them known, stand for these lists. */
  ghost predicate Stand(es: seq<Err>, lists: seq<seq<Err>>, w: World)
    reads w.arrays
  {
    && |es| == |lists|
    && (forall k :: 0 <= k < |es| ==> StandsFor(es[k], lists[k], w))
  }

  ghost predicate StandsFor(e: Err, l: seq<Err>, w: World)
    reads w.arrays
  {
    w.Knows(e) && (e.Multi? ==> Fits(e.m.errors)) && ErrorsOf(e) == l
  }

  lemma {:induction false} ConcatGrows(lists: seq<seq<Err>>, i: nat)
    requires i <= |lists|
    ensures |Concat(lists[..i])| <= |Concat(lists)|
    decreases |lists|
  {
    if i < |lists| {
      var rest := lists[..|lists| - 1];
      ConcatGrows(rest, i);
      assert rest[..i] == lists[..i];
    } else {
      assert lists[..i] == lists;
    }
  }

  /** Every error that is not nil counts at least once, and what comes of it is flat. */
  lemma {:induction false} NonNilCounted(es: seq<Err>, lists: seq<seq<Err>>)
    requires MayStandAll(es, lists)
    ensures |Concat(lists)| >= NonNil(es)
    ensures forall k :: 0 <= k < |Concat(lists)| ==> Concat(lists)[k].Single?
  {
    if es == [] {
    } else {
      NonNilCounted(es[..|es| - 1], lists[..|es| - 1]);
    }
  }

  lemma {:induction false} NilsOnly(es: seq<Err>, lists: seq<seq<Err>>)
    requires MayStandAll(es, lists) && forall k :: 0 <= k < |es| ==> es[k].Nil?
    ensures Concat(lists) == [] && NonNil(es) == 0
  {
    if es == [] {
    } else {
      NilsOnly(es[..|es| - 1], lists[..|es| - 1]);
    }
  }

  lemma {:induction false} NoneCounted(es: seq<Err>)
    ensures NonNil(es) == 0 ==> forall k :: 0 <= k < |es| ==> es[k].Nil?
  {
    if es == [] {
    } else {
      NoneCounted(es[..|es| - 1]);
    }
  }

  /** One error among nils stands for the whole list. */
  lemma {:induction false} OneOnly(es: seq<Err>, lists: seq<seq<Err>>, first: nat)
    requires MayStandAll(es, lists) && NonNil(es) == 1
    requires first < |es| && !es[first].Nil? && forall k :: 0 <= k < first ==> es[k].Nil?
    ensures Concat(lists) == lists[first]
    decreases |es|
  {
    var n := |es| - 1;
    if first == n {
      NilsOnly(es[..n], lists[..n]);
    } else {
      NoneCounted(es[..n]);
      OneOnly(es[..n], lists[..n], first);
    }
  }

  /** A list without nil and multiErrors is flat already. */
  lemma {:induction false} FlatAlready(es: seq<Err>, lists: seq<seq<Err>>)
    requires MayStandAll(es, lists) && NonNil(es) == |es| && forall k :: 0 <= k < |es| ==> !es[k].Multi?
    ensures Concat(lists) == es
  {
    if es == [] {
    } else {
      var n := |es| - 1;
      AtMostAll(es[..n]);
      FlatAlready(es[..n], lists[..n]);
      assert es == es[..n] + [es[n]];
    }
  }

  lemma {:induction false} AtMostAll(es: seq<Err>)
    ensures NonNil(es) <= |es|
  {
    if es == [] {
    } else {
      AtMostAll(es[..|es| - 1]);
    }
  }

  // ---------- combining ----------

  /** One element more of a list. */
  lemma NextOf(es: seq<Err>, lists: seq<seq<Err>>, i: nat, w: World)
    requires Stand(es, lists, w) && i < |es|
    ensures |lists| == |es| && StandsFor(es[i], lists[i], w)
    ensures NonNil(es[..i + 1]) == NonNil(es[..i]) + (if es[i].Nil? then 0 else 1)
    ensures Concat(lists[..i + 1]) == Concat(lists[..i]) + lists[i]
  {
    assert es[..i + 1][..i] == es[..i] && lists[..i + 1][..i] == lists[..i];
  }

  lemma NothingYet(es: seq<Err>, lists: seq<seq<Err>>, w: World)
    requires Stand(es, lists, w)
    ensures |es| == |lists| && NonNil(es[..0]) == 0 && Concat(lists[..0]) == []
  {
  }

  /** inspect: how many errors, how many of them flattened, where the first one is, and whether one is a multiError. */
  method Inspect(errors: array<Err>, ghost lists: seq<seq<Err>>, ghost w: World)
    returns (count: nat, capacity: nat, first: nat, nested: bool)
    requires Stand(errors[..], lists, w)
    ensures count == NonNil(errors[..]) && capacity == |Concat(lists)|
    ensures count > 0 ==> first < errors.Length && !errors[first].Nil? && (forall k :: 0 <= k < first ==> errors[k].Nil?)
    ensures nested <==> exists k :: 0 <= k < errors.Length && errors[k].Multi?
  {
    hide Stand, NonNil, Concat;
    count, capacity, first, nested := 0, 0, 0, false;
    var i := 0;
    NothingYet(errors[..], lists, w);
    while i < errors.Length
      invariant i <= errors.Length == |lists|
      invariant count == NonNil(errors[..i]) && capacity == |Concat(lists[..i])|
      invariant if count == 0 then forall k :: 0 <= k < i ==> errors[k].Nil?
        else first < i && !errors[first].Nil? && (forall k :: 0 <= k < first ==> errors[k].Nil?)
      invariant nested <==> exists k :: 0 <= k < i && errors[k].Multi?
    {
      NextOf(errors[..], lists, i, w);
      assert errors[..][..i] == errors[..i] && errors[..][..i + 1] == errors[..i + 1];
      match errors[i] {
        case Nil =>
        case Single(_) =>
          if count == 0 {
            first := i;
          }
          count, capacity := count + 1, capacity + 1;
        case Multi(m) =>
          if count == 0 {
            first := i;
          }
          count, capacity, nested := count + 1, capacity + m.errors.len, true;
      }
      i := i + 1;
    }
    assert errors[..i] == errors[..] && lists[..i] == lists;
  }

  /** The errors of a list from its first one on, in a new array that just holds them. */
  method Flatten(errors: array<Err>, first: nat, capacity: nat, ghost lists: seq<seq<Err>>, ghost w: World) returns (r: Slice)
    requires Stand(errors[..], lists, w) && MayStandAll(errors[..], lists)
    requires first <= errors.Length && (forall k :: 0 <= k < first ==> errors[k].Nil?)
    requires capacity == |Concat(lists)|
    ensures Fits(r) && fresh(r.arr) && Elements(r) == Concat(lists)
  {
    hide Stand, MayStand, NonNil, Concat;
    NothingYet(errors[..], lists, w);
    NilsOnly(errors[..first], lists[..first]);
    var arr := new Err[capacity](_ => Nil);
    var n: nat := 0;
    var i := first;
    while i < errors.Length
      invariant first <= i <= errors.Length && n <= capacity
      invariant arr[..n] == Concat(lists[..i])
      invariant Stand(errors[..], lists, w)
    {
      NextOf(errors[..], lists, i, w);
      ConcatGrows(lists, i + 1);
      match errors[i] {
        case Nil =>
        case Single(_) =>
          arr[n] := errors[i];
          n := n + 1;
        case Multi(m) =>
          CopyInto(arr, n, m.errors);
          n := n + m.errors.len;
      }
      i := i + 1;
    }
    assert lists[..i] == lists;
    r := Slice(arr, n);
  }

  method CopyInto(arr: array<Err>, n: nat, s: Slice)
    requires Fits(s) && n + s.len <= arr.Length && arr != s.arr
    modifies arr
    ensures arr[..n + s.len] == old(arr[..n]) + Elements(s)
  {
    var k := 0;
    while k < s.len
      invariant k <= s.len && arr[..n + k] == old(arr[..n]) + s.arr[..k]
    {
      arr[n + k] := s.arr[k];
      k := k + 1;
    }
  }

  /** One multiError more, on an array of its own. */
  lemma OneMore(w: World, m: MultiError)
    requires Valid(w) && Flat(m) && m.errors.arr !in w.arrays
    ensures Valid(w.With(m)) && w.Within(w.With(m))
  {
  }

  lemma NilStands(w: World)
    ensures StandsFor(Nil, [], w)
  {
  }

  /** A multiError on an array that no other one uses. */
  method NewMulti(s: Slice, ghost w: World) returns (e: Err, ghost now: World)
    requires Valid(w) && Fits(s) && s.arr !in w.arrays
    requires s.len >= 2 && forall k :: 0 <= k < s.len ==> Elements(s)[k].Single?
    ensures Valid(now) && w.Within(now) && fresh(now.all - w.all) && now.arrays == w.arrays + {s.arr}
    ensures StandsFor(e, Elements(s), now)
  {
    hide Valid;
    var m := new MultiError(s);
    assert forall k :: 0 <= k < s.len ==> s.arr[k] == Elements(s)[k];
    OneMore(w, m);
    e, now := Multi(m), w.With(m);
  }

  /** fromSlice: the list becomes the new error's own where it is flat already. */
  method FromSlice(errors: array<Err>, ghost lists: seq<seq<Err>>, ghost w: World) returns (e: Err, ghost now: World)
    requires Valid(w) && errors !in w.arrays
    requires Stand(errors[..], lists, w) && MayStandAll(errors[..], lists)
    ensures Valid(now) && w.Within(now) && fresh(now.all - w.all) && fresh(now.arrays - w.arrays - {errors})
    ensures StandsFor(e, Concat(lists), now)
  {
    hide Valid, MayStand, NonNil, Concat, StandsFor;
    var count, capacity, first, nested := Inspect(errors, lists, w);
    e, now := Nil, w;
    if count == 0 {
      NoneCounted(errors[..]);
      NilsOnly(errors[..], lists);
      NilStands(w);
    } else if count == 1 {
      OneOnly(errors[..], lists, first);
      e := errors[first];
      assert StandsFor(errors[..][first], lists[first], w);
    } else {
      var s;
      NonNilCounted(errors[..], lists);
      if count == errors.Length && !nested {
        FlatAlready(errors[..], lists);
        s := Slice(errors, errors.Length);
      } else {
        s := Flatten(errors, first, capacity, lists, w);
      }
      assert Elements(s) == Concat(lists);
      e, now := NewMulti(s, w);
      assert StandsFor(e, Elements(s), now);
    }
  }

  /** A known error stands for a flat list. */
  lemma KnownStands(e: Err, w: World)
    requires Valid(w) && w.Knows(e)
    ensures (e.Multi? ==> Fits(e.m.errors)) && StandsFor(e, ErrorsOf(e), w) && MayStand(e, ErrorsOf(e))
  {
    if e.Multi? {
      assert Flat(e.m);
    }
  }

  lemma ConcatTwo(a: seq<Err>, b: seq<Err>)
    ensures Concat([a, b]) == a + b
  {
    assert [a, b][..1] == [a] && [a][..0] == [];
    assert Concat([a]) == a;
  }

  /** The one that was appended to gives way to the longer one. */
  lemma Extended(w: World, m: MultiError, x: MultiError)
    requires forall n :: n in w.all ==> n.errors.arr in w.arrays && Flat(n)
    requires forall n, o :: n in w.all && o in w.all ==> MayShare(n, o)
    requires m in w.all && Flat(x)
    requires x.errors.arr == m.errors.arr ==> x.errors.len > m.errors.len
    requires x.errors.arr != m.errors.arr ==> x.errors.arr !in w.arrays
    requires forall n :: n in w.all && n.errors.arr == m.errors.arr ==> n.copyNeeded && n.errors.len <= m.errors.len
    ensures Valid(w.With(x))
  {
    hide Flat;
  }

  /** copyNeeded.Swap(true) and the append that the first to swap may do: the next free element of the array is its own. */
  method AppendInPlace(m: MultiError, e: Err, ghost w: World) returns (r: Err, ghost now: World)
    requires Valid(w) && m in w.all && !m.copyNeeded && e.Single?
    modifies m, m.errors.arr
    ensures Valid(now) && w.Within(now) && fresh(now.all - w.all) && fresh(now.arrays - w.arrays)
    ensures m.copyNeeded && StandsFor(r, old(ErrorsOf(Multi(m))) + [e], now)
    ensures forall n :: n in w.all ==> Fits(n.errors) && Elements(n.errors) == old(Elements(n.errors))
  {
    Longest(w, m);
    m.copyNeeded := true;
    var s := AppendOne(m.errors, e);
    forall n | n in w.all ensures Flat(n) && Elements(n.errors) == old(Elements(n.errors)) {
      var a, l := n.errors.arr, n.errors.len;
      assert old(Flat(n));
      if a == m.errors.arr {
        assert a[..l] == a[..m.errors.len][..l];
        assert old(a[..l]) == old(a[..m.errors.len])[..l];
      }
      forall k | 0 <= k < l ensures a[k].Single? {
        assert a[k] == a[..l][k] == old(a[..l])[k];
      }
    }
    var x := new MultiError(s);
    assert forall k :: 0 <= k < s.len ==> s.arr[k] == Elements(s)[k];
    Extended(w, m, x);
    r, now := Multi(x), w.With(x);
  }

  lemma Longest(w: World, m: MultiError)
    requires Valid(w) && m in w.all && !m.copyNeeded
    ensures forall n :: n in w.all && n != m && n.errors.arr == m.errors.arr ==> n.copyNeeded && n.errors.len <= m.errors.len
  {
    forall n | n in w.all && n != m && n.errors.arr == m.errors.arr ensures n.copyNeeded && n.errors.len <= m.errors.len {
      assert MayShare(m, n);
    }
  }

  /** Append */
  method Append(left: Err, right: Err, ghost w: World) returns (e: Err, ghost now: World)
    requires Valid(w) && w.Knows(left) && w.Knows(right)
    requires (left.Multi? ==> Fits(left.m.errors)) && (right.Multi? ==> Fits(right.m.errors))
    modifies w.all, w.arrays
    ensures Valid(now) && w.Within(now) && fresh(now.all - w.all) && fresh(now.arrays - w.arrays)
    ensures StandsFor(e, old(ErrorsOf(left)) + old(ErrorsOf(right)), now)
    ensures forall m :: m in w.all ==> Fits(m.errors) && Elements(m.errors) == old(Elements(m.errors))
  {
    KnownStands(left, w);
    KnownStands(right, w);
    if left.Nil? {
      return right, w;
    }
    if right.Nil? {
      return left, w;
    }
    if !right.Multi? {
      if left.Multi? && !left.m.copyNeeded {
        e, now := AppendInPlace(left.m, right, w);
        return;
      } else if !left.Multi? {
        var arr := new Err[2](i => if i == 0 then left else right);
        e, now := NewMulti(Slice(arr, 2), w);
        return;
      }
    }
    var errors := new Err[2](i => if i == 0 then left else right);
    ConcatTwo(ErrorsOf(left), ErrorsOf(right));
    e, now := FromSlice(errors, [ErrorsOf(left), ErrorsOf(right)], w);
  }

  // ---------- any number of calls ----------

  /** A call of Append on two errors had before: those given first, then the results in order. */
  datatype Call = Call(left: nat, right: nat)

  ghost predicate InOrder(given: nat, calls: seq<Call>) {
    forall k :: 0 <= k < |calls| ==> calls[k].left < given + k && calls[k].right < given + k
  }

  /** The list the k-th error should stand for. */
  ghost function Meant(given: seq<Err>, calls: seq<Call>, k: nat): seq<Err>
    requires InOrder(|given|, calls) && k < |given| + |calls|
    decreases k
  {
    if k < |given| then (if given[k].Nil? then [] else [given[k]])
    else
      var c := calls[k - |given|];
      Meant(given, calls, c.left) + Meant(given, calls, c.right)
  }

  /** The list is as flat as the errors given. */
  lemma {:induction false} MeantIsFlat(given: seq<Err>, calls: seq<Call>, k: nat)
    requires InOrder(|given|, calls) && k < |given| + |calls| && forall e :: e in given ==> !e.Multi?
    ensures forall e :: e in Meant(given, calls, k) ==> e.Single? && e in given
    decreases k
  {
    if k >= |given| {
      var c := calls[k - |given|];
      MeantIsFlat(given, calls, c.left);
      MeantIsFlat(given, calls, c.right);
    }
  }

  /** Every error had so far still stands for the list it should. */
  ghost predicate AsMeant(given: seq<Err>, calls: seq<Call>, es: seq<Err>, w: World)
    requires InOrder(|given|, calls)
    reads w.arrays
  {
    && |given| <= |es| <= |given| + |calls|
    && (forall k :: 0 <= k < |es| ==> StandsFor(es[k], Meant(given, calls, k), w))
  }

  /** However the results share arrays, in the end each of them stands for its two operands' lists, one after the other. */
  method Run(given: seq<Err>, calls: seq<Call>) returns (es: seq<Err>, ghost w: World)
    requires InOrder(|given|, calls) && forall e :: e in given ==> !e.Multi?
    ensures |es| == |given| + |calls| && es[..|given|] == given
    ensures Valid(w) && AsMeant(given, calls, es, w)
  {
    hide Valid, Meant;
    es, w := given, World({}, {});
    NoneYet(given, calls);
    var n := 0;
    while n < |calls|
      invariant n <= |calls| && |es| == |given| + n && es[..|given|] == given
      invariant Valid(w) && AsMeant(given, calls, es, w) && fresh(w.all) && fresh(w.arrays)
    {
      var c := calls[n];
      assert StandsFor(es[c.left], Meant(given, calls, c.left), w);
      assert StandsFor(es[c.right], Meant(given, calls, c.right), w);
      label Before:
      var e, now := Append(es[c.left], es[c.right], w);
      forall k | 0 <= k < |es| ensures StandsFor(es[k], Meant(given, calls, k), now) {
        assert old@Before(StandsFor(es[k], Meant(given, calls, k), w));
      }
      MeantNext(given, calls, n);
      es, w, n := es + [e], now, n + 1;
    }
  }

  lemma NoneYet(given: seq<Err>, calls: seq<Call>)
    requires InOrder(|given|, calls) && forall e :: e in given ==> !e.Multi?
    ensures Valid(World({}, {})) && AsMeant(given, calls, given, World({}, {}))
  {
  }

  lemma MeantNext(given: seq<Err>, calls: seq<Call>, n: nat)
    requires InOrder(|given|, calls) && n < |calls|
    ensures Meant(given, calls, |given| + n) == Meant(given, calls, calls[n].left) + Meant(given, calls, calls[n].right)
  {
  }
}
