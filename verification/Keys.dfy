/** Byte strings in the order of bytes.Compare. */
module Keys {
  type Byte = b: int | 0 <= b < 256

  type Bytes = seq<Byte>

  /** -1, 0 or 1, by the first byte that differs; a proper prefix comes first. */
  function Compare(a: Bytes, b: Bytes): int {
    if |a| == 0 then (if |b| == 0 then 0 else -1)
    else if |b| == 0 then 1
    else if a[0] < b[0] then -1
    else if a[0] > b[0] then 1
    else Compare(a[1..], b[1..])
  }

  predicate Less(a: Bytes, b: Bytes) {
    Compare(a, b) == -1
  }

  lemma {:induction false} CompareTotal(a: Bytes, b: Bytes)
    ensures Compare(a, b) == 0 <==> a == b
    ensures Compare(a, b) == -Compare(b, a)
    ensures -1 <= Compare(a, b) <= 1
    ensures Less(a, b) || a == b || Less(b, a)
    ensures !(Less(a, b) && Less(b, a)) && !Less(a, a)
  {
    if |a| > 0 && |b| > 0 {
      CompareTotal(a[1..], b[1..]);
      assert a == [a[0]] + a[1..] && b == [b[0]] + b[1..];
    }
    if |a| > 0 {
      LessIrreflexive(a);
    }
  }

  lemma {:induction false} LessIrreflexive(a: Bytes)
    ensures Compare(a, a) == 0
  {
    if |a| > 0 {
      LessIrreflexive(a[1..]);
    }
  }

  lemma {:induction false} LessTrans(a: Bytes, b: Bytes, c: Bytes)
    requires Compare(a, b) <= 0 && Compare(b, c) <= 0
    ensures Compare(a, c) <= 0
    ensures Less(a, b) || Less(b, c) ==> Less(a, c)
  {
    if |a| > 0 && |b| > 0 && |c| > 0 {
      if a[0] == b[0] == c[0] {
        LessTrans(a[1..], b[1..], c[1..]);
      }
    }
  }

  /** The facts of a strict total order, for all keys at once. */
  lemma TotalOrder()
    ensures forall a, b {:trigger Less(a, b)} :: Less(a, b) ==> !Less(b, a) && a != b
    ensures forall a, b {:trigger Less(a, b)} :: Less(a, b) || a == b || Less(b, a)
    ensures forall a, b, c {:trigger Less(a, b), Less(b, c)} :: Less(a, b) && Less(b, c) ==> Less(a, c)
  {
    hide Less;
    forall a, b ensures (Less(a, b) ==> !Less(b, a) && a != b) && (Less(a, b) || a == b || Less(b, a)) {
      CompareTotal(a, b);
    }
    forall a, b, c | Less(a, b) && Less(b, c) ensures Less(a, c) {
      LessMeans(a, b);
      LessMeans(b, c);
      LessTrans(a, b, c);
    }
  }

  lemma LessMeans(a: Bytes, b: Bytes)
    ensures Less(a, b) <==> Compare(a, b) == -1
  {
  }

  // ---------- the order, byte by byte ----------

  /** At i the keys part: a ends there and b goes on, or both go on and a's byte is the smaller one. */
  predicate PartAt(a: Bytes, b: Bytes, i: nat) {
    i <= |a| && i < |b| && a[..i] == b[..i] && (i == |a| || a[i] < b[i])
  }

  /** A proper prefix comes first, else the key with the smaller byte where the two first differ. */
  ghost predicate Precedes(a: Bytes, b: Bytes) {
    exists i: nat :: PartAt(a, b, i)
  }

  lemma {:induction false} LessParts(a: Bytes, b: Bytes) returns (i: nat)
    requires Less(a, b)
    ensures PartAt(a, b, i)
    decreases |a|
  {
    i := 0;
    if |a| > 0 && |b| > 0 && a[0] == b[0] {
      i := LessParts(a[1..], b[1..]);
      assert a[..i + 1] == [a[0]] + a[1..][..i] && b[..i + 1] == [b[0]] + b[1..][..i];
      i := i + 1;
    }
  }

  lemma {:induction false} PartsLess(a: Bytes, b: Bytes, i: nat)
    requires PartAt(a, b, i)
    ensures Less(a, b)
    decreases i
  {
    if i == 0 {
      LessMeans(a, b);
    } else {
      assert a[0] == a[..i][0] == b[..i][0] == b[0];
      assert a[1..][..i - 1] == a[..i][1..] && b[1..][..i - 1] == b[..i][1..];
      PartsLess(a[1..], b[1..], i - 1);
    }
  }

  /** The order of the keys is that of their bytes. */
  lemma ByteOrder()
    ensures forall a, b {:trigger Less(a, b)} {:trigger Precedes(a, b)} :: Less(a, b) <==> Precedes(a, b)
    ensures Less([0x61], [0x62]) && Less([0x61], [0x61, 0x61]) && Less([], [0x61]) && !Less([0x62], [0x61])
  {
    hide Less, PartAt;
    forall a, b ensures Less(a, b) <==> Precedes(a, b) {
      if Less(a, b) {
        var i := LessParts(a, b);
      }
      if Precedes(a, b) {
        var i: nat :| PartAt(a, b, i);
        PartsLess(a, b, i);
      }
    }
    SomeKeys();
  }

  lemma SomeKeys()
    ensures Less([0x61], [0x62]) && Less([0x61], [0x61, 0x61]) && Less([], [0x61]) && !Less([0x62], [0x61])
  {
  }
}
