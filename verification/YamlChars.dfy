/** Characters of YAML text: code points, their UTF-8 form, and the byte classes the emitter and the scanner test. */
module YamlChars {
  import opened Keys

  /** A Unicode scalar value. */
  type Char = c: nat | c < 0xD800 || 0xE000 <= c < 0x11_0000

  const SPACE: Char := 0x20
  const QUOTE: Char := 0x22
  const BACKSLASH: Char := 0x5C

  /** The UTF-8 form of a character (RFC 3629, section 3). */
  function Utf8(c: Char): (s: Bytes)
    ensures 1 <= |s| <= 4
  {
    if c < 0x80 then [c]
    else if c < 0x800 then [0xC0 + c / 64, 0x80 + c % 64]
    else if c < 0x1_0000 then [0xE0 + c / 64 / 64, 0x80 + c / 64 % 64, 0x80 + c % 64]
    else
      assert c / 64 / 64 < 272 by { TopBits(c); }
      [0xF0 + c / 64 / 64 / 64, 0x80 + c / 64 / 64 % 64, 0x80 + c / 64 % 64, 0x80 + c % 64]
  }

  lemma TopBits(c: nat)
    requires c < 0x11_0000
    ensures c / 64 < 17408 && c / 64 / 64 < 272 && c / 64 / 64 / 64 < 5
  {
  }

  function EncodeAll(cs: seq<Char>): Bytes {
    if cs == [] then [] else EncodeAll(cs[..|cs| - 1]) + Utf8(cs[|cs| - 1])
  }

  lemma {:induction false} EncodeConcat(a: seq<Char>, b: seq<Char>)
    ensures EncodeAll(a + b) == EncodeAll(a) + EncodeAll(b)
    decreases |b|
  {
    hide Utf8;
    if b == [] {
      assert a + b == a;
    } else {
      EncodeConcat(a, b[..|b| - 1]);
      assert (a + b)[..|a + b| - 1] == a + b[..|b| - 1];
    }
  }

  lemma EncodeOne(c: Char)
    ensures EncodeAll([c]) == Utf8(c)
  {
    assert [c][..0] == [];
  }

  // ---------- bytes ----------

  /** The text is read as if NULs followed it. */
  function ByteAt(b: Bytes, i: nat): Byte {
    if i < |b| then b[i] else 0
  }

  /** The text has s at position i. */
  ghost predicate HasAt(b: Bytes, i: nat, s: Bytes) {
    i + |s| <= |b| && b[i..i + |s|] == s
  }

  lemma HasByte(b: Bytes, i: nat, s: Bytes, k: nat)
    requires HasAt(b, i, s) && k < |s|
    ensures ByteAt(b, i + k) == s[k]
  {
    assert b[i..i + |s|][k] == b[i + k];
  }

  /** The bytes of a character, one by one. */
  lemma CharBytes(b: Bytes, i: nat, c: Char)
    requires HasAt(b, i, Utf8(c))
    ensures ByteAt(b, i) == Utf8(c)[0]
    ensures |Utf8(c)| > 1 ==> ByteAt(b, i + 1) == Utf8(c)[1]
    ensures |Utf8(c)| > 2 ==> ByteAt(b, i + 2) == Utf8(c)[2]
    ensures |Utf8(c)| > 3 ==> ByteAt(b, i + 3) == Utf8(c)[3]
  {
    hide Utf8;
    HasByte(b, i, Utf8(c), 0);
    if |Utf8(c)| > 1 { HasByte(b, i, Utf8(c), 1); }
    if |Utf8(c)| > 2 { HasByte(b, i, Utf8(c), 2); }
    if |Utf8(c)| > 3 { HasByte(b, i, Utf8(c), 3); }
  }

  lemma HasSplit(b: Bytes, i: nat, s: Bytes, t: Bytes)
    requires HasAt(b, i, s + t)
    ensures HasAt(b, i, s) && HasAt(b, i + |s|, t)
  {
    var whole := b[i..i + |s + t|];
    assert b[i..i + |s|] == whole[..|s|] == s;
    assert b[i + |s|..i + |s| + |t|] == whole[|s|..] == t;
  }

  /** Width of the character a byte starts; 0 for a byte that starts none. */
  function Width(b: Byte): nat {
    if b < 0x80 then 1
    else if 0xC0 <= b < 0xE0 then 2
    else if 0xE0 <= b < 0xF0 then 3
    else if 0xF0 <= b < 0xF8 then 4
    else 0
  }

  predicate IsPrintableAt(b: Bytes, i: nat) {
    var x, y, z := ByteAt(b, i), ByteAt(b, i + 1), ByteAt(b, i + 2);
    || x == 0x0A || 0x20 <= x <= 0x7E
    || (x == 0xC2 && y >= 0xA0) || 0xC2 < x < 0xED || (x == 0xED && y < 0xA0) || x == 0xEE
    || (x == 0xEF && !(y == 0xBB && z == 0xBF) && !(y == 0xBF && (z == 0xBE || z == 0xBF)))
  }

  predicate IsBreakAt(b: Bytes, i: nat) {
    var x, y, z := ByteAt(b, i), ByteAt(b, i + 1), ByteAt(b, i + 2);
    || x == 0x0D || x == 0x0A || (x == 0xC2 && y == 0x85)
    || (x == 0xE2 && y == 0x80 && (z == 0xA8 || z == 0xA9))
  }

  predicate IsBlankAt(b: Bytes, i: nat) {
    ByteAt(b, i) == 0x20 || ByteAt(b, i) == 0x09
  }

  predicate IsBlankzAt(b: Bytes, i: nat) {
    IsBlankAt(b, i) || IsBreakAt(b, i) || ByteAt(b, i) == 0
  }

  /** Looks at the beginning of the text, whatever the position. */
  predicate IsBom(b: Bytes) {
    ByteAt(b, 0) == 0xEF && ByteAt(b, 1) == 0xBB && ByteAt(b, 2) == 0xBF
  }

  // ---------- what the byte classes mean ----------

  predicate Printable(c: Char) {
    c == 0x0A || 0x20 <= c <= 0x7E || 0xA0 <= c <= 0xD7FF || (0xE000 <= c <= 0xFFFD && c != 0xFEFF)
  }

  predicate IsBreakChar(c: Char) {
    c == 0x0A || c == 0x0D || c == 0x85 || c == 0x2028 || c == 0x2029
  }

  /** At the start of a character the byte tests tell what they are meant to. */
  lemma ClassesAt(b: Bytes, i: nat, c: Char)
    requires HasAt(b, i, Utf8(c))
    ensures IsPrintableAt(b, i) <==> Printable(c)
    ensures IsBreakAt(b, i) <==> IsBreakChar(c)
    ensures IsBlankzAt(b, i) <==> c == 0x20 || c == 0x09 || c == 0 || IsBreakChar(c)
    ensures Width(ByteAt(b, i)) == |Utf8(c)|
    ensures ByteAt(b, i) <= 0x7F <==> c <= 0x7F
    ensures ByteAt(b, i) == 0x20 <==> c == 0x20
    ensures ByteAt(b, i) == 0x22 <==> c == 0x22
    ensures ByteAt(b, i) == 0x5C <==> c == 0x5C
    ensures ByteAt(b, i) == 0x2D <==> c == 0x2D
    ensures ByteAt(b, i) == 0x2E <==> c == 0x2E
  {
    hide HasAt, ByteAt;
    TopBits(c);
    CharBytes(b, i, c);
  }

  lemma BomAt(cs: seq<Char>)
    requires cs != []
    ensures IsBom(EncodeAll(cs)) <==> cs[0] == 0xFEFF
  {
    hide Utf8;
    EncodeConcat([cs[0]], cs[1..]);
    EncodeOne(cs[0]);
    assert cs == [cs[0]] + cs[1..];
    assert HasAt(EncodeAll(cs), 0, Utf8(cs[0]));
    BomBytes(EncodeAll(cs), cs[0]);
  }

  lemma BomBytes(b: Bytes, c: Char)
    requires HasAt(b, 0, Utf8(c))
    ensures IsBom(b) <==> c == 0xFEFF
  {
    hide HasAt, ByteAt;
    CharBytes(b, 0, c);
  }

  /** The value the emitter puts together from the bytes of a character. */
  function Gather(b: Bytes, i: nat, w: nat): nat
    requires 1 <= w <= 4
  {
    var x := ByteAt(b, i);
    if w == 1 then x % 0x80
    else if w == 2 then x % 0x20 * 64 + ByteAt(b, i + 1) % 64
    else if w == 3 then (x % 0x10 * 64 + ByteAt(b, i + 1) % 64) * 64 + ByteAt(b, i + 2) % 64
    else ((x % 0x08 * 64 + ByteAt(b, i + 1) % 64) * 64 + ByteAt(b, i + 2) % 64) * 64 + ByteAt(b, i + 3) % 64
  }

  lemma GatherAt(b: Bytes, i: nat, c: Char)
    requires HasAt(b, i, Utf8(c))
    ensures Gather(b, i, |Utf8(c)|) == c
  {
    hide HasAt, ByteAt;
    CharBytes(b, i, c);
    TopBits(c);
    Recompose(c);
    LowBits(c % 64);
    LowBits(c / 64 % 64);
    LowBits(c / 64 / 64 % 64);
    HighBits(c);
  }

  /** A continuation byte gives back its six bits, a first byte its own. */
  lemma LowBits(d: nat)
    requires d < 64
    ensures (0x80 + d) % 64 == d
  {
  }

  lemma HighBits(c: Char)
    ensures c < 0x800 ==> (0xC0 + c / 64) % 0x20 == c / 64
    ensures c < 0x1_0000 ==> (0xE0 + c / 64 / 64) % 0x10 == c / 64 / 64
    ensures (0xF0 + c / 64 / 64 / 64) % 0x08 == c / 64 / 64 / 64
  {
    TopBits(c);
  }

  lemma Recompose(c: nat)
    ensures c == c / 64 * 64 + c % 64
    ensures c / 64 == c / 64 / 64 * 64 + c / 64 % 64
    ensures c / 64 / 64 == c / 64 / 64 / 64 * 64 + c / 64 / 64 % 64
  {
  }
}
