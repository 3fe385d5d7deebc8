/** The scanner's double-quoted branch: what it reads from any text, and the loops that read it. */
module YamlScanning {
  import opened Keys
  import opened Options
  import opened YamlChars

  datatype ScanError = DocumentIndicator | EndOfStream | UnknownEscape | NotHexadecimal | BadCode | InvalidSequence

  datatype Scanned = Value(value: Bytes, pos: nat, column: nat) | Refused(error: ScanError)

  // ---------- what the text at a position means ----------

  /** Three dashes or dots on their own; they end a document when they start a line. */
  predicate IndicatorAt(b: Bytes, i: nat) {
    && ((ByteAt(b, i) == 0x2D && ByteAt(b, i + 1) == 0x2D && ByteAt(b, i + 2) == 0x2D)
      || (ByteAt(b, i) == 0x2E && ByteAt(b, i + 1) == 0x2E && ByteAt(b, i + 2) == 0x2E))
    && IsBlankzAt(b, i + 3)
  }

  function BreakWidth(b: Bytes, i: nat): (w: nat)
    requires IsBreakAt(b, i)
    ensures 1 <= w <= 3
  {
    if ByteAt(b, i) == 0x0D && ByteAt(b, i + 1) == 0x0A then 2 else Width(ByteAt(b, i))
  }

  /** A break counts as a line feed, except a line or paragraph separator. */
  function BreakValue(b: Bytes, i: nat): Bytes
    requires IsBreakAt(b, i)
  {
    if ByteAt(b, i) == 0xE2 then CharAt(b, i, 3) else [0x0A]
  }

  function CharAt(b: Bytes, i: nat, w: nat): Bytes {
    seq<Byte>(w, k requires 0 <= k < w => ByteAt(b, i + k))
  }

  predicate IsHexAt(b: Bytes, i: nat) {
    var x := ByteAt(b, i);
    0x30 <= x <= 0x39 || 0x41 <= x <= 0x46 || 0x61 <= x <= 0x66
  }

  function AsHex(b: Bytes, i: nat): (d: nat)
    requires IsHexAt(b, i)
    ensures d < 16
  {
    var x := ByteAt(b, i);
    if 0x41 <= x <= 0x46 then x - 0x41 + 10 else if 0x61 <= x <= 0x66 then x - 0x61 + 10 else x - 0x30
  }

  /** The n hexadecimal digits at i, after digits worth v. */
  function CodeAt(b: Bytes, i: nat, n: nat, v: nat): Opt<nat>
    decreases n
  {
    if n == 0 then Some(v)
    else if IsHexAt(b, i) then CodeAt(b, i + 1, n - 1, v * 16 + AsHex(b, i))
    else None
  }

  datatype EscapeKind = Simple(value: Bytes) | Code(length: nat) | Unknown

  function KindOf(e: Byte): EscapeKind {
    if e == 0x30 then Simple([0x00]) else if e == 0x61 then Simple([0x07]) else if e == 0x62 then Simple([0x08])
    else if e == 0x74 || e == 0x09 then Simple([0x09]) else if e == 0x6E then Simple([0x0A])
    else if e == 0x76 then Simple([0x0B]) else if e == 0x66 then Simple([0x0C]) else if e == 0x72 then Simple([0x0D])
    else if e == 0x65 then Simple([0x1B]) else if e == 0x20 then Simple([0x20]) else if e == 0x22 then Simple([0x22])
    else if e == 0x27 then Simple([0x27]) else if e == 0x5C then Simple([0x5C])
    else if e == 0x4E then Simple([0xC2, 0x85]) else if e == 0x5F then Simple([0xC2, 0xA0])
    else if e == 0x4C then Simple([0xE2, 0x80, 0xA8]) else if e == 0x50 then Simple([0xE2, 0x80, 0xA9])
    else if e == 0x78 then Code(2) else if e == 0x75 then Code(4) else if e == 0x55 then Code(8)
    else Unknown
  }

  datatype Escape = Escaped(value: Bytes, width: nat) | Bad(error: ScanError)

  /** The escape sequence whose backslash is at i. */
  function EscapeAt(b: Bytes, i: nat): (e: Escape)
    ensures e.Escaped? ==> e.width >= 2
  {
    match KindOf(ByteAt(b, i + 1))
    case Simple(value) => Escaped(value, 2)
    case Unknown => Bad(UnknownEscape)
    case Code(n) =>
      match CodeAt(b, i + 2, n, 0)
      case None => Bad(NotHexadecimal)
      case Some(v) => if 0xD800 <= v <= 0xDFFF || v > 0x10FFFF then Bad(BadCode) else Escaped(Utf8(v), 2 + n)
  }

  // ---------- stretches of text and of blanks ----------

  /** Where the non-blank text stopped; broken says that an escaped line break stopped it. */
  datatype Text = Stopped(pos: nat, column: nat, value: Bytes, broken: bool) | Failed(error: ScanError)

  /** How much of the text is left. */
  function Left(b: Bytes, i: nat): nat {
    if i < |b| then |b| - i else 0
  }

  predicate StopAt(b: Bytes, i: nat) {
    IsBlankzAt(b, i) || ByteAt(b, i) == QUOTE
  }

  /** The text from pos on, after a value s. */
  function TextFrom(b: Bytes, pos: nat, column: nat, s: Bytes): (t: Text)
    ensures t.Stopped? ==> t.pos >= pos && (t.pos == pos ==> StopAt(b, pos))
    decreases Left(b, pos)
  {
    if StopAt(b, pos) then Stopped(pos, column, s, false)
    else if ByteAt(b, pos) == BACKSLASH then
      if IsBreakAt(b, pos + 1) then Stopped(pos + 1 + BreakWidth(b, pos + 1), 0, s, true)
      else
        match EscapeAt(b, pos)
        case Bad(error) => Failed(error)
        case Escaped(value, w) => TextFrom(b, pos + w, column + w, s + value)
    else
      var w := Width(ByteAt(b, pos));
      if w == 0 then Failed(InvalidSequence) else TextFrom(b, pos + w, column + 1, s + CharAt(b, pos, w))
  }

  /** A stretch of blanks and line breaks: the blanks before a break, the first break and the others. */
  datatype Gap = Gap(pos: nat, column: nat, leading: bool, blanks: Bytes, first: Bytes, others: Bytes)

  predicate InGapAt(b: Bytes, i: nat) {
    IsBlankAt(b, i) || IsBreakAt(b, i)
  }

  /** One blank or line break more. */
  function Wider(b: Bytes, g: Gap): (r: Gap)
    requires InGapAt(b, g.pos)
    ensures r.pos > g.pos
  {
    if IsBlankAt(b, g.pos) then
      g.(pos := g.pos + 1, column := g.column + 1, blanks := if g.leading then g.blanks else g.blanks + [ByteAt(b, g.pos)])
    else
      var at, line := g.pos + BreakWidth(b, g.pos), BreakValue(b, g.pos);
      if g.leading then g.(pos := at, column := 0, others := g.others + line)
      else Gap(at, 0, true, [], g.first + line, g.others)
  }

  function GapFrom(b: Bytes, g: Gap): (r: Gap)
    ensures r.pos >= g.pos && (r.pos == g.pos <==> !InGapAt(b, g.pos)) && !InGapAt(b, r.pos)
    decreases Left(b, g.pos)
  {
    if InGapAt(b, g.pos) then GapFrom(b, Wider(b, g)) else g
  }

  /** Line folding (section 6.5 of YAML 1.2): one break becomes a space, of more the first one is dropped. */
  function Joined(g: Gap): Bytes {
    if !g.leading then g.blanks
    else if g.first != [] && g.first[0] == 0x0A then (if g.others == [] then [SPACE] else g.others)
    else g.first + g.others
  }

  // ---------- the whole scalar ----------

  /** The scalar from the start of a stretch of text on, after a value s. */
  function ScalarFrom(b: Bytes, pos: nat, column: nat, s: Bytes): Scanned
    decreases Left(b, pos), 1
  {
    if column == 0 && IndicatorAt(b, pos) then Refused(DocumentIndicator)
    else if ByteAt(b, pos) == 0 then Refused(EndOfStream)
    else AfterText(b, TextFrom(b, pos, column, s))
  }

  /** The scalar from the end of a stretch of text on. */
  function AfterText(b: Bytes, t: Text): Scanned
    decreases if t.Stopped? then Left(b, t.pos) else 0, if t.Stopped? && !InGapAt(b, t.pos) && ByteAt(b, t.pos) != QUOTE then 2 else 0
  {
    match t
    case Failed(error) => Refused(error)
    case Stopped(pos, column, value, broken) =>
      if ByteAt(b, pos) == QUOTE then Value(value, pos + 1, column + 1)
      else
        var g := GapFrom(b, Gap(pos, column, broken, [], [], []));
        ScalarFrom(b, g.pos, g.column, value + Joined(g))
  }

  // ---------- the scanner ----------

  class Scanner {
    const buffer: Bytes
    var pos: nat
    var column: nat

    constructor (buffer: Bytes, pos: nat, column: nat)
      ensures this.buffer == buffer && this.pos == pos && this.column == column
    {
      this.buffer, this.pos, this.column := buffer, pos, column;
    }

    /** skip, for the one-byte characters it is called on */
    method Skip()
      requires Width(ByteAt(buffer, pos)) == 1
      modifies this
      ensures pos == old(pos) + 1 && column == old(column) + 1
    {
      pos, column := pos + Width(ByteAt(buffer, pos)), column + 1;
    }

    /** skip_line */
    method SkipLine()
      requires IsBreakAt(buffer, pos)
      modifies this
      ensures pos == old(pos) + BreakWidth(buffer, old(pos)) && column == 0
    {
      if ByteAt(buffer, pos) == 0x0D && ByteAt(buffer, pos + 1) == 0x0A {
        pos, column := pos + 2, 0;
      } else {
        pos, column := pos + Width(ByteAt(buffer, pos)), 0;
      }
    }

    /** read */
    method Read(s: Bytes) returns (r: Bytes)
      requires Width(ByteAt(buffer, pos)) > 0
      modifies this
      ensures var w := Width(ByteAt(buffer, old(pos)));
        r == s + CharAt(buffer, old(pos), w) && pos == old(pos) + w && column == old(column) + 1
    {
      var w := Width(ByteAt(buffer, pos));
      r := s;
      var k := 0;
      while k < w
        invariant k <= w && r == s + CharAt(buffer, pos, k)
        invariant pos == old(pos) && column == old(column)
      {
        r := r + [ByteAt(buffer, pos + k)];
        assert CharAt(buffer, pos, k + 1) == CharAt(buffer, pos, k) + [ByteAt(buffer, pos + k)];
        k := k + 1;
      }
      pos, column := pos + w, column + 1;
    }

    /** read_line */
    method ReadLine(s: Bytes) returns (r: Bytes)
      requires IsBreakAt(buffer, pos)
      modifies this
      ensures r == s + BreakValue(buffer, old(pos)) && pos == old(pos) + BreakWidth(buffer, old(pos)) && column == 0
    {
      var x, y := ByteAt(buffer, pos), ByteAt(buffer, pos + 1);
      if x == 0x0D && y == 0x0A {
        r, pos := s + [0x0A], pos + 2;
      } else if x == 0x0D || x == 0x0A {
        r, pos := s + [0x0A], pos + 1;
      } else if x == 0xC2 && y == 0x85 {
        r, pos := s + [0x0A], pos + 2;
      } else {
        assert CharAt(buffer, pos, 3) == [x, y, ByteAt(buffer, pos + 2)];
        r, pos := s + [x, y, ByteAt(buffer, pos + 2)], pos + 3;
      }
      column := 0;
    }

    /** scan_flow_scalar for a double quote */
    method ScanFlowScalar() returns (r: Scanned)
      requires ByteAt(buffer, pos) == QUOTE
      modifies this
      ensures r == ScalarFrom(buffer, old(pos) + 1, old(column) + 1, [])
      ensures r.Value? ==> pos == r.pos && column == r.column
    {
      hide TextFrom, GapFrom, IndicatorAt, Joined, IsBlankzAt, IsBreakAt;
      Skip();
      var s := [];
      ghost var spec := ScalarFrom(buffer, pos, column, s);
      while true
        invariant spec == ScalarFrom(buffer, pos, column, s)
        decreases Left(buffer, pos)
      {
        if column == 0 && IndicatorAt(buffer, pos) {
          return Refused(DocumentIndicator);
        }
        if ByteAt(buffer, pos) == 0 {
          return Refused(EndOfStream);
        }
        Progress(buffer, pos, column, s);
        var leading, error;
        s, leading, error := ScanText(s);
        if error.Some? {
          return Refused(error.value);
        }
        if ByteAt(buffer, pos) == QUOTE {
          break;
        }
        var joined := ScanGap(leading);
        s := s + joined;
      }
      Skip();
      r := Value(s, pos, column);
    }

    /** Consume non-blank characters; leading tells of an escaped line break. */
    method ScanText(s: Bytes) returns (value: Bytes, leading: bool, error: Opt<ScanError>)
      modifies this
      ensures TextFrom(buffer, old(pos), old(column), s)
        == if error.Some? then Failed(error.value) else Stopped(pos, column, value, leading)
    {
      hide IsBreakAt, EscapeAt;
      value, leading, error := s, false, None;
      while !IsBlankzAt(buffer, pos)
        invariant TextFrom(buffer, old(pos), old(column), s) == TextFrom(buffer, pos, column, value)
        invariant !leading && error.None?
        decreases Left(buffer, pos)
      {
        if ByteAt(buffer, pos) == QUOTE {
          break;
        } else if ByteAt(buffer, pos) == BACKSLASH && IsBreakAt(buffer, pos + 1) {
          Skip();
          SkipLine();
          leading := true;
          return;
        } else if ByteAt(buffer, pos) == BACKSLASH {
          value, error := ScanEscape(value);
          if error.Some? {
            return;
          }
        } else {
          if Width(ByteAt(buffer, pos)) == 0 {
            error := Some(InvalidSequence);
            return;
          }
          value := Read(value);
        }
      }
    }

    /** Consume an escape sequence. */
    method ScanEscape(s: Bytes) returns (value: Bytes, error: Opt<ScanError>)
      requires ByteAt(buffer, pos) == BACKSLASH
      modifies this
      ensures match EscapeAt(buffer, old(pos))
        case Bad(e) => error == Some(e)
        case Escaped(v, w) => error.None? && value == s + v && pos == old(pos) + w && column == old(column) + w
    {
      hide KindOf, ByteAt, CodeAt, Utf8;
      value, error := s, None;
      var kind := KindOf(ByteAt(buffer, pos + 1));
      if kind.Unknown? {
        error := Some(UnknownEscape);
        return;
      }
      PlainLetter(ByteAt(buffer, pos + 1));
      Skip();
      Skip();
      if kind.Simple? {
        value := s + kind.value;
      } else {
        var v := ScanCode(kind.length);
        if v.None? {
          error := Some(NotHexadecimal);
        } else if 0xD800 <= v.value <= 0xDFFF || v.value > 0x10FFFF {
          error := Some(BadCode);
        } else {
          value := s + Utf8(v.value);
          pos, column := pos + kind.length, column + kind.length;
        }
      }
    }

    /** The value of the next n hexadecimal digits. */
    method ScanCode(n: nat) returns (code: Opt<nat>)
      ensures code == CodeAt(buffer, pos, n, 0)
    {
      var v: nat, k: nat := 0, 0;
      while k < n
        invariant k <= n && CodeAt(buffer, pos, n, 0) == CodeAt(buffer, pos + k, n - k, v)
      {
        if !IsHexAt(buffer, pos + k) {
          return None;
        }
        v := v * 16 + AsHex(buffer, pos + k);
        k := k + 1;
      }
      code := Some(v);
    }

    /** Consume blanks and line breaks, and join them. */
    method ScanGap(leadingBlanks: bool) returns (joined: Bytes)
      modifies this
      ensures var g := GapFrom(buffer, Gap(old(pos), old(column), leadingBlanks, [], [], []));
        joined == Joined(g) && pos == g.pos && column == g.column
    {
      hide IsBreakAt, BreakWidth, BreakValue, GapFrom, Wider;
      var leading, blanks, first, others := leadingBlanks, [], [], [];
      ghost var spec := GapFrom(buffer, Gap(pos, column, leading, blanks, first, others));
      while IsBlankAt(buffer, pos) || IsBreakAt(buffer, pos)
        invariant spec == GapFrom(buffer, Gap(pos, column, leading, blanks, first, others))
        decreases Left(buffer, pos)
      {
        OneWider(buffer, Gap(pos, column, leading, blanks, first, others));
        if IsBlankAt(buffer, pos) {
          if !leading {
            blanks := Read(blanks);
          } else {
            Skip();
          }
        } else if !leading {
          blanks := [];
          first := ReadLine(first);
          leading := true;
        } else {
          others := ReadLine(others);
        }
      }
      OneWider(buffer, Gap(pos, column, leading, blanks, first, others));
      if leading {
        if |first| > 0 && first[0] == 0x0A {
          joined := if |others| == 0 then [SPACE] else others;
        } else {
          joined := first + others;
        }
      } else {
        joined := blanks;
      }
    }
  }

  lemma PlainLetter(e: Byte)
    requires !KindOf(e).Unknown?
    ensures Width(e) == 1 && Width(BACKSLASH) == 1
  {
  }

  /** A gap may take one blank or break in at a time. */
  lemma OneWider(b: Bytes, g: Gap)
    ensures !InGapAt(b, g.pos) ==> GapFrom(b, g) == g
    ensures InGapAt(b, g.pos) ==> g.pos < |b| && Wider(b, g).pos > g.pos && GapFrom(b, g) == GapFrom(b, Wider(b, g))
    ensures IsBlankAt(b, g.pos) ==>
      Wider(b, g) == Gap(g.pos + 1, g.column + 1, g.leading, if g.leading then g.blanks else g.blanks + CharAt(b, g.pos, 1), g.first, g.others)
    ensures InGapAt(b, g.pos) && !IsBlankAt(b, g.pos) ==>
      var at, line := g.pos + BreakWidth(b, g.pos), BreakValue(b, g.pos);
      Wider(b, g) == if g.leading then Gap(at, 0, true, g.blanks, g.first, g.others + line) else Gap(at, 0, true, [], g.first + line, g.others)
  {
    hide BreakWidth, BreakValue;
    assert CharAt(b, g.pos, 1) == [ByteAt(b, g.pos)];
  }

  /** Text and gap together move on, unless the scalar ends. */
  lemma Progress(b: Bytes, pos: nat, column: nat, s: Bytes)
    requires ByteAt(b, pos) != 0
    ensures match TextFrom(b, pos, column, s)
      case Failed(_) => true
      case Stopped(p, c, _, broken) =>
        ByteAt(b, p) == QUOTE || Left(b, GapFrom(b, Gap(p, c, broken, [], [], [])).pos) < Left(b, pos)
  {
    hide IsBlankAt, IsBreakAt;
  }
}
