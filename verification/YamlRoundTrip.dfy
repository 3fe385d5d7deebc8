/** Scanning what the emitter wrote: exactly when the double-quoted form gives the value back. */
module YamlRoundTrip {
  import opened Keys
  import opened Options
  import opened YamlChars
  import opened YamlQuoting
  import opened YamlScanning
  import opened YamlEmitting

  /** A piece the scanner reads as text; the others are blanks and line breaks. */
  predicate IsText(p: Piece) {
    p.Esc? || p.SlashSpace? || (p.Raw? && p.c != SPACE)
  }

  /** The pieces begin with three dashes or dots on their own. */
  predicate StartsIndicator(ps: seq<Piece>) {
    && |ps| >= 4 && !IsText(ps[3])
    && ((ps[0] == Raw(0x2D) && ps[1] == Raw(0x2D) && ps[2] == Raw(0x2D))
      || (ps[0] == Raw(0x2E) && ps[1] == Raw(0x2E) && ps[2] == Raw(0x2E)))
  }

  /** A line folded without indentation begins with a document indicator. */
  predicate Interrupted(ps: seq<Piece>, cfg: Config) {
    ps != [] && ((ps[0].Fold? && IndentOf(cfg) == 0 && StartsIndicator(ps[1..])) || Interrupted(ps[1..], cfg))
  }

  /** The pieces and the closing quote are at i. */
  ghost predicate Laid(b: Bytes, i: nat, ps: seq<Piece>, cfg: Config) {
    HasAt(b, i, RenderAll(ps, cfg) + [QUOTE]) && PiecesOk(ps)
  }

  // ---------- the first piece ----------

  lemma Peel(b: Bytes, i: nat, ps: seq<Piece>, cfg: Config)
    requires Laid(b, i, ps, cfg) && ps != []
    ensures HasAt(b, i, Render(ps[0], cfg)) && PieceOk(ps[0])
    ensures Laid(b, i + |Render(ps[0], cfg)|, ps[1..], cfg)
    ensures |RenderAll(ps, cfg)| == |Render(ps[0], cfg)| + |RenderAll(ps[1..], cfg)|
    ensures ps[0].Fold? && |ps| > 1 ==> ps[1] != Raw(SPACE) && !ps[1].Fold?
    ensures ps[0] == Raw(SPACE) && |ps| > 1 ==> !ps[1].Fold?
  {
    hide Render, RenderAll, HasAt, PieceOk;
    var p, rest := ps[0], ps[1..];
    assert ps == [p] + rest;
    RenderConcat([p], rest, cfg);
    RenderOne(p, cfg);
    assert RenderAll(ps, cfg) + [QUOTE] == Render(p, cfg) + (RenderAll(rest, cfg) + [QUOTE]);
    HasSplit(b, i, Render(p, cfg), RenderAll(rest, cfg) + [QUOTE]);
  }

  lemma AtEnd(b: Bytes, i: nat, ps: seq<Piece>, cfg: Config)
    requires Laid(b, i, ps, cfg) && ps == []
    ensures ByteAt(b, i) == QUOTE && |RenderAll(ps, cfg)| == 0
  {
    HasByte(b, i, RenderAll(ps, cfg) + [QUOTE], 0);
  }

  /** What the first byte of a piece tells. */
  lemma FirstByte(b: Bytes, i: nat, p: Piece, cfg: Config)
    requires HasAt(b, i, Render(p, cfg)) && PieceOk(p)
    ensures ByteAt(b, i) != 0 && ByteAt(b, i) != QUOTE
    ensures ByteAt(b, i) == BACKSLASH <==> p.Esc? || p.SlashSpace?
    ensures IsBlankzAt(b, i) <==> !IsText(p)
    ensures ByteAt(b, i) == 0x2D <==> p == Raw(0x2D)
    ensures ByteAt(b, i) == 0x2E <==> p == Raw(0x2E)
  {
    hide Utf8, HasAt, ByteAt, Hex, EscapeBody;
    HasByte(b, i, Render(p, cfg), 0);
    if p.Raw? {
      ClassesAt(b, i, p.c);
    }
  }

  /** The same for the rest of the scalar. */
  lemma FirstOf(b: Bytes, i: nat, ps: seq<Piece>, cfg: Config)
    requires Laid(b, i, ps, cfg)
    ensures ByteAt(b, i) != 0 && (ByteAt(b, i) == QUOTE <==> ps == [])
    ensures IsBlankzAt(b, i) <==> ps != [] && !IsText(ps[0])
    ensures ByteAt(b, i) == 0x2D <==> ps != [] && ps[0] == Raw(0x2D)
    ensures ByteAt(b, i) == 0x2E <==> ps != [] && ps[0] == Raw(0x2E)
  {
    hide Render, HasAt, ByteAt, RenderAll, PiecesOk, IsText;
    if ps == [] {
      AtEnd(b, i, ps, cfg);
    } else {
      Peel(b, i, ps, cfg);
      FirstByte(b, i, ps[0], cfg);
    }
  }

  lemma {:induction false} IndicatorMeans(b: Bytes, i: nat, ps: seq<Piece>, cfg: Config)
    requires Laid(b, i, ps, cfg)
    ensures IndicatorAt(b, i) <==> StartsIndicator(ps)
  {
    hide ByteAt, IsBlankzAt, IsText, Laid, RenderAll;
    FirstOf(b, i, ps, cfg);
    if ps != [] && (ps[0] == Raw(0x2D) || ps[0] == Raw(0x2E)) {
      NextMark(b, i, ps, cfg);
      FirstOf(b, i + 1, ps[1..], cfg);
      if |ps| > 1 && (ps[1] == Raw(0x2D) || ps[1] == Raw(0x2E)) {
        NextMark(b, i + 1, ps[1..], cfg);
        FirstOf(b, i + 2, ps[2..], cfg);
        if |ps| > 2 && (ps[2] == Raw(0x2D) || ps[2] == Raw(0x2E)) {
          NextMark(b, i + 2, ps[2..], cfg);
          FirstOf(b, i + 3, ps[3..], cfg);
        }
      }
    }
  }

  lemma NextMark(b: Bytes, i: nat, ps: seq<Piece>, cfg: Config)
    requires Laid(b, i, ps, cfg) && ps != [] && (ps[0] == Raw(0x2D) || ps[0] == Raw(0x2E))
    ensures Laid(b, i + 1, ps[1..], cfg)
    ensures |ps| > 1 ==> ps[1..][1..] == ps[2..]
    ensures |ps| > 2 ==> ps[2..][1..] == ps[3..]
  {
    hide RenderAll, HasAt, PiecesOk;
    Peel(b, i, ps, cfg);
  }

  // ---------- escapes ----------

  function Power16(n: nat): nat {
    if n == 0 then 1 else Power16(n - 1) * 16
  }

  lemma {:induction false} HexBack(b: Bytes, i: nat, v: nat, w: nat, rest: nat)
    requires HasAt(b, i, Hex(v, w)) && v < Power16(w)
    ensures CodeAt(b, i, w + rest, 0) == CodeAt(b, i + w, rest, v)
    decreases w
  {
    if w == 0 {
    } else {
      HasSplit(b, i, Hex(v / 16, w - 1), [HexDigit(v % 16)]);
      HasByte(b, i + w - 1, [HexDigit(v % 16)], 0);
      HexBack(b, i, v / 16, w - 1, rest + 1);
      DigitBack(b, i + w - 1, v % 16);
    }
  }

  lemma DigitBack(b: Bytes, i: nat, d: nat)
    requires d < 16 && ByteAt(b, i) == HexDigit(d)
    ensures IsHexAt(b, i) && AsHex(b, i) == d
  {
  }

  lemma Fits(c: Char)
    ensures c < Power16(NumericForm(c).1)
  {
    assert Power16(2) == 0x100;
    assert Power16(4) == Power16(2) * 0x100;
    assert Power16(8) == Power16(4) * 0x1_0000 by {
      assert Power16(6) == Power16(4) * 0x100;
    }
  }

  lemma LetterBack(c: Char)
    requires Letter(c).Some?
    ensures KindOf(Letter(c).value) == Simple(Utf8(c))
  {
  }

  /** An escape reads back as the character. */
  lemma EscapeBack(b: Bytes, i: nat, c: Char, cfg: Config)
    requires HasAt(b, i, Render(Esc(c), cfg))
    ensures EscapeAt(b, i) == Escaped(Utf8(c), |Render(Esc(c), cfg)|) && !IsBreakAt(b, i + 1)
  {
    hide Utf8, HasAt, ByteAt, Letter, NumericForm, Hex, KindOf, CodeAt;
    HasSplit(b, i, [BACKSLASH], EscapeBody(c));
    if Letter(c).Some? {
      HasByte(b, i + 1, EscapeBody(c), 0);
      LetterBack(c);
      LetterBytes(c);
    } else {
      var (letter, w) := NumericForm(c);
      HasSplit(b, i + 1, [letter], Hex(c, w));
      HasByte(b, i + 1, [letter], 0);
      Fits(c);
      HexBack(b, i + 2, c, w, 0);
      assert CodeAt(b, i + 2, w, 0) == CodeAt(b, i + 2 + w, 0, c);
      NumericKind(b, i + 2 + w, c);
    }
  }

  lemma NumericKind(b: Bytes, i: nat, c: Char)
    ensures KindOf(NumericForm(c).0) == Code(NumericForm(c).1) && 0x20 < NumericForm(c).0 < 0x80
    ensures CodeAt(b, i, 0, c) == Some(c)
  {
  }

  lemma LetterBytes(c: Char)
    requires Letter(c).Some?
    ensures 0x20 < Letter(c).value < 0x80
  {
  }

  // ---------- reading piece by piece ----------

  /** The column behind a piece of text. */
  function Past(p: Piece, column: nat, cfg: Config): nat {
    if p.Raw? then column + 1 else column + |Render(p, cfg)|
  }

  /** A piece of text is read as its meaning. */
  lemma ReadText(b: Bytes, i: nat, column: nat, s: Bytes, p: Piece, cfg: Config)
    requires HasAt(b, i, Render(p, cfg)) && PieceOk(p) && IsText(p)
    ensures TextFrom(b, i, column, s) == TextFrom(b, i + |Render(p, cfg)|, Past(p, column, cfg), s + Utf8(Meaning(p)))
  {
    hide Utf8, HasAt, IsBlankzAt, IsBreakAt, EscapeAt, EscapeBody;
    FirstByte(b, i, p, cfg);
    match p {
      case Raw(c) =>
        ClassesAt(b, i, c);
        SameChar(b, i, c);
      case Esc(c) =>
        EscapeBack(b, i, c, cfg);
      case SlashSpace =>
        SlashBack(b, i, cfg);
    }
  }

  lemma SameChar(b: Bytes, i: nat, c: Char)
    requires HasAt(b, i, Utf8(c))
    ensures CharAt(b, i, |Utf8(c)|) == Utf8(c)
  {
    hide Utf8;
    forall k | 0 <= k < |Utf8(c)| ensures ByteAt(b, i + k) == Utf8(c)[k] {
      HasByte(b, i, Utf8(c), k);
    }
  }

  lemma SlashBack(b: Bytes, i: nat, cfg: Config)
    requires HasAt(b, i, Render(SlashSpace, cfg))
    ensures EscapeAt(b, i) == Escaped(Utf8(SPACE), 2) && !IsBreakAt(b, i + 1)
  {
    HasByte(b, i, [BACKSLASH, SPACE], 1);
  }

  /** The bytes of a fold: the break is read as a whole, and the spaces end where the indentation does. */
  lemma FoldBytes(b: Bytes, i: nat, ps: seq<Piece>, cfg: Config)
    requires Laid(b, i, ps, cfg) && ps != [] && ps[0].Fold?
    ensures var eol, n := BreakBytes(cfg.lineBreak), IndentOf(cfg);
      && |Render(Fold, cfg)| == |eol| + n && HasAt(b, i + |eol|, Spaces(n))
      && ByteAt(b, i) == eol[0] && (|eol| > 1 ==> ByteAt(b, i + 1) == eol[1])
      && ByteAt(b, i + |eol|) != 0x0A && !InGapAt(b, i + |eol| + n)
  {
    hide Laid, Render, HasAt, ByteAt, IsText, InGapAt, IsBlankzAt, BreakBytes, RenderAll, PieceOk, IndentOf, Spaces;
    Peel(b, i, ps, cfg);
    var eol, n := BreakBytes(cfg.lineBreak), IndentOf(cfg);
    FoldShape(cfg);
    assert ps[1..] != [] ==> ps[1..][0] == ps[1];
    HasSplit(b, i, eol, Spaces(n));
    HasByte(b, i, eol, 0);
    if |eol| > 1 {
      HasByte(b, i, eol, 1);
    }
    GapEnds(b, i + |eol| + n, ps[1..], cfg);
    if n > 0 {
      HasByte(b, i + |eol|, Spaces(n), 0);
    }
  }

  lemma FoldShape(cfg: Config)
    ensures Render(Fold, cfg) == BreakBytes(cfg.lineBreak) + Spaces(IndentOf(cfg)) && 1 <= |BreakBytes(cfg.lineBreak)| <= 2
    ensures |Spaces(IndentOf(cfg))| == IndentOf(cfg) && (IndentOf(cfg) > 0 ==> Spaces(IndentOf(cfg))[0] == 0x20)
  {
  }

  lemma GapEnds(b: Bytes, i: nat, ps: seq<Piece>, cfg: Config)
    requires Laid(b, i, ps, cfg) && (ps != [] ==> ps[0] != Raw(SPACE) && !ps[0].Fold?)
    ensures !InGapAt(b, i) && ByteAt(b, i) != 0x0A
  {
    hide Laid, ByteAt;
    FirstOf(b, i, ps, cfg);
  }

  lemma BreakRead(b: Bytes, i: nat, lineBreak: LineBreak)
    requires var eol := BreakBytes(lineBreak);
      ByteAt(b, i) == eol[0] && (|eol| > 1 ==> ByteAt(b, i + 1) == eol[1]) && ByteAt(b, i + |eol|) != 0x0A
    ensures InGapAt(b, i) && !IsBlankAt(b, i)
    ensures BreakWidth(b, i) == |BreakBytes(lineBreak)| && BreakValue(b, i) == [0x0A]
  {
    hide ByteAt;
  }

  /** A folded line is read as one space, up to the column of the indentation. */
  lemma ReadFold(b: Bytes, i: nat, column: nat, ps: seq<Piece>, cfg: Config)
    requires Laid(b, i, ps, cfg) && ps != [] && ps[0].Fold?
    ensures var g := GapFrom(b, Gap(i, column, false, [], [], []));
      g.pos == i + |Render(Fold, cfg)| && g.column == IndentOf(cfg) && Joined(g) == [SPACE]
  {
    hide Laid, Render, HasAt, ByteAt, InGapAt, IsBlankAt, IsBreakAt, GapFrom, Wider, BreakWidth, BreakValue, BreakBytes;
    FoldBytes(b, i, ps, cfg);
    BreakRead(b, i, cfg.lineBreak);
    var eol, n := BreakBytes(cfg.lineBreak), IndentOf(cfg);
    var g, h := Gap(i, column, false, [], [], []), Gap(i + |eol|, 0, true, [], [0x0A], []);
    OneWider(b, g);
    assert [] + [0x0A] == [0x0A];
    SkipSpaces(b, h, n);
    OneWider(b, h.(pos := h.pos + n, column := n));
  }

  lemma {:induction false} SkipSpaces(b: Bytes, g: Gap, n: nat)
    requires HasAt(b, g.pos, Spaces(n)) && g.leading
    ensures GapFrom(b, g) == GapFrom(b, g.(pos := g.pos + n, column := g.column + n))
    decreases n
  {
    hide HasAt, ByteAt, GapFrom, Wider;
    if n > 0 {
      assert Spaces(n) == [SPACE] + Spaces(n - 1);
      HasSplit(b, g.pos, [SPACE], Spaces(n - 1));
      HasByte(b, g.pos, [SPACE], 0);
      OneWider(b, g);
      SkipSpaces(b, g.(pos := g.pos + 1, column := g.column + 1), n - 1);
    }
  }

  // ---------- the whole scalar ----------

  /** Reading the pieces after a value s gives them their meaning, unless a document indicator gets in the way. */
  ghost predicate Reads(r: Scanned, end: nat, s: Bytes, ps: seq<Piece>, cfg: Config) {
    if Interrupted(ps, cfg) then r == Refused(DocumentIndicator)
    else r.Value? && r.value == s + EncodeAll(MeaningAll(ps)) && r.pos == end
  }

  /** What is read of the rest is read of the whole. */
  lemma Onward(r: Scanned, end: nat, s: Bytes, ps: seq<Piece>, cfg: Config)
    requires ps != [] && !(ps[0].Fold? && IndentOf(cfg) == 0 && StartsIndicator(ps[1..]))
    requires Reads(r, end, s + Utf8(Meaning(ps[0])), ps[1..], cfg)
    ensures Reads(r, end, s, ps, cfg)
  {
    hide Utf8, EncodeAll, StartsIndicator, MeaningAll;
    assert ps == [ps[0]] + ps[1..];
    MeaningCons(ps[0], ps[1..]);
    EncodeConcat([Meaning(ps[0])], MeaningAll(ps[1..]));
    EncodeOne(Meaning(ps[0]));
  }

  /** A stretch of text: its first piece first. */
  lemma {:induction false} ReadsText(b: Bytes, i: nat, column: nat, s: Bytes, ps: seq<Piece>, cfg: Config)
    requires Laid(b, i, ps, cfg)
    ensures Reads(AfterText(b, TextFrom(b, i, column, s)), i + |RenderAll(ps, cfg)| + 1, s, ps, cfg)
    decreases |ps|, 0
  {
    hide Laid, Render, RenderAll, HasAt, ByteAt, IsBlankzAt, Interrupted, Reads, GapFrom, Joined, StartsIndicator, Past, AfterText, TextFrom;
    FirstOf(b, i, ps, cfg);
    if ps == [] {
      TextEnds(b, i, column, s, cfg);
    } else {
      var p, rest, at := ps[0], ps[1..], i + |Render(ps[0], cfg)|;
      Peel(b, i, ps, cfg);
      if IsText(p) {
        ReadText(b, i, column, s, p, cfg);
        ReadsText(b, at, Past(p, column, cfg), s + Utf8(Meaning(p)), rest, cfg);
        Onward(AfterText(b, TextFrom(b, i, column, s)), i + |RenderAll(ps, cfg)| + 1, s, ps, cfg);
      } else if p == Raw(SPACE) {
        BlankStarts(b, i, column, s, cfg);
        ReadsBlanks(b, at, column + 1, s, Utf8(SPACE), rest, cfg);
        Onward(AfterText(b, TextFrom(b, i, column, s)), i + |RenderAll(ps, cfg)| + 1, s, ps, cfg);
      } else {
        ReadFold(b, i, column, ps, cfg);
        GapStarts(b, i, column, s);
        IndicatorMeans(b, at, rest, cfg);
        FirstOf(b, at, rest, cfg);
        if IndentOf(cfg) == 0 && StartsIndicator(rest) {
          StopsAtFold(b, at, s + [SPACE], i + |RenderAll(ps, cfg)| + 1, s, ps, cfg);
        } else {
          Continues(b, at, IndentOf(cfg), s + [SPACE]);
          ReadsText(b, at, IndentOf(cfg), s + [SPACE], rest, cfg);
          assert Utf8(SPACE) == [SPACE];
          Onward(AfterText(b, TextFrom(b, i, column, s)), i + |RenderAll(ps, cfg)| + 1, s, ps, cfg);
        }
      }
    }
  }

  /** A stretch of blanks, of which ws have been read. */
  lemma {:induction false} ReadsBlanks(b: Bytes, i: nat, column: nat, s: Bytes, ws: Bytes, ps: seq<Piece>, cfg: Config)
    requires Laid(b, i, ps, cfg) && column > 0 && (ps != [] ==> !ps[0].Fold?)
    ensures var g := GapFrom(b, Gap(i, column, false, ws, [], []));
      Reads(ScalarFrom(b, g.pos, g.column, s + Joined(g)), i + |RenderAll(ps, cfg)| + 1, s + ws, ps, cfg)
    decreases |ps|, 1
  {
    hide Laid, Render, RenderAll, HasAt, ByteAt, IsBlankzAt, Interrupted, Reads, GapFrom, Wider, StartsIndicator, AfterText, TextFrom, ScalarFrom;
    FirstOf(b, i, ps, cfg);
    var g := Gap(i, column, false, ws, [], []);
    if ps != [] && ps[0] == Raw(SPACE) {
      Peel(b, i, ps, cfg);
      BlankWider(b, g, cfg);
      ReadsBlanks(b, i + 1, column + 1, s, ws + Utf8(SPACE), ps[1..], cfg);
      assert s + (ws + Utf8(SPACE)) == (s + ws) + Utf8(SPACE);
      var r := GapFrom(b, g);
      Onward(ScalarFrom(b, r.pos, r.column, s + Joined(r)), i + |RenderAll(ps, cfg)| + 1, s + ws, ps, cfg);
    } else {
      GapEnds(b, i, ps, cfg);
      OneWider(b, g);
      Continues(b, i, column, s + ws);
      ReadsText(b, i, column, s + ws, ps, cfg);
    }
  }

  lemma TextEnds(b: Bytes, i: nat, column: nat, s: Bytes, cfg: Config)
    requires Laid(b, i, [], cfg)
    ensures Reads(AfterText(b, TextFrom(b, i, column, s)), i + |RenderAll([], cfg)| + 1, s, [], cfg)
  {
    hide HasAt, ByteAt, IsBlankzAt, Laid;
    AtEnd(b, i, [], cfg);
    NoPieces();
    assert s + [] == s;
  }

  /** At a blank or break the text stops and a gap begins. */
  lemma GapStarts(b: Bytes, i: nat, column: nat, s: Bytes)
    requires IsBlankzAt(b, i) && ByteAt(b, i) != QUOTE
    ensures var g := GapFrom(b, Gap(i, column, false, [], [], []));
      AfterText(b, TextFrom(b, i, column, s)) == ScalarFrom(b, g.pos, g.column, s + Joined(g))
  {
    hide ByteAt, IsBlankzAt, GapFrom, Joined, ScalarFrom;
  }

  lemma BlankWider(b: Bytes, g: Gap, cfg: Config)
    requires HasAt(b, g.pos, Render(Raw(SPACE), cfg)) && !g.leading
    ensures GapFrom(b, g) == GapFrom(b, g.(pos := g.pos + 1, column := g.column + 1, blanks := g.blanks + Utf8(SPACE)))
    ensures |Render(Raw(SPACE), cfg)| == 1
  {
    hide HasAt, ByteAt, GapFrom, Wider, IsBreakAt;
    HasByte(b, g.pos, [SPACE], 0);
    SameChar(b, g.pos, SPACE);
    OneWider(b, g);
  }

  lemma BlankStarts(b: Bytes, i: nat, column: nat, s: Bytes, cfg: Config)
    requires HasAt(b, i, Render(Raw(SPACE), cfg))
    ensures var g := GapFrom(b, Gap(i + 1, column + 1, false, Utf8(SPACE), [], []));
      AfterText(b, TextFrom(b, i, column, s)) == ScalarFrom(b, g.pos, g.column, s + Joined(g))
    ensures |Render(Raw(SPACE), cfg)| == 1
  {
    hide HasAt, ByteAt, GapFrom, Joined, ScalarFrom, AfterText, TextFrom;
    HasByte(b, i, [SPACE], 0);
    GapStarts(b, i, column, s);
    BlankWider(b, Gap(i, column, false, [], [], []), cfg);
    assert [] + Utf8(SPACE) == Utf8(SPACE);
  }

  /** No indicator and no end: the scalar goes on as text. */
  lemma Continues(b: Bytes, i: nat, column: nat, s: Bytes)
    requires !(column == 0 && IndicatorAt(b, i)) && ByteAt(b, i) != 0
    ensures ScalarFrom(b, i, column, s) == AfterText(b, TextFrom(b, i, column, s))
  {
    hide ByteAt, IndicatorAt, AfterText, TextFrom;
  }

  lemma StopsAtFold(b: Bytes, at: nat, v: Bytes, end: nat, s: Bytes, ps: seq<Piece>, cfg: Config)
    requires IndicatorAt(b, at) && ps != [] && ps[0].Fold? && IndentOf(cfg) == 0 && StartsIndicator(ps[1..])
    ensures Reads(ScalarFrom(b, at, 0, v), end, s, ps, cfg)
  {
    hide IndicatorAt, StartsIndicator;
  }

  // ---------- the round trip ----------

  /**
   * Whatever is around the written scalar and in whatever column it starts, scanning gives the value back if and only
   * if no fold puts a document indicator at the start of a line; else the scanner takes the indicator for real.
   */
  lemma RoundTrip(cs: seq<Char>, column: int, cfg: Config, before: Bytes, after: Bytes, scanColumn: nat)
    requires scanColumn > 0
    ensures var r := ScalarFrom(before + Written(cs, column, cfg) + after, |before| + 1, scanColumn, []);
      && (!Interrupted(PiecesOf(cs, column, cfg), cfg) <==>
        r.Value? && r.value == EncodeAll(cs) && r.pos == |before| + |Written(cs, column, cfg)|)
      && (Interrupted(PiecesOf(cs, column, cfg), cfg) ==> r == Refused(DocumentIndicator))
  {
    hide Plan, RenderAll, EncodeAll, ScalarFrom, AfterText, TextFrom, Interrupted, PiecesOk;
    var ps := PiecesOf(cs, column, cfg);
    var body := RenderAll(ps, cfg) + [QUOTE];
    var b, i := before + Written(cs, column, cfg) + after, |before| + 1;
    PlanOk(cs, 0, column, false, false, cfg);
    assert cs[0..] == cs;
    assert b == (before + [QUOTE]) + (body + after);
    Prefix(before + [QUOTE], body, after);
    FirstOf(b, i, ps, cfg);
    ReadsText(b, i, scanColumn, [], ps, cfg);
    FreshText(b, i, scanColumn, ps, cfg);
    assert [] + EncodeAll(MeaningAll(ps)) == EncodeAll(cs);
  }

  /** Right behind the opening quote no document indicator counts: it would have to stand behind a fold. */
  lemma FreshText(b: Bytes, i: nat, column: nat, ps: seq<Piece>, cfg: Config)
    requires Laid(b, i, ps, cfg) && column > 0
    ensures ScalarFrom(b, i, column, []) == AfterText(b, TextFrom(b, i, column, []))
  {
    hide Laid;
    FirstOf(b, i, ps, cfg);
    Continues(b, i, column, []);
  }

  /** With any indentation every value comes back. */
  lemma {:induction false} IndentedIsSafe(ps: seq<Piece>, cfg: Config)
    requires cfg.indent >= 1
    ensures !Interrupted(ps, cfg)
    decreases |ps|
  {
    if ps == [] {
    } else {
      IndentedIsSafe(ps[1..], cfg);
    }
  }

  /** So it does when no breaks are allowed, as for a simple key. */
  lemma {:induction false} UnbrokenIsSafe(cs: seq<Char>, k: nat, column: int, spaces: bool, cfg: Config)
    requires k <= |cs| && !cfg.allowBreaks
    ensures !Interrupted(Plan(cs, k, column, spaces, false, cfg), cfg)
    decreases |cs| - k
  {
    hide MustEscape, EscapeBody, StartsIndicator;
    if k < |cs| {
      var c := cs[k];
      var ps := Plan(cs, k, column, spaces, false, cfg);
      var column2 := if MustEscape(cs, k, cfg) then column + 1 + |EscapeBody(c)| else column + 1;
      var spaces2 := !MustEscape(cs, k, cfg) && c == SPACE;
      UnbrokenIsSafe(cs, k + 1, column2, spaces2, cfg);
      assert ps[1..] == Plan(cs, k + 1, column2, spaces2, false, cfg);
    }
  }

  /** The value has three dashes or dots between two spaces. */
  predicate SpacedIndicator(cs: seq<Char>, k: nat) {
    && k + 4 < |cs| && cs[k] == SPACE && cs[k + 4] == SPACE
    && ((cs[k + 1] == 0x2D && cs[k + 2] == 0x2D && cs[k + 3] == 0x2D)
      || (cs[k + 1] == 0x2E && cs[k + 2] == 0x2E && cs[k + 3] == 0x2E))
  }

  /** Only such a value may fail to come back. */
  lemma {:induction false} OnlySpacedIndicators(ps: seq<Piece>, cfg: Config)
    requires Interrupted(ps, cfg)
    ensures exists k: nat :: SpacedIndicator(MeaningAll(ps), k)
    decreases |ps|
  {
    var cs := MeaningAll(ps);
    if ps[0].Fold? && IndentOf(cfg) == 0 && StartsIndicator(ps[1..]) {
      assert ps[1..][0] == ps[1] && ps[1..][1] == ps[2] && ps[1..][2] == ps[3] && ps[1..][3] == ps[4];
      assert SpacedIndicator(cs, 0);
    } else {
      OnlySpacedIndicators(ps[1..], cfg);
      var k: nat :| SpacedIndicator(MeaningAll(ps[1..]), k);
      assert cs[1..] == MeaningAll(ps[1..]);
      assert SpacedIndicator(cs, k + 1);
    }
  }

  /**
   * The emitter may write a scalar that the scanner refuses: "a --- b", folded at the first space without
   * indentation.
   */
  lemma FoldedIndicator(column: int, cfg: Config)
    requires cfg.allowBreaks && cfg.indent <= 0 && column >= cfg.width
    ensures var cs := [0x61, 0x20, 0x2D, 0x2D, 0x2D, 0x20, 0x62];
      ScalarFrom(Written(cs, column, cfg), 1, 1, []) == Refused(DocumentIndicator)
  {
    hide Plan, ScalarFrom, Written, Printable;
    var cs: seq<Char> := [0x61, 0x20, 0x2D, 0x2D, 0x2D, 0x20, 0x62];
    assert Written(cs, column, cfg) == [] + Written(cs, column, cfg) + [];
    DashesFold(column, cfg);
    RoundTrip(cs, column, cfg, [], [], 1);
  }

  lemma DashesFold(column: int, cfg: Config)
    requires cfg.allowBreaks && cfg.indent <= 0 && column >= cfg.width
    ensures Interrupted(PiecesOf([0x61, 0x20, 0x2D, 0x2D, 0x2D, 0x20, 0x62], column, cfg), cfg)
  {
    var cs: seq<Char> := [0x61, 0x20, 0x2D, 0x2D, 0x2D, 0x20, 0x62];
    var tail := Plan(cs, 5, 3, false, false, cfg);
    assert tail[0] == Fold || tail[0] == Raw(SPACE);
    assert Plan(cs, 4, 2, false, false, cfg) == [Raw(0x2D)] + tail;
    assert Plan(cs, 3, 1, false, false, cfg) == [Raw(0x2D)] + ([Raw(0x2D)] + tail);
    assert Plan(cs, 2, 0, true, false, cfg) == [Raw(0x2D)] + ([Raw(0x2D)] + ([Raw(0x2D)] + tail));
    var line := Plan(cs, 2, 0, true, false, cfg);
    assert StartsIndicator(line);
    assert Plan(cs, 1, column + 1, false, false, cfg) == [Fold] + line;
    var ps := Plan(cs, 0, column, false, false, cfg);
    assert ps == [Raw(0x61)] + ([Fold] + line);
    assert ps[1..] == [Fold] + line && ps[1..][1..] == line;
  }

  // ---------- everything the emitter emits ----------

  /** What an emitter does in a stream: collections open and close, double-quoted scalars and all else are written. */
  datatype Step =
    | Open(flow: bool, indentless: bool)
    | Close
    | Quoted(value: seq<Char>, simpleKey: bool)
    | Other(bytes: Bytes, column: int, whitespace: bool, indention: bool)

  /** No more collections close than have opened. */
  predicate Balanced(steps: seq<Step>, depth: nat) {
    steps == []
    || match steps[0]
       case Open(_, _) => Balanced(steps[1..], depth + 1)
       case Close => depth > 0 && Balanced(steps[1..], depth - 1)
       case _ => Balanced(steps[1..], depth)
  }

  /** The values of the double-quoted scalars, in order. */
  function Values(steps: seq<Step>): seq<seq<Char>> {
    if steps == [] then [] else (if steps[0].Quoted? then [steps[0].value] else []) + Values(steps[1..])
  }

  /** Where a value was written, and how. */
  datatype Placed = Placed(at: nat, value: seq<Char>, column: int, cfg: Config)

  ghost predicate InPlace(out: Bytes, p: Placed) {
    p.cfg.indent >= 1 && HasAt(out, p.at, Written(p.value, p.column, p.cfg))
  }

  function ValuesAt(placed: seq<Placed>): seq<seq<Char>> {
    seq(|placed|, i requires 0 <= i < |placed| => placed[i].value)
  }

  /** From the quote at this place the scanner reads the value, in whatever column it takes itself to be. */
  ghost predicate ReadAt(out: Bytes, at: nat, value: seq<Char>) {
    forall column: nat :: column > 0 ==> ReadIn(out, at, column, value)
  }

  predicate ReadIn(out: Bytes, at: nat, column: nat, value: seq<Char>) {
    var r := ScalarFrom(out, at + 1, column, []);
    r.Value? && r.value == EncodeAll(value)
  }

  lemma InPlaceReads(out: Bytes, p: Placed)
    requires InPlace(out, p)
    ensures ReadAt(out, p.at, p.value)
  {
    hide ScalarFrom, EncodeAll, Written;
    var w := Written(p.value, p.column, p.cfg);
    var before, after := out[..p.at], out[p.at + |w|..];
    assert out == before + w + after;
    forall column: nat | column > 0 ensures ReadIn(out, p.at, column, p.value) {
      IndentedIsSafe(PiecesOf(p.value, p.column, p.cfg), p.cfg);
      RoundTrip(p.value, p.column, p.cfg, before, after, column);
    }
  }

  lemma StaysInPlace(out: Bytes, more: Bytes, p: Placed)
    requires InPlace(out, p)
    ensures InPlace(out + more, p)
  {
    hide Written;
    var w := Written(p.value, p.column, p.cfg);
    assert (out + more)[p.at..p.at + |w|] == out[p.at..p.at + |w|];
  }

  lemma NewInPlace(out: Bytes, lead: Bytes, p: Placed)
    requires p.at == |out| + |lead| && p.cfg.indent >= 1
    ensures InPlace(out + lead + Written(p.value, p.column, p.cfg), p)
  {
    hide Written;
  }

  /**
   * Whatever settings an emitter starts a stream with and whatever it emits, every double-quoted scalar of the stream is
   * read back by the scanner as the value it was written for.
   */
  method EmitStream(e: Emitter, steps: seq<Step>) returns (placed: seq<Placed>)
    requires e.indents == [] && Balanced(steps, 0)
    modifies e
    ensures ValuesAt(placed) == Values(steps)
    ensures forall i :: 0 <= i < |placed| ==> ReadAt(e.out, placed[i].at, placed[i].value)
  {
    hide Written, ReadAt, InPlace, EncodeAll;
    e.StreamStart();
    placed := [];
    var n := 0;
    assert steps[0..] == steps;
    while n < |steps|
      invariant n <= |steps| && e.Started() && Balanced(steps[n..], |e.indents|)
      invariant ValuesAt(placed) + Values(steps[n..]) == Values(steps)
      invariant forall i :: 0 <= i < |placed| ==> InPlace(e.out, placed[i])
    {
      var step := steps[n];
      ghost var before := e.out;
      assert steps[n..][0] == step && steps[n..][1..] == steps[n + 1..];
      ghost var more, held := [], placed;
      match step {
        case Open(flow, indentless) =>
          e.IncreaseIndent(flow, indentless);
        case Close =>
          e.RestoreIndent();
        case Other(bytes, column, whitespace, indention) =>
          e.out, e.column, e.whitespace, e.indention := e.out + bytes, column, whitespace, indention;
          more := bytes;
        case Quoted(value, simpleKey) =>
          ghost var lead := if e.whitespace then [] else [SPACE];
          var at, column, cfg := e.EmitScalar(EncodeAll(value), simpleKey, value);
          var p := Placed(at, value, column, cfg);
          NewInPlace(before, lead, p);
          more := lead + Written(value, column, cfg);
          assert before + lead + Written(value, column, cfg) == before + more;
          AddedValue(placed, p);
          placed := placed + [p];
      }
      assert e.out == before + more;
      forall i | 0 <= i < |held| ensures InPlace(e.out, held[i]) {
        StaysInPlace(before, more, held[i]);
      }
      n := n + 1;
    }
    forall i | 0 <= i < |placed| ensures ReadAt(e.out, placed[i].at, placed[i].value) {
      InPlaceReads(e.out, placed[i]);
    }
  }

  lemma AddedValue(placed: seq<Placed>, p: Placed)
    ensures ValuesAt(placed + [p]) == ValuesAt(placed) + [p.value]
  {
  }
}
