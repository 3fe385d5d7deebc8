/** What the scanner makes of text the emitter never writes: lines of any kind between texts, and the remaining escapes. */
module YamlFolding {
  import opened Keys
  import opened YamlChars
  import opened YamlScanning

  /** The ways to break a line: line feed, carriage return, both, next line, line and paragraph separator. */
  datatype Break = LF | CR | CRLF | NEL | LS | PS

  /** A line break with the blanks behind it. */
  datatype Line = Line(brk: Break, blanks: Bytes)

  function BreakText(k: Break): Bytes {
    match k
    case LF => [0x0A]
    case CR => [0x0D]
    case CRLF => [0x0D, 0x0A]
    case NEL => [0xC2, 0x85]
    case LS => [0xE2, 0x80, 0xA8]
    case PS => [0xE2, 0x80, 0xA9]
  }

  /** What is left of a break that is not folded. */
  function Kept(k: Break): Bytes {
    if k.LS? || k.PS? then BreakText(k) else [0x0A]
  }

  function LinesText(lines: seq<Line>): Bytes {
    if lines == [] then [] else BreakText(lines[0].brk) + lines[0].blanks + LinesText(lines[1..])
  }

  function KeptAll(lines: seq<Line>): Bytes {
    if lines == [] then [] else Kept(lines[0].brk) + KeptAll(lines[1..])
  }

  predicate Blank(s: Bytes) {
    forall i :: 0 <= i < |s| ==> s[i] == 0x20 || s[i] == 0x09
  }

  /** Blanks are blank, and no carriage return is followed by a line feed, as the two would be one break. */
  ghost predicate WellBroken(lines: seq<Line>) {
    && (forall i :: 0 <= i < |lines| ==> Blank(lines[i].blanks))
    && (forall i :: 0 < i < |lines| && lines[i].brk.LF? ==> !(lines[i - 1].brk.CR? && lines[i - 1].blanks == []))
  }

  /** Line folding (section 6.5 of YAML 1.2): a single break is a space, of several the first one goes; separators stay. */
  function Folded(blanks: Bytes, lines: seq<Line>): Bytes {
    if lines == [] then blanks
    else if lines[0].brk.LS? || lines[0].brk.PS? then KeptAll(lines)
    else if |lines| == 1 then [0x20]
    else KeptAll(lines[1..])
  }

  /** Of n + 1 ordinary breaks there remain n line feeds, or a space if n is 0. */
  lemma {:induction false} FeedsLeft(blanks: Bytes, lines: seq<Line>, n: nat)
    requires |lines| == n + 1 && forall i :: 0 <= i < |lines| ==> !lines[i].brk.LS? && !lines[i].brk.PS?
    ensures |Folded(blanks, lines)| == if n == 0 then 1 else n
    ensures forall j :: 0 <= j < |Folded(blanks, lines)| ==> Folded(blanks, lines)[j] == if n == 0 then 0x20 else 0x0A
  {
    FeedsKept(lines[1..]);
  }

  lemma {:induction false} FeedsKept(lines: seq<Line>)
    requires forall i :: 0 <= i < |lines| ==> !lines[i].brk.LS? && !lines[i].brk.PS?
    ensures |KeptAll(lines)| == |lines| && forall j :: 0 <= j < |lines| ==> KeptAll(lines)[j] == 0x0A
  {
    if lines == [] {
    } else {
      FeedsKept(lines[1..]);
    }
  }

  // ---------- one gap ----------

  lemma BreakHere(b: Bytes, i: nat, k: Break)
    requires HasAt(b, i, BreakText(k)) && (k.CR? ==> ByteAt(b, i + 1) != 0x0A)
    ensures IsBreakAt(b, i) && !IsBlankAt(b, i) && BreakWidth(b, i) == |BreakText(k)| && BreakValue(b, i) == Kept(k)
  {
    HasByte(b, i, BreakText(k), 0);
    if |BreakText(k)| > 1 { HasByte(b, i, BreakText(k), 1); }
    if |BreakText(k)| > 2 { HasByte(b, i, BreakText(k), 2); }
  }

  lemma {:induction false} BlanksRead(b: Bytes, g: Gap, ws: Bytes)
    requires HasAt(b, g.pos, ws) && Blank(ws)
    ensures GapFrom(b, g)
      == GapFrom(b, g.(pos := g.pos + |ws|, column := g.column + |ws|, blanks := if g.leading then g.blanks else g.blanks + ws))
    decreases |ws|
  {
    hide HasAt, GapFrom, Wider, InGapAt, CharAt, IsBreakAt;
    if ws == [] {
      assert g.blanks + ws == g.blanks;
    } else {
      BlankRead(b, g, ws);
      BlanksRead(b, Wider(b, g), ws[1..]);
      assert g.blanks + ws == g.blanks + [ws[0]] + ws[1..];
    }
  }

  /** The first of some blanks. */
  lemma BlankRead(b: Bytes, g: Gap, ws: Bytes)
    requires ws != [] && HasAt(b, g.pos, ws) && Blank(ws)
    ensures InGapAt(b, g.pos) && GapFrom(b, g) == GapFrom(b, Wider(b, g)) && HasAt(b, g.pos + 1, ws[1..])
    ensures Wider(b, g)
      == g.(pos := g.pos + 1, column := g.column + 1, blanks := if g.leading then g.blanks else g.blanks + [ws[0]])
  {
    hide HasAt, GapFrom, IsBreakAt;
    assert ws == [ws[0]] + ws[1..];
    HasSplit(b, g.pos, [ws[0]], ws[1..]);
    HasByte(b, g.pos, [ws[0]], 0);
    OneWider(b, g);
  }

  lemma HasSplit3(b: Bytes, i: nat, x: Bytes, y: Bytes, z: Bytes)
    requires HasAt(b, i, x + y + z)
    ensures HasAt(b, i, x) && HasAt(b, i + |x|, y) && HasAt(b, i + |x| + |y|, z) && HasAt(b, i, x + y)
  {
    hide HasAt;
    HasSplit(b, i, x + y, z);
    HasSplit(b, i, x, y);
  }

  /** The parts of the first line are where they should be. */
  lemma FirstLine(b: Bytes, i: nat, lines: seq<Line>)
    requires lines != [] && HasAt(b, i, LinesText(lines))
    ensures HasAt(b, i, BreakText(lines[0].brk)) && HasAt(b, i + |BreakText(lines[0].brk)|, lines[0].blanks)
    ensures HasAt(b, i + |BreakText(lines[0].brk)| + |lines[0].blanks|, LinesText(lines[1..]))
  {
    hide HasAt, BreakText;
    HasSplit3(b, i, BreakText(lines[0].brk), lines[0].blanks, LinesText(lines[1..]));
  }

  /** A carriage return that ends a line is not followed by a line feed. */
  lemma NoFeed(b: Bytes, i: nat, lines: seq<Line>)
    requires lines != [] && WellBroken(lines) && HasAt(b, i, LinesText(lines)) && !InGapAt(b, i + |LinesText(lines)|)
    ensures lines[0].brk.CR? ==> ByteAt(b, i + 1) != 0x0A
  {
    hide HasAt, ByteAt, BreakText;
    if lines[0].brk.CR? {
      FirstLine(b, i, lines);
      CarriageReturn();
      LengthOf(lines);
      if lines[0].blanks != [] {
        HasByte(b, i + 1, lines[0].blanks, 0);
      } else if |lines| > 1 {
        FirstLine(b, i + 1, lines[1..]);
        OtherBreak(b, i + 1, lines[1].brk);
      } else {
        assert LinesText(lines[1..]) == [];
      }
    }
  }

  lemma CarriageReturn()
    ensures |BreakText(CR)| == 1
  {
  }

  lemma LengthOf(lines: seq<Line>)
    requires lines != []
    ensures |LinesText(lines)| == |BreakText(lines[0].brk)| + |lines[0].blanks| + |LinesText(lines[1..])|
  {
  }

  lemma OtherBreak(b: Bytes, i: nat, k: Break)
    requires HasAt(b, i, BreakText(k))
    ensures ByteAt(b, i) == if k.LF? then 0x0A else if k.CR? || k.CRLF? then 0x0D else if k.NEL? then 0xC2 else 0xE2
  {
    hide HasAt, ByteAt;
    HasByte(b, i, BreakText(k), 0);
  }

  /** Behind a break already read, every further break is kept and every blank is dropped. */
  lemma {:induction false} LinesRead(b: Bytes, g: Gap, lines: seq<Line>) returns (column: nat)
    requires g.leading && WellBroken(lines) && HasAt(b, g.pos, LinesText(lines)) && !InGapAt(b, g.pos + |LinesText(lines)|)
    ensures GapFrom(b, g) == Gap(g.pos + |LinesText(lines)|, column, true, g.blanks, g.first, g.others + KeptAll(lines))
    decreases |lines|
  {
    hide HasAt, GapFrom, Wider, BreakText, Kept, IsBreakAt, IsBlankAt, BreakWidth, BreakValue;
    if lines == [] {
      assert g.others + [] == g.others;
      OneWider(b, g);
      column := g.column;
    } else {
      var k, ws := lines[0].brk, lines[0].blanks;
      FirstLine(b, g.pos, lines);
      NoFeed(b, g.pos, lines);
      BreakHere(b, g.pos, k);
      OneWider(b, g);
      var g1 := Wider(b, g);
      BlanksRead(b, g1, ws);
      column := LinesRead(b, g1.(pos := g1.pos + |ws|, column := g1.column + |ws|), lines[1..]);
      assert g.others + Kept(k) + KeptAll(lines[1..]) == g.others + KeptAll(lines);
    }
  }

  /** The first line of a gap that has none yet. */
  lemma LinesStart(b: Bytes, g: Gap, lines: seq<Line>) returns (column: nat)
    requires !g.leading && g.first == [] && g.others == [] && lines != [] && WellBroken(lines)
    requires HasAt(b, g.pos, LinesText(lines)) && !InGapAt(b, g.pos + |LinesText(lines)|)
    ensures GapFrom(b, g) == Gap(g.pos + |LinesText(lines)|, column, true, [], Kept(lines[0].brk), KeptAll(lines[1..]))
  {
    hide HasAt, GapFrom, Wider, IsBreakAt, IsBlankAt, BreakWidth, BreakValue, BreakText, LinesText, Kept;
    var k, ws := lines[0].brk, lines[0].blanks;
    FirstLine(b, g.pos, lines);
    LengthOf(lines);
    NoFeed(b, g.pos, lines);
    BreakHere(b, g.pos, k);
    OneWider(b, g);
    var g2 := Wider(b, g);
    assert [] + Kept(k) == Kept(k);
    BlanksRead(b, g2, ws);
    column := LinesRead(b, g2.(pos := g2.pos + |ws|, column := g2.column + |ws|), lines[1..]);
    assert [] + KeptAll(lines[1..]) == KeptAll(lines[1..]);
  }

  /** A gap not behind an escaped break: its blanks, or its lines folded. */
  lemma GapRead(b: Bytes, pos: nat, column: nat, blanks: Bytes, lines: seq<Line>) returns (g: Gap)
    requires Blank(blanks) && WellBroken(lines) && HasAt(b, pos, blanks + LinesText(lines))
    requires !InGapAt(b, pos + |blanks| + |LinesText(lines)|)
    ensures g == GapFrom(b, Gap(pos, column, false, [], [], []))
    ensures g.pos == pos + |blanks| + |LinesText(lines)| && Joined(g) == Folded(blanks, lines)
    ensures lines == [] ==> g.column == column + |blanks|
  {
    hide HasAt, GapFrom, Wider, InGapAt, WellBroken, BreakText;
    HasSplit(b, pos, blanks, LinesText(lines));
    var g0 := Gap(pos, column, false, [], [], []);
    assert [] + blanks == blanks;
    BlanksRead(b, g0, blanks);
    var g1 := Gap(pos + |blanks|, column + |blanks|, false, blanks, [], []);
    OneWider(b, g1);
    g := GapFrom(b, g0);
    if lines != [] {
      var c := LinesStart(b, g1, lines);
      KeptSome(lines[1..]);
      KeptFirst(lines[0].brk);
    }
  }

  lemma KeptFirst(k: Break)
    ensures Kept(k) != [] && (Kept(k)[0] == 0x0A <==> !k.LS? && !k.PS?)
  {
  }

  lemma KeptSome(lines: seq<Line>)
    ensures KeptAll(lines) == [] <==> lines == []
  {
  }

  /** The fold law: blanks and lines between two stretches of text read as blanks, as a space, or as what the folding leaves. */
  lemma FoldLaw(b: Bytes, pos: nat, column: nat, s: Bytes, blanks: Bytes, lines: seq<Line>) returns (column': nat)
    requires Blank(blanks) && WellBroken(lines) && (blanks != [] || lines != []) && HasAt(b, pos, blanks + LinesText(lines))
    requires !InGapAt(b, pos + |blanks| + |LinesText(lines)|)
    ensures StopAt(b, pos)
    ensures AfterText(b, Stopped(pos, column, s, false))
      == ScalarFrom(b, pos + |blanks| + |LinesText(lines)|, column', s + Folded(blanks, lines))
    ensures lines == [] ==> column' > 0
  {
    hide HasAt, GapFrom, Joined, Folded, IsBreakAt;
    var g := GapRead(b, pos, column, blanks, lines);
    NoQuote(b, pos, blanks, lines);
    column' := g.column;
  }

  lemma NoQuote(b: Bytes, pos: nat, blanks: Bytes, lines: seq<Line>)
    requires Blank(blanks) && (blanks != [] || lines != []) && HasAt(b, pos, blanks + LinesText(lines))
    ensures IsBlankzAt(b, pos) && ByteAt(b, pos) != QUOTE
  {
    hide HasAt, ByteAt;
    HasSplit(b, pos, blanks, LinesText(lines));
    if blanks != [] {
      HasByte(b, pos, blanks, 0);
    } else {
      FirstLine(b, pos, lines);
      var k := BreakText(lines[0].brk);
      HasByte(b, pos, k, 0);
      if |k| > 1 { HasByte(b, pos, k, 1); }
      if |k| > 2 { HasByte(b, pos, k, 2); }
    }
  }

  /** An escaped break goes, with the blanks behind it; further breaks stay. */
  lemma EscapedLaw(b: Bytes, pos: nat, column: nat, s: Bytes, lines: seq<Line>) returns (column': nat)
    requires lines != [] && WellBroken(lines) && HasAt(b, pos, [BACKSLASH] + LinesText(lines))
    requires !InGapAt(b, pos + 1 + |LinesText(lines)|) && ByteAt(b, pos + 1 + |LinesText(lines)|) != 0
    requires !IndicatorAt(b, pos + 1 + |LinesText(lines)|)
    ensures AfterText(b, TextFrom(b, pos, column, s))
      == ScalarFrom(b, pos + 1 + |LinesText(lines)|, column', s + KeptAll(lines[1..]))
  {
    hide HasAt, GapFrom, Joined, IsBreakAt, IsBlankAt, BreakWidth, BreakValue, ByteAt, TextFrom, BreakText, IndicatorAt;
    var k, ws := lines[0].brk, lines[0].blanks;
    HasSplit(b, pos, [BACKSLASH], LinesText(lines));
    HasByte(b, pos, [BACKSLASH], 0);
    FirstLine(b, pos + 1, lines);
    LengthOf(lines);
    NoFeed(b, pos + 1, lines);
    BreakHere(b, pos + 1, k);
    SlashText(b, pos, column, s);
    var at := pos + 1 + |BreakText(k)|;
    var g0 := Gap(at, 0, true, [], [], []);
    BlanksRead(b, g0, ws);
    column' := LinesRead(b, g0.(pos := at + |ws|, column := |ws|), lines[1..]);
    assert [] + KeptAll(lines[1..]) == KeptAll(lines[1..]);
    LeadingJoined(GapFrom(b, g0));
    if ByteAt(b, at) == QUOTE {
      QuoteEnds(b, at, ws, lines[1..]);
      assert s + [] == s;
      column' := 0;
      QuoteNext(b, at, column', s);
    }
  }

  lemma LeadingJoined(g: Gap)
    requires g.leading && g.first == []
    ensures Joined(g) == g.others
  {
    assert [] + g.others == g.others;
  }

  lemma SlashText(b: Bytes, pos: nat, column: nat, s: Bytes)
    requires ByteAt(b, pos) == BACKSLASH && IsBreakAt(b, pos + 1)
    ensures TextFrom(b, pos, column, s) == Stopped(pos + 1 + BreakWidth(b, pos + 1), 0, s, true)
  {
    hide BreakWidth;
  }

  /** A quote begins neither blanks nor lines. */
  lemma QuoteEnds(b: Bytes, at: nat, ws: Bytes, lines: seq<Line>)
    requires HasAt(b, at, ws) && Blank(ws) && HasAt(b, at + |ws|, LinesText(lines)) && ByteAt(b, at) == QUOTE
    ensures ws == [] && lines == []
  {
    hide HasAt, ByteAt;
    if ws != [] {
      HasByte(b, at, ws, 0);
    } else if lines != [] {
      FirstLine(b, at, lines);
      OtherBreak(b, at, lines[0].brk);
    }
  }

  lemma QuoteNext(b: Bytes, at: nat, column: nat, s: Bytes)
    requires ByteAt(b, at) == QUOTE
    ensures ScalarFrom(b, at, column, s) == Value(s, at + 1, column + 1)
    ensures AfterText(b, TextFrom(b, at, column, s)) == Value(s, at + 1, column + 1)
  {
  }

  // ---------- a whole scalar of several lines ----------

  /** Graphic ASCII, apart from the quote and the backslash. */
  predicate Plain(s: Bytes) {
    forall i :: 0 <= i < |s| ==> 0x21 <= s[i] <= 0x7E && s[i] != QUOTE && s[i] != BACKSLASH
  }

  /** Blanks and lines, the first of them perhaps escaped, and the text behind them. */
  datatype Part = Part(blanks: Bytes, escaped: bool, lines: seq<Line>, text: Bytes)

  function PartText(p: Part): Bytes {
    p.blanks + (if p.escaped then [BACKSLASH] else []) + LinesText(p.lines) + p.text
  }

  function PartsText(parts: seq<Part>): Bytes {
    if parts == [] then [] else PartText(parts[0]) + PartsText(parts[1..])
  }

  /** What is left of a part's gap: an escaped break leaves the blanks before it, and nothing of itself. */
  function GapValue(p: Part): Bytes {
    if p.escaped && p.lines != [] then p.blanks + KeptAll(p.lines[1..]) else Folded(p.blanks, p.lines)
  }

  function PartValue(p: Part): Bytes {
    GapValue(p) + p.text
  }

  function PartsValue(parts: seq<Part>): Bytes {
    if parts == [] then [] else PartValue(parts[0]) + PartsValue(parts[1..])
  }

  /** Only the last text may be empty, and on a line of its own no text is a document indicator. */
  ghost predicate PartsOk(parts: seq<Part>) {
    forall i :: 0 <= i < |parts| ==>
      && Blank(parts[i].blanks) && WellBroken(parts[i].lines) && Plain(parts[i].text)
      && (parts[i].lines == [] ==> !parts[i].escaped && parts[i].blanks != [])
      && (i + 1 < |parts| ==> parts[i].text != [])
      && (parts[i].lines != [] ==> parts[i].text != [0x2D, 0x2D, 0x2D] && parts[i].text != [0x2E, 0x2E, 0x2E])
  }

  lemma {:induction false} PlainRead(b: Bytes, pos: nat, column: nat, s: Bytes, text: Bytes)
    requires Plain(text) && HasAt(b, pos, text)
    ensures TextFrom(b, pos, column, s) == TextFrom(b, pos + |text|, column + |text|, s + text)
    decreases |text|
  {
    hide HasAt, ByteAt;
    if text == [] {
      assert s + text == s;
    } else {
      assert text == [text[0]] + text[1..];
      HasSplit(b, pos, [text[0]], text[1..]);
      HasByte(b, pos, [text[0]], 0);
      assert CharAt(b, pos, 1) == [text[0]];
      PlainRead(b, pos + 1, column + 1, s + [text[0]], text[1..]);
      assert s + [text[0]] + text[1..] == s + text;
    }
  }

  /** Where a text begins there is no gap, no end and, if it is not alone on its line, no document indicator. */
  lemma TextBegins(b: Bytes, pos: nat, text: Bytes, parts: seq<Part>)
    requires Plain(text) && PartsOk(parts) && HasAt(b, pos, text + PartsText(parts) + [QUOTE]) && (parts != [] ==> text != [])
    ensures !InGapAt(b, pos) && ByteAt(b, pos) != 0
    ensures text != [0x2D, 0x2D, 0x2D] && text != [0x2E, 0x2E, 0x2E] ==> !IndicatorAt(b, pos)
  {
    hide HasAt, ByteAt, PartsText, PartsOk;
    NoText();
    HasSplit(b, pos, text + PartsText(parts), [QUOTE]);
    HasSplit(b, pos, text, PartsText(parts));
    HasByte(b, pos + |text| + |PartsText(parts)|, [QUOTE], 0);
    if |text| > 0 { HasByte(b, pos, text, 0); }
    if |text| > 1 { HasByte(b, pos, text, 1); }
    if |text| > 2 { HasByte(b, pos, text, 2); }
    if |text| > 3 { HasByte(b, pos, text, 3); }
    if 0 < |text| < 3 {
      EndsText(b, pos + |text|, parts);
    }
    TextIs(text);
  }

  lemma NoText()
    ensures PartsText([]) == []
  {
  }

  lemma TextIs(text: Bytes)
    ensures |text| == 3 ==> text == [text[0], text[1], text[2]]
  {
  }

  /** What follows a text begins with a blank, a break, a backslash or the quote. */
  lemma EndsText(b: Bytes, pos: nat, parts: seq<Part>)
    requires PartsOk(parts) && HasAt(b, pos, PartsText(parts)) && HasAt(b, pos + |PartsText(parts)|, [QUOTE])
    ensures ByteAt(b, pos) != 0x2D && ByteAt(b, pos) != 0x2E
  {
    hide HasAt, ByteAt, LinesText, PartsText, PartText, BreakText, WellBroken;
    if parts == [] {
      NoText();
      HasByte(b, pos, [QUOTE], 0);
    } else {
      PartLaid(b, pos, parts);
      var p := parts[0];
      if p.blanks != [] {
        HasByte(b, pos, p.blanks, 0);
      } else if p.escaped {
        HasByte(b, pos, [BACKSLASH], 0);
      } else {
        FirstLine(b, pos, p.lines);
        OtherBreak(b, pos, p.lines[0].brk);
      }
    }
  }

  /** The pieces of the first part are where they should be. */
  lemma PartLaid(b: Bytes, pos: nat, parts: seq<Part>)
    requires parts != [] && HasAt(b, pos, PartsText(parts))
    ensures var p, slash := parts[0], if parts[0].escaped then [BACKSLASH] else [];
      && HasAt(b, pos, p.blanks) && HasAt(b, pos + |p.blanks|, slash + LinesText(p.lines))
      && HasAt(b, pos + |p.blanks|, slash) && HasAt(b, pos + |p.blanks| + |slash|, LinesText(p.lines))
      && HasAt(b, pos + |p.blanks| + |slash| + |LinesText(p.lines)|, p.text)
      && HasAt(b, pos + |PartText(p)|, PartsText(parts[1..]))
      && |PartText(p)| == |p.blanks| + |slash| + |LinesText(p.lines)| + |p.text|
      && (!p.escaped ==> HasAt(b, pos, p.blanks + LinesText(p.lines)))
  {
    hide HasAt, LinesText;
    var p, slash, lines, more := parts[0], if parts[0].escaped then [BACKSLASH] else [], LinesText(parts[0].lines), PartsText(parts[1..]);
    HasSplit(b, pos, PartText(p), more);
    HasSplit3(b, pos, p.blanks + slash, lines, p.text);
    HasSplit(b, pos, p.blanks, slash);
    HasJoin(b, pos + |p.blanks|, slash, lines);
    if !p.escaped {
      HasJoin(b, pos, p.blanks, lines);
    }
  }

  lemma HasJoin(b: Bytes, i: nat, x: Bytes, y: Bytes)
    requires HasAt(b, i, x) && HasAt(b, i + |x|, y)
    ensures HasAt(b, i, x + y)
  {
  }

  /** One part behind a text: the scanner is where the part's own text begins, with the part's gap read. */
  lemma PartRead(b: Bytes, pos: nat, column: nat, s: Bytes, parts: seq<Part>) returns (column': nat)
    requires parts != [] && PartsOk(parts) && HasAt(b, pos, PartsText(parts) + [QUOTE])
    ensures var at := pos + |PartText(parts[0])| - |parts[0].text|;
      && at >= pos && HasAt(b, at, parts[0].text) && HasAt(b, at, parts[0].text + PartsText(parts[1..]) + [QUOTE])
      && AfterText(b, TextFrom(b, pos, column, s))
         == ScalarFrom(b, at, column', s + GapValue(parts[0]))
      && (column' > 0 || !IndicatorAt(b, at)) && ByteAt(b, at) != 0
  {
    hide HasAt, ByteAt, LinesText, KeptAll, Folded, PartsText, AfterText, TextFrom, ScalarFrom, InGapAt, IndicatorAt, StopAt, WellBroken;
    var p := parts[0];
    PartAt(b, pos, parts);
    var at := pos + |PartText(p)| - |p.text|;
    HasSplit3(b, at, p.text, PartsText(parts[1..]), [QUOTE]);
    TextBegins(b, at, p.text, parts[1..]);
    if !p.escaped {
      column' := FoldLaw(b, pos, column, s, p.blanks, p.lines);
      Stops(b, pos, column, s);
    } else {
      column' := EscapedRead(b, pos, column, s, p);
    }
  }

  lemma Stops(b: Bytes, pos: nat, column: nat, s: Bytes)
    requires StopAt(b, pos)
    ensures TextFrom(b, pos, column, s) == Stopped(pos, column, s, false)
  {
  }

  lemma PartAt(b: Bytes, pos: nat, parts: seq<Part>)
    requires parts != [] && PartsOk(parts) && HasAt(b, pos, PartsText(parts) + [QUOTE])
    ensures var p, slash := parts[0], if parts[0].escaped then [BACKSLASH] else [];
      && HasAt(b, pos, p.blanks) && HasAt(b, pos + |p.blanks|, slash + LinesText(p.lines))
      && HasAt(b, pos + |p.blanks|, slash)
      && (!p.escaped ==> HasAt(b, pos, p.blanks + LinesText(p.lines)))
      && |PartText(p)| == |p.blanks| + |slash| + |LinesText(p.lines)| + |p.text|
      && HasAt(b, pos + |PartText(p)| - |p.text|, p.text + PartsText(parts[1..]) + [QUOTE])
      && PartsOk(parts[1..]) && (parts[1..] != [] ==> p.text != [])
  {
    hide HasAt, LinesText, PartText;
    var p, more := parts[0], PartsText(parts[1..]);
    HasSplit(b, pos, PartsText(parts), [QUOTE]);
    PartLaid(b, pos, parts);
    var at := pos + |PartText(p)|;
    assert |PartsText(parts)| == |PartText(p)| + |more|;
    HasJoin(b, at - |p.text|, p.text, more);
    HasJoin(b, at - |p.text|, p.text + more, [QUOTE]);
  }

  /** Blanks before an escaped break are read first. */
  lemma EscapedRead(b: Bytes, pos: nat, column: nat, s: Bytes, p: Part) returns (column': nat)
    requires p.escaped && p.lines != [] && Blank(p.blanks) && WellBroken(p.lines)
    requires HasAt(b, pos, p.blanks) && HasAt(b, pos + |p.blanks|, [BACKSLASH] + LinesText(p.lines))
    requires var at := pos + |p.blanks| + 1 + |LinesText(p.lines)|; !InGapAt(b, at) && ByteAt(b, at) != 0 && !IndicatorAt(b, at)
    ensures AfterText(b, TextFrom(b, pos, column, s))
      == ScalarFrom(b, pos + |p.blanks| + 1 + |LinesText(p.lines)|, column', s + (p.blanks + KeptAll(p.lines[1..])))
  {
    hide HasAt, ByteAt, LinesText, KeptAll, AfterText, TextFrom, InGapAt, IndicatorAt, StopAt, WellBroken;
    var at := pos + |p.blanks|;
    HasSplit(b, at, [BACKSLASH], LinesText(p.lines));
    HasByte(b, at, [BACKSLASH], 0);
    assert s + p.blanks + KeptAll(p.lines[1..]) == s + (p.blanks + KeptAll(p.lines[1..]));
    if p.blanks == [] {
      assert s + p.blanks == s;
      column' := EscapedLaw(b, pos, column, s, p.lines);
    } else {
      NoLines();
      assert p.blanks + LinesText([]) == p.blanks;
      SlashNext(b, at);
      var c := FoldLaw(b, pos, column, s, p.blanks, []);
      Stops(b, pos, column, s);
      assert Folded(p.blanks, []) == p.blanks;
      GoesOn(b, at, c, s + p.blanks);
      column' := EscapedLaw(b, at, c, s + p.blanks, p.lines);
    }
  }

  lemma NoLines()
    ensures LinesText([]) == [] && WellBroken([])
  {
  }

  lemma SlashNext(b: Bytes, at: nat)
    requires ByteAt(b, at) == BACKSLASH
    ensures !InGapAt(b, at)
  {
  }

  lemma GoesOn(b: Bytes, at: nat, column: nat, s: Bytes)
    requires ByteAt(b, at) != 0 && (column > 0 || !IndicatorAt(b, at))
    ensures ScalarFrom(b, at, column, s) == AfterText(b, TextFrom(b, at, column, s))
  {
  }

  /** What is left of the scalar behind a text, part by part. */
  lemma {:induction false} PartsRead(b: Bytes, pos: nat, column: nat, s: Bytes, parts: seq<Part>)
    requires PartsOk(parts) && HasAt(b, pos, PartsText(parts) + [QUOTE])
    ensures var r := AfterText(b, TextFrom(b, pos, column, s));
      r.Value? && r.value == s + PartsValue(parts) && r.pos == pos + |PartsText(parts)| + 1
    decreases |parts|
  {
    hide HasAt, AfterText, TextFrom, ScalarFrom, PartText, GapValue, PartsOk, IndicatorAt;
    if parts == [] {
      assert s + [] == s && [] + [QUOTE] == [QUOTE];
      HasByte(b, pos, [QUOTE], 0);
      QuoteNext(b, pos, column, s);
    } else {
      var p := parts[0];
      var c := PartRead(b, pos, column, s, parts);
      var at, gap := pos + |PartText(p)| - |p.text|, GapValue(p);
      GoesOn(b, at, c, s + gap);
      OkRest(parts);
      PlainRead(b, at, c, s + gap, p.text);
      assert s + gap + p.text == s + PartValue(p);
      HasSplit3(b, at, p.text, PartsText(parts[1..]), [QUOTE]);
      HasJoin(b, at + |p.text|, PartsText(parts[1..]), [QUOTE]);
      PartsRead(b, at + |p.text|, c + |p.text|, s + PartValue(p), parts[1..]);
      assert s + PartValue(p) + PartsValue(parts[1..]) == s + PartsValue(parts);
    }
  }

  lemma OkRest(parts: seq<Part>)
    requires parts != [] && PartsOk(parts)
    ensures PartsOk(parts[1..]) && Plain(parts[0].text)
  {
  }

  /** A scalar of several lines, wherever it stands, is read as its texts with what the folding leaves of the gaps between them. */
  method ScanLines(before: Bytes, text: Bytes, parts: seq<Part>, after: Bytes, column: nat) returns (r: Scanned)
    requires Plain(text) && PartsOk(parts)
    ensures r.Value? && r.value == text + PartsValue(parts) && r.pos == |before| + |text| + |PartsText(parts)| + 2
  {
    hide HasAt, AfterText, TextFrom, PartsText, PartsValue, PartsOk;
    var buffer := before + ([QUOTE] + (text + PartsText(parts) + [QUOTE])) + after;
    Embedded(before, [QUOTE] + (text + PartsText(parts) + [QUOTE]), after, buffer);
    ScalarRead(buffer, |before|, column, text, parts);
    var sc := new Scanner(buffer, |before|, column);
    r := sc.ScanFlowScalar();
  }

  lemma ScalarRead(b: Bytes, i: nat, column: nat, text: Bytes, parts: seq<Part>)
    requires Plain(text) && PartsOk(parts) && HasAt(b, i, [QUOTE] + (text + PartsText(parts) + [QUOTE]))
    ensures ByteAt(b, i) == QUOTE
    ensures var r := ScalarFrom(b, i + 1, column + 1, []);
      r.Value? && r.value == text + PartsValue(parts) && r.pos == i + |text| + |PartsText(parts)| + 2
  {
    hide HasAt, AfterText, TextFrom, PartsText, PartsValue, PartsOk, ScalarFrom;
    var scalar := text + PartsText(parts) + [QUOTE];
    HasSplit(b, i, [QUOTE], scalar);
    HasByte(b, i, [QUOTE], 0);
    HasSplit3(b, i + 1, text, PartsText(parts), [QUOTE]);
    HasJoin(b, i + 1 + |text|, PartsText(parts), [QUOTE]);
    ScalarBegins(b, i + 1, text, parts);
    GoesOn(b, i + 1, column + 1, []);
    PlainRead(b, i + 1, column + 1, [], text);
    assert [] + text == text;
    PartsRead(b, i + 1 + |text|, column + 1 + |text|, text, parts);
  }

  lemma Embedded(before: Bytes, s: Bytes, after: Bytes, buffer: Bytes)
    requires buffer == before + s + after
    ensures HasAt(buffer, |before|, s)
  {
  }

  lemma ScalarBegins(b: Bytes, pos: nat, text: Bytes, parts: seq<Part>)
    requires Plain(text) && PartsOk(parts) && HasAt(b, pos, text + PartsText(parts) + [QUOTE])
    ensures ByteAt(b, pos) != 0
  {
    hide HasAt, ByteAt;
    HasSplit3(b, pos, text, PartsText(parts), [QUOTE]);
    if text != [] {
      HasByte(b, pos, text, 0);
    } else if parts == [] {
      HasByte(b, pos, [QUOTE], 0);
    } else {
      PartLaid(b, pos, parts);
      var p := parts[0];
      if p.blanks != [] {
        HasByte(b, pos, p.blanks, 0);
      } else if p.escaped {
        HasByte(b, pos, [BACKSLASH], 0);
      } else {
        FirstLine(b, pos, p.lines);
        OtherBreak(b, pos, p.lines[0].brk);
      }
    }
  }

  /** a, an empty line, b: the empty line stays as a line feed. */
  method EmptyLine() returns (r: Scanned)
    ensures r.Value? && r.value == [0x61, 0x0A, 0x62] && r.pos == 6
  {
    var p := Part([], false, [Line(LF, []), Line(LF, [])], [0x62]);
    r := ScanLines([], [0x61], [p], [], 0);
    assert [p][1..] == [];
  }

  // ---------- the escapes ----------

  /** Every letter that may follow a backslash, and what the escape stands for. */
  lemma Escapes(b: Bytes, i: nat)
    ensures var e, r := ByteAt(b, i + 1), EscapeAt(b, i);
      && (e == 0x30 ==> r == Escaped([0x00], 2)) && (e == 0x61 ==> r == Escaped([0x07], 2)) && (e == 0x62 ==> r == Escaped([0x08], 2))
      && (e == 0x74 || e == 0x09 ==> r == Escaped([0x09], 2)) && (e == 0x6E ==> r == Escaped([0x0A], 2))
      && (e == 0x76 ==> r == Escaped([0x0B], 2)) && (e == 0x66 ==> r == Escaped([0x0C], 2)) && (e == 0x72 ==> r == Escaped([0x0D], 2))
      && (e == 0x65 ==> r == Escaped([0x1B], 2)) && (e == 0x20 || e == 0x22 || e == 0x27 || e == 0x5C ==> r == Escaped([e], 2))
      && (e == 0x4E ==> r == Escaped([0xC2, 0x85], 2)) && (e == 0x5F ==> r == Escaped([0xC2, 0xA0], 2))
      && (e == 0x4C ==> r == Escaped([0xE2, 0x80, 0xA8], 2)) && (e == 0x50 ==> r == Escaped([0xE2, 0x80, 0xA9], 2))
    ensures EscapeAt(b, i) == Bad(UnknownEscape) <==>
      ByteAt(b, i + 1) !in {0x30, 0x61, 0x62, 0x74, 0x09, 0x6E, 0x76, 0x66, 0x72, 0x65, 0x20, 0x22, 0x27, 0x5C, 0x4E, 0x5F, 0x4C, 0x50, 0x78, 0x75, 0x55}
  {
    hide CodeAt, Utf8, ByteAt;
  }

  /** The digits of a number, most significant first, in either case. */
  ghost predicate Digits(s: Bytes, ds: seq<nat>) {
    && |s| == |ds|
    && forall i :: 0 <= i < |s| ==>
         ds[i] < 16 && (s[i] == 0x30 + ds[i] < 0x3A || 0x41 <= s[i] == 0x37 + ds[i] || 0x61 <= s[i] == 0x57 + ds[i])
  }

  ghost function Number(ds: seq<nat>): nat {
    if ds == [] then 0 else Number(ds[..|ds| - 1]) * 16 + ds[|ds| - 1]
  }

  lemma {:induction false} CodeDigits(b: Bytes, i: nat, s: Bytes, ds: seq<nat>, done: nat)
    requires HasAt(b, i, s) && Digits(s, ds) && done <= |ds|
    ensures CodeAt(b, i, |ds|, 0) == CodeAt(b, i + done, |ds| - done, Number(ds[..done]))
    decreases done
  {
    hide HasAt, ByteAt;
    if done > 0 {
      CodeDigits(b, i, s, ds, done - 1);
      HasByte(b, i, s, done - 1);
      assert ds[..done][..done - 1] == ds[..done - 1];
    }
  }

  /** A numeric escape of two, four or eight hexadecimal digits, in either case, is the character of that number. */
  lemma NumericEscape(b: Bytes, i: nat, letter: Byte, s: Bytes, ds: seq<nat>)
    requires HasAt(b, i, [BACKSLASH, letter] + s) && Digits(s, ds)
    requires (letter == 0x78 && |s| == 2) || (letter == 0x75 && |s| == 4) || (letter == 0x55 && |s| == 8)
    ensures EscapeAt(b, i) == if 0xD800 <= Number(ds) < 0xE000 || Number(ds) >= 0x11_0000 then Bad(BadCode) else Escaped(Utf8(Number(ds)), 2 + |s|)
  {
    hide HasAt, ByteAt, CodeAt, Utf8;
    HasSplit(b, i, [BACKSLASH, letter], s);
    HasByte(b, i, [BACKSLASH, letter], 1);
    CodeDigits(b, i + 2, s, ds, |ds|);
    assert ds[..|ds|] == ds;
    NoDigits(b, i + 2 + |ds|, Number(ds));
  }

  lemma NoDigits(b: Bytes, i: nat, v: nat)
    ensures CodeAt(b, i, 0, v).Some? && CodeAt(b, i, 0, v).value == v
  {
  }
}
