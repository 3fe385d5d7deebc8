/** The emitter's double-quoted form, written byte by byte. */
module YamlEmitting {
  import opened Keys
  import opened YamlChars
  import opened YamlQuoting

  /** The indentation one level further in; a flow collection or a scalar at the top gets a whole level. */
  function Increased(indent: int, bestIndent: int, flow: bool, indentless: bool): int {
    if indent < 0 then (if flow then bestIndent else 0) else if indentless then indent else indent + bestIndent
  }

  class Emitter {
    /** The settings in force; the indentation changes as collections open and close. */
    var cfg: Config
    var bestIndent: int
    var indents: seq<int>
    var out: Bytes
    var column: int
    var line: nat
    var whitespace: bool
    var indention: bool
    var openEnded: bool

    /** An emitter with any settings. */
    constructor (cfg: Config, bestIndent: int)
      ensures this.cfg == cfg && this.bestIndent == bestIndent && out == [] && indents == []
    {
      this.cfg, this.bestIndent, indents, out, column, line := cfg, bestIndent, [], [], 0, 0;
      whitespace, indention, openEnded := false, false, false;
    }

    // ---------- indentation ----------

    /** The stream has started: the step of indentation is reasonable, and no indentation is below that of the stream. */
    ghost predicate Started()
      reads this`cfg, this`bestIndent, this`indents
    {
      2 <= bestIndent <= 9 && cfg.indent >= -1 && cfg.width > 2 * bestIndent && forall i :: 0 <= i < |indents| ==> indents[i] >= -1
    }

    /** emit_stream_start: settings out of range are replaced. */
    method StreamStart()
      requires indents == []
      modifies this
      ensures Started() && cfg.indent == -1 && column == 0 && whitespace && indention && out == old(out) && indents == []
      ensures bestIndent == if 2 <= old(bestIndent) <= 9 then old(bestIndent) else 2
      ensures cfg.width == old(cfg.width) || (0 <= old(cfg.width) <= 2 * bestIndent && cfg.width == 80) || (old(cfg.width) < 0 && cfg.width == 0x7FFF_FFFF)
    {
      if bestIndent < 2 || bestIndent > 9 {
        bestIndent := 2;
      }
      if 0 <= cfg.width <= bestIndent * 2 {
        cfg := cfg.(width := 80);
      }
      if cfg.width < 0 {
        cfg := cfg.(width := 0x7FFF_FFFF);
      }
      cfg := cfg.(indent := -1);
      line, column, whitespace, indention := 0, 0, true, true;
    }

    /** increase_indent */
    method IncreaseIndent(flow: bool, indentless: bool)
      requires Started()
      modifies this`cfg, this`indents
      ensures Started() && indents == old(indents) + [old(cfg.indent)]
      ensures cfg == old(cfg).(indent := Increased(old(cfg.indent), bestIndent, flow, indentless))
    {
      indents := indents + [cfg.indent];
      if cfg.indent < 0 {
        cfg := cfg.(indent := if flow then bestIndent else 0);
      } else if !indentless {
        cfg := cfg.(indent := cfg.indent + bestIndent);
      }
    }

    /** Back to the indentation of the level outside. */
    method RestoreIndent()
      requires Started() && indents != []
      modifies this`cfg, this`indents
      ensures Started() && indents == old(indents)[..|old(indents)| - 1]
      ensures cfg == old(cfg).(indent := old(indents)[|old(indents)| - 1])
    {
      cfg := cfg.(indent := indents[|indents| - 1]);
      indents := indents[..|indents| - 1];
    }

    /** emit_scalar, for a scalar in double quotes: it is written one level further in, at two columns or more. */
    method EmitScalar(value: Bytes, simpleKey: bool, ghost cs: seq<Char>) returns (at: nat, column0: int, inner: Config)
      requires Started() && value == EncodeAll(cs)
      modifies this
      ensures Started() && indents == old(indents) && bestIndent == old(bestIndent) && cfg == old(cfg).(allowBreaks := !simpleKey)
      ensures inner == cfg.(indent := Increased(cfg.indent, bestIndent, true, false)) && inner.indent >= 2
      ensures at == |old(out)| + (if old(whitespace) then 0 else 1)
      ensures out == old(out) + (if old(whitespace) then [] else [SPACE]) + Written(cs, column0, inner)
    {
      IncreaseIndent(true, false);
      cfg := cfg.(allowBreaks := !simpleKey);
      at := |out| + (if whitespace then 0 else 1);
      inner, column0 := cfg, column + (if whitespace then 1 else 2);
      WriteDoubleQuoted(value, cs);
      RestoreIndent();
    }

    // ---------- writing ----------

    /** put */
    method Put(b: Byte)
      modifies this`out, this`column
      ensures out == old(out) + [b] && column == old(column) + 1
    {
      out, column := out + [b], column + 1;
    }

    /** put_break */
    method PutBreak()
      modifies this`out, this`column, this`line
      ensures out == old(out) + BreakBytes(cfg.lineBreak) && column == 0
    {
      match cfg.lineBreak {
        case CR => out := out + [0x0D];
        case LN => out := out + [0x0A];
        case CRLN => out := out + [0x0D, 0x0A];
      }
      column, line := 0, line + 1;
    }

    /** write: copy the character at i and move past it. */
    method WriteChar(s: Bytes, i: nat, ghost c: Char) returns (next: nat)
      requires HasAt(s, i, Utf8(c))
      modifies this`out, this`column
      ensures out == old(out) + Utf8(c) && column == old(column) + 1 && next == i + |Utf8(c)|
    {
      ClassesAt(s, i, c);
      var w := Width(s[i]);
      out, column := out + s[i..i + w], column + 1;
      next := i + w;
    }

    /** write_indicator, for the quotes */
    method WriteQuote(needWhitespace: bool)
      modifies this`out, this`column, this`whitespace, this`indention, this`openEnded
      ensures out == old(out) + (if needWhitespace && !old(whitespace) then [SPACE] else []) + [QUOTE]
      ensures column == old(column) + (if needWhitespace && !old(whitespace) then 2 else 1)
      ensures !whitespace && !indention
    {
      if needWhitespace && !whitespace {
        Put(SPACE);
      }
      Put(QUOTE);
      whitespace, indention, openEnded := false, false, false;
    }

    /** write_indent: a new line unless the current one is as good as new, then the indentation. */
    method WriteIndent()
      requires !indention || column > IndentOf(cfg)
      modifies this`out, this`column, this`line, this`whitespace, this`indention
      ensures out == old(out) + Render(Fold, cfg) && column == IndentOf(cfg) && whitespace && indention
    {
      var indent := if cfg.indent < 0 then 0 else cfg.indent;
      if !indention || column > indent || (column == indent && !whitespace) {
        PutBreak();
      }
      ghost var base := out;
      while column < indent
        invariant 0 <= column <= indent && out == base + Spaces(column)
      {
        assert Spaces(column) + [SPACE] == Spaces(column + 1);
        Put(SPACE);
      }
      whitespace, indention := true, true;
    }

    /** w hexadecimal digits of v, from its most significant end. */
    method PutDigits(v: nat, w: nat)
      modifies this`out, this`column
      ensures out == old(out) + Hex(v, w) && column == old(column) + w
    {
      var k := w;
      while k > 0
        invariant 0 <= k <= w && out == old(out) + Hex(Shifted(v, k), w - k) && column == old(column) + w - k
      {
        k := k - 1;
        Put(HexDigit(Shifted(v, k) % 16));
      }
    }

    /** The backslash and what follows it. */
    method WriteEscape(c: Char)
      modifies this`out, this`column
      ensures out == old(out) + Render(Esc(c), cfg) && column == old(column) + 1 + |EscapeBody(c)|
    {
      hide Letter, Hex, HexDigit, Render, EscapeBody, NumericForm;
      Put(BACKSLASH);
      if Letter(c).Some? {
        LetterParts(old(out), c, cfg);
        Put(Letter(c).value);
      } else {
        NumericParts(old(out), c, cfg);
        var w := if c <= 0xFF then 2 else if c <= 0xFFFF then 4 else 8;
        Put(if c <= 0xFF then 0x78 else if c <= 0xFFFF then 0x75 else 0x55);
        PutDigits(c, w);
      }
    }

    /** write_double_quoted_scalar: for the UTF-8 form of any characters, the quotes around the planned pieces. */
    method WriteDoubleQuoted(value: Bytes, ghost cs: seq<Char>)
      requires value == EncodeAll(cs)
      modifies this`out, this`column, this`line, this`whitespace, this`indention, this`openEnded
      ensures out == old(out) + (if old(whitespace) then [] else [SPACE])
        + Written(cs, old(column) + (if old(whitespace) then 1 else 2), cfg)
    {
      hide Plan, RenderAll, EncodeAll;
      WriteQuote(true);
      WriteBody(value, cs);
      WriteQuote(false);
    }

    method WriteBody(value: Bytes, ghost cs: seq<Char>)
      requires value == EncodeAll(cs) && !indention
      modifies this`out, this`column, this`line, this`whitespace, this`indention, this`openEnded
      ensures out == old(out) + RenderAll(Plan(cs, 0, old(column), false, false, cfg), cfg)
    {
      hide Plan, MustEscape, Render, RenderAll, Printable, IsPrintableAt, IsBreakAt, IsBreakChar, Utf8, EncodeAll, HasAt, Writing;
      var spaces, i: nat := false, 0;
      ghost var k, slash, done := 0, false, [];
      ghost var plan := Plan(cs, 0, column, false, false, cfg);
      StartOfBody(cs, column, cfg);
      while i < |value|
        invariant Writing(cs, k, i, done, plan, column, spaces, slash, cfg)
        invariant out == old(out) + RenderAll(done, cfg) + (if slash then [BACKSLASH] else [])
        invariant indention ==> column > IndentOf(cfg) || (spaces && column == IndentOf(cfg))
        decreases |cs| - k
      {
        Here(cs, k, i, done, plan, column, spaces, slash, cfg);
        if MustEscapeAt(value, i) {
          EscapeNext(cs, k, i, done, plan, column, spaces, slash, cfg);
          i := EscapeStep(value, i, cs[k]);
          done, spaces, slash := done + [Esc(cs[k])], false, false;
        } else if value[i] == SPACE {
          if cfg.allowBreaks && !spaces && column > cfg.width && i > 0 && i < |value| - 1 {
            FoldNext(cs, k, i, done, plan, column, spaces, slash, cfg);
            i := FoldStep(value, i);
            done, slash := done + [Fold], cs[k + 1] == SPACE;
          } else {
            SpaceNext(cs, k, i, done, plan, column, spaces, slash, cfg);
            i := WriteChar(value, i, cs[k]);
            done, slash := done + [if slash then SlashSpace else Raw(SPACE)], false;
          }
          spaces := true;
        } else {
          RawNext(cs, k, i, done, plan, column, spaces, slash, cfg);
          i := WriteChar(value, i, cs[k]);
          done, spaces, slash := done + [Raw(cs[k])], false, false;
        }
        k := k + 1;
      }
      EndOfBody(cs, k, i, done, plan, column, spaces, slash, cfg);
    }

    /** The condition for escaping the character at i. */
    predicate MustEscapeAt(value: Bytes, i: nat)
      requires i < |value|
      reads this`cfg
    {
      !IsPrintableAt(value, i) || (!cfg.unicode && value[i] > 0x7F) || IsBom(value) || IsBreakAt(value, i)
        || value[i] == QUOTE || value[i] == BACKSLASH
    }

    /** Escape the character at i, put together from its bytes. */
    method EscapeStep(value: Bytes, i: nat, ghost c: Char) returns (next: nat)
      requires HasAt(value, i, Utf8(c))
      modifies this`out, this`column
      ensures out == old(out) + Render(Esc(c), cfg) && column == old(column) + 1 + |EscapeBody(c)| && next == i + |Utf8(c)|
    {
      ClassesAt(value, i, c);
      GatherAt(value, i, c);
      var w := Width(value[i]);
      var v := Gather(value, i, w);
      WriteEscape(v);
      next := i + w;
    }

    /** Fold the line at the space at i; a space behind it needs a backslash. */
    method FoldStep(value: Bytes, i: nat) returns (next: nat)
      requires i + 1 < |value| && (!indention || column > IndentOf(cfg))
      modifies this`out, this`column, this`line, this`whitespace, this`indention
      ensures out == old(out) + Render(Fold, cfg) + (if value[i + 1] == SPACE then [BACKSLASH] else [])
      ensures column == IndentOf(cfg) + (if value[i + 1] == SPACE then 1 else 0) && indention && next == i + 1
    {
      WriteIndent();
      if value[i + 1] == SPACE {
        Put(BACKSLASH);
      }
      next := i + 1;
    }
  }

  lemma LetterParts(s: Bytes, c: Char, cfg: Config)
    requires Letter(c).Some?
    ensures s + Render(Esc(c), cfg) == s + [BACKSLASH] + [Letter(c).value] && |EscapeBody(c)| == 1
  {
    hide Letter;
  }

  lemma NumericParts(s: Bytes, c: Char, cfg: Config)
    requires Letter(c).None?
    ensures var w := if c <= 0xFF then 2 else if c <= 0xFFFF then 4 else 8;
      var b := if c <= 0xFF then 0x78 else if c <= 0xFFFF then 0x75 else 0x55;
      s + Render(Esc(c), cfg) == s + [BACKSLASH] + [b] + Hex(c, w) && |EscapeBody(c)| == 1 + w
  {
    hide Letter, Hex;
  }

  /** How far the emitter has got: k characters, i bytes, the pieces done, and the plan for the rest. */
  ghost predicate Writing(cs: seq<Char>, k: nat, i: nat, done: seq<Piece>, plan: seq<Piece>, column: int, spaces: bool, slash: bool, cfg: Config) {
    && k <= |cs| && i == |EncodeAll(cs[..k])|
    && plan == done + Plan(cs, k, column, spaces, slash, cfg)
    && (slash ==> spaces && k < |cs| && cs[k] == SPACE && !MustEscape(cs, k, cfg))
  }

  /** The character whose turn it is. */
  lemma Here(cs: seq<Char>, k: nat, i: nat, done: seq<Piece>, plan: seq<Piece>, column: int, spaces: bool, slash: bool, cfg: Config)
    requires Writing(cs, k, i, done, plan, column, spaces, slash, cfg) && i < |EncodeAll(cs)|
    ensures k < |cs| && HasAt(EncodeAll(cs), i, Utf8(cs[k])) && (EncodeAll(cs)[i] == SPACE <==> cs[k] == SPACE)
    ensures var value := EncodeAll(cs);
      MustEscape(cs, k, cfg) <==>
        (!IsPrintableAt(value, i) || (!cfg.unicode && value[i] > 0x7F) || IsBom(value) || IsBreakAt(value, i)
         || value[i] == QUOTE || value[i] == BACKSLASH)
  {
    hide Plan, MustEscape, Utf8, EncodeAll, IsPrintableAt, IsBreakAt;
    CharHere(cs, k, i);
    ClassesAt(EncodeAll(cs), i, cs[k]);
    EscapeHere(cs, k, i, cfg);
  }

  lemma StartOfBody(cs: seq<Char>, column: int, cfg: Config)
    ensures Writing(cs, 0, 0, [], Plan(cs, 0, column, false, false, cfg), column, false, false, cfg)
    ensures RenderAll([], cfg) == []
  {
    assert cs[..0] == [];
  }

  lemma EndOfBody(cs: seq<Char>, k: nat, i: nat, done: seq<Piece>, plan: seq<Piece>, column: int, spaces: bool, slash: bool, cfg: Config)
    requires Writing(cs, k, i, done, plan, column, spaces, slash, cfg) && i >= |EncodeAll(cs)|
    ensures done == plan && !slash
  {
    CharHere(cs, k, i);
  }

  /** The character at position k and its bytes at i. */
  lemma CharHere(cs: seq<Char>, k: nat, i: nat)
    requires k <= |cs| && i == |EncodeAll(cs[..k])|
    ensures i < |EncodeAll(cs)| <==> k < |cs|
    ensures i == 0 <==> k == 0
    ensures k < |cs| ==>
      && HasAt(EncodeAll(cs), i, Utf8(cs[k])) && |EncodeAll(cs[..k + 1])| == i + |Utf8(cs[k])|
      && (i + |Utf8(cs[k])| == |EncodeAll(cs)| <==> k + 1 == |cs|)
  {
    hide Utf8, HasAt;
    Around(cs, k);
    EncodeConcat(cs[..k], cs[k..]);
    EncodeSome(cs[..k]);
    EncodeSome(cs[k..]);
    if k < |cs| {
      EncodeConcat([cs[k]], cs[k + 1..]);
      EncodeConcat(cs[..k], [cs[k]]);
      EncodeOne(cs[k]);
      EncodeSome(cs[k + 1..]);
      Prefix(EncodeAll(cs[..k]), Utf8(cs[k]), EncodeAll(cs[k + 1..]));
    }
  }

  lemma Around<T>(s: seq<T>, k: nat)
    requires k <= |s|
    ensures s == s[..k] + s[k..] && (k < |s| ==> s[k..] == [s[k]] + s[k + 1..] && s[..k + 1] == s[..k] + [s[k]])
  {
  }

  lemma Prefix(a: Bytes, b: Bytes, c: Bytes)
    ensures HasAt(a + (b + c), |a|, b)
  {
  }

  lemma EncodeSome(cs: seq<Char>)
    ensures EncodeAll(cs) == [] <==> cs == []
  {
  }

  lemma EscapeHere(cs: seq<Char>, k: nat, i: nat, cfg: Config)
    requires k < |cs| && i < |EncodeAll(cs)| && HasAt(EncodeAll(cs), i, Utf8(cs[k]))
    ensures var value := EncodeAll(cs);
      MustEscape(cs, k, cfg) <==>
        (!IsPrintableAt(value, i) || (!cfg.unicode && value[i] > 0x7F) || IsBom(value) || IsBreakAt(value, i)
         || value[i] == QUOTE || value[i] == BACKSLASH)
  {
    hide Utf8, IsPrintableAt, IsBreakAt, EncodeAll;
    ClassesAt(EncodeAll(cs), i, cs[k]);
    BomAt(cs);
  }

  lemma Extend(done: seq<Piece>, p: Piece, rest: seq<Piece>, cfg: Config)
    ensures done + ([p] + rest) == (done + [p]) + rest
    ensures RenderAll(done + [p], cfg) == RenderAll(done, cfg) + Render(p, cfg)
  {
    hide Render;
    RenderConcat(done, [p], cfg);
    RenderOne(p, cfg);
  }

  /** One more piece of the plan. */
  lemma NextPiece(cs: seq<Char>, k: nat, i: nat, done: seq<Piece>, plan: seq<Piece>, column: int, spaces: bool, slash: bool,
                  cfg: Config, p: Piece, column2: int, spaces2: bool, slash2: bool)
    requires Writing(cs, k, i, done, plan, column, spaces, slash, cfg) && k < |cs|
    requires Plan(cs, k, column, spaces, slash, cfg) == [p] + Plan(cs, k + 1, column2, spaces2, slash2, cfg)
    requires slash2 ==> spaces2 && k + 1 < |cs| && cs[k + 1] == SPACE && !MustEscape(cs, k + 1, cfg)
    ensures Writing(cs, k + 1, i + |Utf8(cs[k])|, done + [p], plan, column2, spaces2, slash2, cfg)
    ensures RenderAll(done + [p], cfg) == RenderAll(done, cfg) + Render(p, cfg)
  {
    hide Plan, MustEscape, Render, RenderAll, Utf8, EncodeAll, HasAt;
    CharHere(cs, k, i);
    Extend(done, p, Plan(cs, k + 1, column2, spaces2, slash2, cfg), cfg);
  }

  lemma EscapeNext(cs: seq<Char>, k: nat, i: nat, done: seq<Piece>, plan: seq<Piece>, column: int, spaces: bool, slash: bool, cfg: Config)
    requires Writing(cs, k, i, done, plan, column, spaces, slash, cfg) && k < |cs| && MustEscape(cs, k, cfg)
    ensures !slash && RenderAll(done + [Esc(cs[k])], cfg) == RenderAll(done, cfg) + Render(Esc(cs[k]), cfg)
    ensures Writing(cs, k + 1, i + |Utf8(cs[k])|, done + [Esc(cs[k])], plan, column + 1 + |EscapeBody(cs[k])|, false, false, cfg)
  {
    hide MustEscape, Render, RenderAll, Utf8, EncodeAll;
    NextPiece(cs, k, i, done, plan, column, spaces, slash, cfg, Esc(cs[k]), column + 1 + |EscapeBody(cs[k])|, false, false);
  }

  lemma RawNext(cs: seq<Char>, k: nat, i: nat, done: seq<Piece>, plan: seq<Piece>, column: int, spaces: bool, slash: bool, cfg: Config)
    requires Writing(cs, k, i, done, plan, column, spaces, slash, cfg) && k < |cs| && !MustEscape(cs, k, cfg) && cs[k] != SPACE
    ensures !slash && RenderAll(done + [Raw(cs[k])], cfg) == RenderAll(done, cfg) + Utf8(cs[k])
    ensures Writing(cs, k + 1, i + |Utf8(cs[k])|, done + [Raw(cs[k])], plan, column + 1, false, false, cfg)
  {
    hide MustEscape, RenderAll, Utf8, EncodeAll;
    NextPiece(cs, k, i, done, plan, column, spaces, slash, cfg, Raw(cs[k]), column + 1, false, false);
  }

  lemma SpaceNext(cs: seq<Char>, k: nat, i: nat, done: seq<Piece>, plan: seq<Piece>, column: int, spaces: bool, slash: bool, cfg: Config)
    requires Writing(cs, k, i, done, plan, column, spaces, slash, cfg) && k < |cs| && !MustEscape(cs, k, cfg) && cs[k] == SPACE
    requires !(cfg.allowBreaks && !spaces && column > cfg.width && i > 0 && i < |EncodeAll(cs)| - 1)
    ensures var p := if slash then SlashSpace else Raw(SPACE);
      && RenderAll(done + [p], cfg) == RenderAll(done, cfg) + (if slash then [BACKSLASH] else []) + Utf8(cs[k])
      && Writing(cs, k + 1, i + |Utf8(cs[k])|, done + [p], plan, column + 1, true, false, cfg)
  {
    hide MustEscape, RenderAll, EncodeAll;
    CharHere(cs, k, i);
    var p := if slash then SlashSpace else Raw(SPACE);
    assert !MayFold(cs, k, column, spaces, cfg);
    NextPiece(cs, k, i, done, plan, column, spaces, slash, cfg, p, column + 1, true, false);
    assert [BACKSLASH, SPACE] == [BACKSLASH] + Utf8(SPACE);
  }

  lemma FoldNext(cs: seq<Char>, k: nat, i: nat, done: seq<Piece>, plan: seq<Piece>, column: int, spaces: bool, slash: bool, cfg: Config)
    requires Writing(cs, k, i, done, plan, column, spaces, slash, cfg) && k < |cs| && !MustEscape(cs, k, cfg) && cs[k] == SPACE
    requires cfg.allowBreaks && !spaces && column > cfg.width && i > 0 && i < |EncodeAll(cs)| - 1
    ensures !slash && |Utf8(cs[k])| == 1 && k + 1 < |cs| && (EncodeAll(cs)[i + 1] == SPACE <==> cs[k + 1] == SPACE)
    ensures RenderAll(done + [Fold], cfg) == RenderAll(done, cfg) + Render(Fold, cfg)
    ensures var more := cs[k + 1] == SPACE;
      Writing(cs, k + 1, i + 1, done + [Fold], plan, IndentOf(cfg) + (if more then 1 else 0), true, more, cfg)
  {
    hide Render, RenderAll, EncodeAll, IsPrintableAt, IsBreakAt;
    CharHere(cs, k, i);
    CharHere(cs, k + 1, i + 1);
    ClassesAt(EncodeAll(cs), i + 1, cs[k + 1]);
    var more := cs[k + 1] == SPACE;
    NextPiece(cs, k, i, done, plan, column, spaces, slash, cfg, Fold, IndentOf(cfg) + (if more then 1 else 0), true, more);
  }
}
