/** Double-quoted scalars: what the emitter writes, piece by piece, and the emitter that writes it. */
module YamlQuoting {
  import opened Keys
  import opened Options
  import opened YamlChars

  datatype LineBreak = CR | LN | CRLN

  /** The emitter's settings; width is best_width, indent the current indentation. */
  datatype Config = Config(unicode: bool, allowBreaks: bool, width: int, indent: int, lineBreak: LineBreak)

  function BreakBytes(b: LineBreak): Bytes {
    match b
    case CR => [0x0D]
    case LN => [0x0A]
    case CRLN => [0x0D, 0x0A]
  }

  /** write_indent treats a negative indentation as none. */
  function IndentOf(cfg: Config): nat {
    if cfg.indent < 0 then 0 else cfg.indent
  }

  function Spaces(n: nat): Bytes {
    seq(n, _ => 0x20)
  }

  // ---------- escapes ----------

  /** The escape letter of a character that has one of its own. */
  function Letter(c: Char): Opt<Byte> {
    if c == 0x00 then Some(0x30) else if c == 0x07 then Some(0x61) else if c == 0x08 then Some(0x62)
    else if c == 0x09 then Some(0x74) else if c == 0x0A then Some(0x6E) else if c == 0x0B then Some(0x76)
    else if c == 0x0C then Some(0x66) else if c == 0x0D then Some(0x72) else if c == 0x1B then Some(0x65)
    else if c == 0x22 then Some(0x22) else if c == 0x5C then Some(0x5C) else if c == 0x85 then Some(0x4E)
    else if c == 0xA0 then Some(0x5F) else if c == 0x2028 then Some(0x4C) else if c == 0x2029 then Some(0x50)
    else None
  }

  function HexDigit(d: nat): Byte
    requires d < 16
  {
    if d < 10 then 0x30 + d else 0x41 + d - 10
  }

  /** v in w hexadecimal digits, most significant first. */
  function Hex(v: nat, w: nat): (s: Bytes)
    ensures |s| == w
  {
    if w == 0 then [] else Hex(v / 16, w - 1) + [HexDigit(v % 16)]
  }

  /** v shifted right by n hexadecimal digits. */
  function Shifted(v: nat, n: nat): nat {
    if n == 0 then v else Shifted(v, n - 1) / 16
  }

  /** The letter and the number of digits of a numeric escape. */
  function NumericForm(c: Char): (Byte, nat) {
    if c <= 0xFF then (0x78, 2) else if c <= 0xFFFF then (0x75, 4) else (0x55, 8)
  }

  /** What follows the backslash. */
  function EscapeBody(c: Char): (s: Bytes)
    ensures |s| >= 1
  {
    if Letter(c).Some? then [Letter(c).value] else [NumericForm(c).0] + Hex(c, NumericForm(c).1)
  }

  // ---------- pieces ----------

  /** One character of the value as written: itself, escaped, a folded line, or a space behind a backslash. */
  datatype Piece = Raw(c: Char) | Esc(c: Char) | Fold | SlashSpace

  function Render(p: Piece, cfg: Config): (s: Bytes)
    ensures |s| >= 1
  {
    match p
    case Raw(c) => Utf8(c)
    case Esc(c) => [BACKSLASH] + EscapeBody(c)
    case Fold => BreakBytes(cfg.lineBreak) + Spaces(IndentOf(cfg))
    case SlashSpace => [BACKSLASH, SPACE]
  }

  function RenderAll(ps: seq<Piece>, cfg: Config): Bytes {
    if ps == [] then [] else RenderAll(ps[..|ps| - 1], cfg) + Render(ps[|ps| - 1], cfg)
  }

  function Meaning(p: Piece): Char {
    if p.Raw? || p.Esc? then p.c else SPACE
  }

  function MeaningAll(ps: seq<Piece>): seq<Char> {
    seq(|ps|, i requires 0 <= i < |ps| => Meaning(ps[i]))
  }

  lemma {:induction false} RenderConcat(a: seq<Piece>, b: seq<Piece>, cfg: Config)
    ensures RenderAll(a + b, cfg) == RenderAll(a, cfg) + RenderAll(b, cfg)
    decreases |b|
  {
    hide Render;
    if b == [] {
      assert a + b == a;
    } else {
      RenderConcat(a, b[..|b| - 1], cfg);
      assert (a + b)[..|a + b| - 1] == a + b[..|b| - 1];
    }
  }

  lemma RenderOne(p: Piece, cfg: Config)
    ensures RenderAll([p], cfg) == Render(p, cfg)
  {
    assert [p][..0] == [];
  }

  // ---------- the plan ----------

  predicate MustEscape(cs: seq<Char>, k: nat, cfg: Config)
    requires k < |cs|
  {
    var c := cs[k];
    !Printable(c) || (!cfg.unicode && c > 0x7F) || cs[0] == 0xFEFF || IsBreakChar(c) || c == QUOTE || c == BACKSLASH
  }

  /** A line is folded at a single or first space past the preferred width, with text on both sides. */
  predicate MayFold(cs: seq<Char>, k: nat, column: int, spaces: bool, cfg: Config) {
    cfg.allowBreaks && !spaces && column > cfg.width && 0 < k < |cs| - 1
  }

  /**
   * The pieces for the characters from k on, at the given column; spaces tells whether the previous character was a
   * space, slash whether a backslash has been put in front of this one.
   */
  function Plan(cs: seq<Char>, k: nat, column: int, spaces: bool, slash: bool, cfg: Config): seq<Piece>
    requires k <= |cs|
    decreases |cs| - k
  {
    if k == |cs| then []
    else if MustEscape(cs, k, cfg) then
      [Esc(cs[k])] + Plan(cs, k + 1, column + 1 + |EscapeBody(cs[k])|, false, false, cfg)
    else if cs[k] == SPACE then
      if MayFold(cs, k, column, spaces, cfg) then
        var more := cs[k + 1] == SPACE;
        [Fold] + Plan(cs, k + 1, IndentOf(cfg) + (if more then 1 else 0), true, more, cfg)
      else
        [if slash then SlashSpace else Raw(SPACE)] + Plan(cs, k + 1, column + 1, true, false, cfg)
    else
      [Raw(cs[k])] + Plan(cs, k + 1, column + 1, false, false, cfg)
  }

  /** The pieces the emitter writes for a value when its opening quote ends at the given column. */
  function PiecesOf(cs: seq<Char>, column: int, cfg: Config): seq<Piece> {
    Plan(cs, 0, column, false, false, cfg)
  }

  /** What the emitter writes, between the quotes and with them. */
  function Written(cs: seq<Char>, column: int, cfg: Config): Bytes {
    [QUOTE] + RenderAll(PiecesOf(cs, column, cfg), cfg) + [QUOTE]
  }

  /** A piece written as itself is safe inside the quotes. */
  ghost predicate PieceOk(p: Piece) {
    p.Raw? ==> Printable(p.c) && !IsBreakChar(p.c) && p.c != QUOTE && p.c != BACKSLASH
  }

  /** A folded line has no plain space on either side, and folds do not touch. */
  ghost predicate PiecesOk(ps: seq<Piece>) {
    && (forall i :: 0 <= i < |ps| ==> PieceOk(ps[i]))
    && (forall i :: 0 <= i < |ps| - 1 && ps[i].Fold? ==> ps[i + 1] != Raw(SPACE) && !ps[i + 1].Fold?)
    && (forall i :: 0 <= i < |ps| - 1 && ps[i + 1].Fold? ==> ps[i] != Raw(SPACE))
  }

  lemma {:induction false} PlanOk(cs: seq<Char>, k: nat, column: int, spaces: bool, slash: bool, cfg: Config)
    requires k <= |cs|
    ensures var ps := Plan(cs, k, column, spaces, slash, cfg);
      && PiecesOk(ps) && |ps| == |cs| - k && MeaningAll(ps) == cs[k..]
      && (ps != [] && ps[0].Fold? ==> !spaces)
      && (ps != [] && ps[0] == Raw(SPACE) ==> !slash && cs[k] == SPACE)
    decreases |cs| - k
  {
    hide Printable, IsBreakChar, EscapeBody, PiecesOk, IndentOf, MeaningAll;
    if k < |cs| {
      var c, ps := cs[k], Plan(cs, k, column, spaces, slash, cfg);
      var rest := ps[1..];
      if MustEscape(cs, k, cfg) {
        PlanOk(cs, k + 1, column + 1 + |EscapeBody(c)|, false, false, cfg);
      } else if c == SPACE {
        if MayFold(cs, k, column, spaces, cfg) {
          var more := cs[k + 1] == SPACE;
          PlanOk(cs, k + 1, IndentOf(cfg) + (if more then 1 else 0), true, more, cfg);
        } else {
          PlanOk(cs, k + 1, column + 1, true, false, cfg);
        }
      } else {
        PlanOk(cs, k + 1, column + 1, false, false, cfg);
      }
      assert ps == [ps[0]] + rest;
      ConsOk(ps[0], rest);
      assert cs[k..] == [c] + cs[k + 1..];
      MeaningCons(ps[0], rest);
    } else {
      NoPieces();
      assert cs[k..] == [];
    }
  }

  lemma NoPieces()
    ensures PiecesOk([]) && MeaningAll([]) == []
  {
  }

  lemma MeaningCons(p: Piece, rest: seq<Piece>)
    ensures MeaningAll([p] + rest) == [Meaning(p)] + MeaningAll(rest)
  {
  }

  lemma ConsOk(p: Piece, rest: seq<Piece>)
    requires PieceOk(p) && PiecesOk(rest)
    requires rest != [] && p.Fold? ==> rest[0] != Raw(SPACE) && !rest[0].Fold?
    requires rest != [] && rest[0].Fold? ==> p != Raw(SPACE)
    ensures PiecesOk([p] + rest)
  {
  }

  // ---------- which piece a character gets ----------

  /** The column behind a piece. */
  function Behind(p: Piece, column: int, cfg: Config): int {
    match p
    case Raw(_) => column + 1
    case Esc(c) => column + 1 + |EscapeBody(c)|
    case Fold => IndentOf(cfg)
    case SlashSpace => column + 2
  }

  function ColumnBehind(ps: seq<Piece>, column: int, cfg: Config): int {
    if ps == [] then column else ColumnBehind(ps[1..], Behind(ps[0], column, cfg), cfg)
  }

  /** A fold goes where a space is the first of its kind, past the width and inside the text; the space behind it gets a backslash. */
  ghost predicate SpaceAs(p: Piece, cs: seq<Char>, i: nat, column: int, folded: bool, cfg: Config)
    requires i < |cs|
  {
    if cfg.allowBreaks && column > cfg.width && 0 < i < |cs| - 1 && cs[i - 1] != 0x20 then p == Fold
    else p == if folded then SlashSpace else Raw(0x20)
  }

  /** What is asked of the piece at i, given the column before it and whether the piece before it is a fold. */
  ghost predicate KindOk(p: Piece, cs: seq<Char>, i: nat, column: int, folded: bool, cfg: Config)
    requires i < |cs|
  {
    if MustEscape(cs, i, cfg) then p == Esc(cs[i])
    else if cs[i] == SPACE then SpaceAs(p, cs, i, column, folded, cfg)
    else p == Raw(cs[i])
  }

  /** The state of the plan at k: what it knows of the character before, and that a backslash stands before a plain space. */
  ghost predicate PlanAt(cs: seq<Char>, k: nat, spaces: bool, slash: bool, cfg: Config) {
    && k <= |cs| && (spaces <==> k > 0 && cs[k - 1] == SPACE && !MustEscape(cs, k - 1, cfg))
    && (slash ==> spaces && k < |cs| && cs[k] == SPACE && !MustEscape(cs, k, cfg))
  }

  /** The plan's first piece, and the state behind it. */
  lemma PlanStep(cs: seq<Char>, k: nat, column: int, spaces: bool, slash: bool, cfg: Config) returns (column2: int, spaces2: bool, slash2: bool)
    requires k < |cs| && PlanAt(cs, k, spaces, slash, cfg)
    ensures var ps := Plan(cs, k, column, spaces, slash, cfg);
      && ps != [] && PlanAt(cs, k + 1, spaces2, slash2, cfg) && ps[1..] == Plan(cs, k + 1, column2, spaces2, slash2, cfg)
      && KindOk(ps[0], cs, k, column - (if slash then 1 else 0), slash, cfg) && (slash2 ==> ps[0] == Fold)
      && (ps[0] == Fold && k + 1 < |cs| && cs[k + 1] == SPACE ==> slash2)
      && column2 - (if slash2 then 1 else 0) == Behind(ps[0], column - (if slash then 1 else 0), cfg)
  {
    hide EscapeBody, Printable, IsBreakChar, IndentOf;
    slash2 := false;
    if MustEscape(cs, k, cfg) {
      column2, spaces2 := column + 1 + |EscapeBody(cs[k])|, false;
    } else if cs[k] == SPACE && MayFold(cs, k, column, spaces, cfg) {
      slash2 := cs[k + 1] == SPACE;
      column2, spaces2 := IndentOf(cfg) + (if slash2 then 1 else 0), true;
    } else {
      column2, spaces2 := column + 1, cs[k] == SPACE;
    }
  }

  lemma {:induction false} PlanKinds(cs: seq<Char>, k: nat, column: int, spaces: bool, slash: bool, cfg: Config, j: nat)
    requires k + j < |cs| && PlanAt(cs, k, spaces, slash, cfg)
    ensures var ps, i := Plan(cs, k, column, spaces, slash, cfg), k + j;
      && j < |ps|
      && KindOk(ps[j], cs, i, ColumnBehind(ps[..j], column - (if slash then 1 else 0), cfg),
                if j == 0 then slash else ps[j - 1] == Fold && cs[i] == SPACE, cfg)
    decreases j
  {
    hide EscapeBody, Plan, PlanAt, MustEscape, SpaceAs, Behind;
    var ps := Plan(cs, k, column, spaces, slash, cfg);
    var column2, spaces2, slash2 := PlanStep(cs, k, column, spaces, slash, cfg);
    if j == 0 {
      assert ps[..0] == [];
    } else {
      PlanKinds(cs, k + 1, column2, spaces2, slash2, cfg, j - 1);
      assert ps[..j][1..] == ps[1..][..j - 1];
    }
  }

  /**
   * For every character of the value: it is escaped exactly if it is not printable, not ASCII where only that may be
   * written, a separator, a quote or a backslash, or if the text begins with a byte order mark. A line is folded exactly at
   * a space that follows no space, behind the preferred width and with text on both sides, where breaks are allowed.
   */
  lemma PieceOfChar(cs: seq<Char>, column: int, cfg: Config, i: nat)
    requires i < |cs|
    ensures var ps := PiecesOf(cs, column, cfg);
      var plain := (0x20 <= cs[i] <= 0x7E && cs[i] != 0x22 && cs[i] != 0x5C) || 0xA0 <= cs[i] <= 0xD7FF || (0xE000 <= cs[i] <= 0xFFFD && cs[i] != 0xFEFF);
      var escape := !plain || (!cfg.unicode && cs[i] > 0x7F) || cs[0] == 0xFEFF || cs[i] == 0x2028 || cs[i] == 0x2029;
      && |ps| == |cs|
      && (ps[i] == Esc(cs[i]) <==> escape)
      && (ps[i] == Fold <==>
            !escape && cs[i] == 0x20 && cfg.allowBreaks && 0 < i < |cs| - 1 && cs[i - 1] != 0x20 && ColumnBehind(ps[..i], column, cfg) > cfg.width)
      && (ps[i] == SlashSpace <==> !escape && cs[i] == 0x20 && i > 0 && ps[i - 1] == Fold)
  {
    hide Plan, EscapeBody, PiecesOk, MeaningAll;
    PlanKinds(cs, 0, column, false, false, cfg, i);
    PlanOk(cs, 0, column, false, false, cfg);
    Spaced(cs, column, cfg, i);
  }

  /** A space behind a fold is not itself a fold. */
  lemma Spaced(cs: seq<Char>, column: int, cfg: Config, i: nat)
    requires i < |cs|
    ensures |PiecesOf(cs, column, cfg)| == |cs| && (i > 0 && PiecesOf(cs, column, cfg)[i - 1] == Fold ==> cs[i - 1] == 0x20)
  {
    hide Plan, MustEscape, PiecesOk, MeaningAll;
    PlanOk(cs, 0, column, false, false, cfg);
    if i > 0 {
      PlanKinds(cs, 0, column, false, false, cfg, i - 1);
    }
  }
}
