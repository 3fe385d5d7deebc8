/** Every token stream that follows the grammar is parsed to its end, into exactly the events it stands for. */
module YamlAcceptance {
  import opened Keys
  import opened Options
  import opened YamlEvents
  import opened YamlTokens
  import opened YamlMachine
  import opened YamlGrammar

  /** The tokens a node can begin with, but for the indicator of an indentless sequence, and those that can follow one. */
  const STARTS: set<TokenType> := {ALIAS, ANCHOR, TAG, SCALAR, BLOCK_SEQUENCE_START, BLOCK_MAPPING_START, FLOW_SEQUENCE_START, FLOW_MAPPING_START}
  const FOLLOWS: set<TokenType> :=
    {BLOCK_ENTRY, BLOCK_END, KEY, VALUE, FLOW_ENTRY, FLOW_SEQUENCE_END, FLOW_MAPPING_END, VERSION_DIRECTIVE, TAG_DIRECTIVE, DOCUMENT_START, DOCUMENT_END, STREAM_END}

  ghost predicate Followed(ts: seq<Token>, i: nat, indentless: bool) {
    TypeIn(ts, i, if indentless then {KEY, VALUE, BLOCK_END} else FOLLOWS)
  }

  // ---------- properties ----------

  lemma FirstType(t: Tree, block: bool, indentless: bool, ds: seq<TagDirective>)
    requires Fits(t, block, indentless, ds)
    ensures Tokens(t) != [] && (Tokens(t)[0].typ in STARTS || (indentless && Tokens(t)[0].typ == BLOCK_ENTRY))
  {
    hide Resolved, ItemsFit, EntriesFit;
  }

  lemma SameTag(ds: seq<TagDirective>, t: Token)
    requires t.typ == TAG
    ensures Resolved(ds, t) == Resolved(ds, Essence(t))
  {
  }

  /** Properties are read as they are written, if no more of them follow. */
  lemma PropsRead(ts: seq<Token>, i: nat, p: Props, ds: seq<TagDirective>)
    requires Laid(ts, i, PropsTokens(p)) && i + |PropsTokens(p)| < |ts| && ts[i + |PropsTokens(p)|].typ !in {ANCHOR, TAG}
    ensures PropertiesAt(ts, i).Some?
    ensures var r := PropertiesAt(ts, i).value;
      r.anchor == AnchorText(p) && r.pos == i + |PropsTokens(p)| && TagOf(ds, r.tag) == FullTag(p, ds)
  {
    hide Resolved, Laid;
    var first, second := if p.tagFirst then TagTokens(p) else AnchorTokens(p), if p.tagFirst then AnchorTokens(p) else TagTokens(p);
    LaidSplit(ts, i, first, second);
    PropRead(ts, i, p, ds, p.tagFirst);
    PropRead(ts, i + |first|, p, ds, !p.tagFirst);
  }

  /** A single property, if it is there: the tag or the anchor. */
  lemma PropRead(ts: seq<Token>, i: nat, p: Props, ds: seq<TagDirective>, tag: bool)
    requires Laid(ts, i, if tag then TagTokens(p) else AnchorTokens(p))
    ensures tag && p.tag.Some? ==> i < |ts| && ts[i].typ == TAG && Some(ts[i].value) == Some(p.tag.value.handle) && Resolved(ds, ts[i]) == FullTag(p, ds)
    ensures !tag && p.anchor.Some? ==> i < |ts| && ts[i].typ == ANCHOR && ts[i].value == p.anchor.value
    ensures |TagTokens(p)| == (if p.tag.Some? then 1 else 0) && |AnchorTokens(p)| == (if p.anchor.Some? then 1 else 0)
  {
    hide Resolved, Laid;
    if tag && p.tag.Some? {
      LaidOne(ts, i, TagTokens(p)[0]);
      SameTag(ds, ts[i]);
    }
    if !tag && p.anchor.Some? {
      LaidOne(ts, i, AnchorTokens(p)[0]);
    }
  }

  /** A node's properties, and then its content. */
  lemma PropsThenContent(ts: seq<Token>, m: Machine, p: Props, block: bool, indentless: bool)
    requires Laid(ts, m.pos, PropsTokens(p)) && PropsFit(p, m.directives)
    requires m.pos + |PropsTokens(p)| < |ts| && ts[m.pos + |PropsTokens(p)|].typ !in {ANCHOR, TAG, ALIAS}
    ensures NodeNext(ts, m, block, indentless)
      == ContentNext(ts, m.(pos := m.pos + |PropsTokens(p)|), block, indentless, AnchorText(p), TagText(p, m.directives))
  {
    hide ContentNext, Resolved, PropertiesAt;
    PropsRead(ts, m.pos, p, m.directives);
    if |PropsTokens(p)| > 0 {
      assert Essence(ts[m.pos + 0]) == PropsTokens(p)[0];
    }
  }

  // ---------- nodes ----------

  /** A node that fits is parsed into its events, and the parser is back in the state that waits for it. */
  lemma {:induction false} NodeRuns(ts: seq<Token>, m: Machine, t: Tree, block: bool, indentless: bool)
    requires Fits(t, block, indentless, m.directives) && m.states != []
    requires Laid(ts, m.pos, Tokens(t)) && Followed(ts, m.pos + |Tokens(t)|, indentless)
    ensures Does(ts, NodeNext(ts, m, block, indentless), Events(t, m.directives), Resumed(m).(pos := m.pos + |Tokens(t)|))
    decreases t, 0
  {
    hide Laid, Resolved, PropsTokens, Next, NodeNext, ContentNext, ItemsFit, EntriesFit, FullTag, Goes;
    match t
    case AliasTo(name) =>
      LaidOne(ts, m.pos, Tok(ALIAS).(value := name));
      AliasNext(ts, m, block, indentless);
      DoesLast(ts, Turn(Alias(name), Skipped(Resumed(m))));
    case Leaf(p, value, plain) =>
      LaidSplit(ts, m.pos, PropsTokens(p), [Tok(SCALAR).(value := value, plain := plain)]);
      LaidOne(ts, m.pos + |PropsTokens(p)|, Tok(SCALAR).(value := value, plain := plain));
      PropsThenContent(ts, m, p, block, indentless);
      LeafNext(ts, m, t, block, indentless);
    case Bare(p) =>
      PropsThenContent(ts, m, p, block, indentless);
      BareNext(ts, m, p, block, indentless);
    case BlockSeq(p, items) => BlockSeqRuns(ts, m, p, items, indentless);
    case Indentless(p, items) => IndentlessRuns(ts, m, p, items, block);
    case BlockMap(p, entries) => BlockMapRuns(ts, m, p, entries, indentless);
    case FlowSeq(p, entries, comma) => FlowSeqRuns(ts, m, p, entries, comma, block, indentless);
    case FlowMap(p, entries, comma) => FlowMapRuns(ts, m, p, entries, comma, block, indentless);
  }

  lemma AliasNext(ts: seq<Token>, m: Machine, block: bool, indentless: bool)
    requires TypeIn(ts, m.pos, {ALIAS})
    ensures NodeNext(ts, m, block, indentless) == Some(Turn(Alias(ts[m.pos].value), Skipped(Resumed(m))))
  {
  }

  lemma LeafNext(ts: seq<Token>, m: Machine, t: Tree, block: bool, indentless: bool)
    requires t.Leaf? && TypeIn(ts, m.pos + |PropsTokens(t.props)|, {SCALAR})
    requires Essence(ts[m.pos + |PropsTokens(t.props)|]) == Tok(SCALAR).(value := t.value, plain := t.plain)
    ensures Does(ts, ContentNext(ts, m.(pos := m.pos + |PropsTokens(t.props)|), block, indentless, AnchorText(t.props), TagText(t.props, m.directives)),
                 Events(t, m.directives), Resumed(m).(pos := m.pos + |Tokens(t)|))
  {
    hide PropsTokens, Resolved, Next, FullTag, Goes;
    var p, tag := t.props, TagText(t.props, m.directives);
    assert tag == BANG ==> tag != [];
    DoesLast(ts, Turn(Events(t, m.directives)[0], Resumed(m).(pos := m.pos + |Tokens(t)|)));
  }

  lemma BareNext(ts: seq<Token>, m: Machine, p: Props, block: bool, indentless: bool)
    requires Followed(ts, m.pos + |PropsTokens(p)|, indentless) && (AnchorText(p) != [] || TagText(p, m.directives) != [])
    ensures Does(ts, ContentNext(ts, m.(pos := m.pos + |PropsTokens(p)|), block, indentless, AnchorText(p), TagText(p, m.directives)),
                 Events(Bare(p), m.directives), Resumed(m).(pos := m.pos + |PropsTokens(p)|))
  {
    hide PropsTokens, Resolved, Next, FullTag, Goes;
    DoesLast(ts, Turn(Events(Bare(p), m.directives)[0], Resumed(m).(pos := m.pos + |PropsTokens(p)|)));
  }

  /** The start of a collection, which its first token announces. */
  lemma CollectionNext(ts: seq<Token>, m: Machine, p: Props, block: bool, indentless: bool, typ: TokenType)
    requires TypeIn(ts, m.pos, {typ}) && typ in {BLOCK_SEQUENCE_START, BLOCK_MAPPING_START, FLOW_SEQUENCE_START, FLOW_MAPPING_START}
    requires typ in {BLOCK_SEQUENCE_START, BLOCK_MAPPING_START} ==> block
    ensures var tag := TagText(p, m.directives);
      ContentNext(ts, m, block, indentless, AnchorText(p), tag) == Some(
        match typ
        case BLOCK_SEQUENCE_START => Turn(SequenceStart(AnchorText(p), tag, tag == []), Go(m, ParseBlockSequenceFirstEntry))
        case BLOCK_MAPPING_START => Turn(MappingStart(AnchorText(p), tag, tag == []), Go(m, ParseBlockMappingFirstKey))
        case FLOW_SEQUENCE_START => Turn(SequenceStart(AnchorText(p), tag, tag == []), Go(m, ParseFlowSequenceFirstEntry))
        case _ => Turn(MappingStart(AnchorText(p), tag, tag == []), Go(m, ParseFlowMappingFirstKey)))
  {
  }

  /** A collection's start, its properties read and its first token in place. */
  lemma Started(ts: seq<Token>, m: Machine, p: Props, block: bool, indentless: bool, typ: TokenType, rest: seq<Token>)
    requires Laid(ts, m.pos, PropsTokens(p) + ([Tok(typ)] + rest)) && PropsFit(p, m.directives)
    requires typ in {BLOCK_SEQUENCE_START, BLOCK_MAPPING_START, FLOW_SEQUENCE_START, FLOW_MAPPING_START}
    requires typ in {BLOCK_SEQUENCE_START, BLOCK_MAPPING_START} ==> block
    ensures var at := m.pos + |PropsTokens(p)|;
      && TypeIn(ts, at, {typ}) && Laid(ts, at + 1, rest)
      && NodeNext(ts, m, block, indentless) == ContentNext(ts, m.(pos := at), block, indentless, AnchorText(p), TagText(p, m.directives))
  {
    hide Laid, PropsTokens, NodeNext, ContentNext, Resolved, FullTag;
    var at := m.pos + |PropsTokens(p)|;
    LaidSplit(ts, m.pos, PropsTokens(p), [Tok(typ)] + rest);
    LaidSplit(ts, at, [Tok(typ)], rest);
    LaidOne(ts, at, Tok(typ));
    PropsThenContent(ts, m, p, block, indentless);
  }

  /** How collections are written, and what they stand for. */
  lemma SequenceForms(p: Props, items: seq<Tree>, entries: seq<Entry>, comma: bool, ds: seq<TagDirective>)
    ensures Tokens(BlockSeq(p, items)) == PropsTokens(p) + ([Tok(BLOCK_SEQUENCE_START)] + (ItemTokens(items) + [Tok(BLOCK_END)]))
    ensures Events(BlockSeq(p, items), ds) == [SequenceStart(AnchorText(p), TagText(p, ds), TagText(p, ds) == [])] + (ItemEvents(items, ds) + [SequenceEnd])
    ensures Tokens(FlowSeq(p, entries, comma)) == PropsTokens(p) + ([Tok(FLOW_SEQUENCE_START)] + (FlowTokens(entries, comma) + [Tok(FLOW_SEQUENCE_END)]))
    ensures Events(FlowSeq(p, entries, comma), ds) == [SequenceStart(AnchorText(p), TagText(p, ds), TagText(p, ds) == [])] + (EntryEvents(entries, ds) + [SequenceEnd])
  {
    hide PropsTokens, TagText;
  }

  lemma MappingForms(p: Props, entries: seq<Entry>, comma: bool, ds: seq<TagDirective>)
    ensures Tokens(BlockMap(p, entries)) == PropsTokens(p) + ([Tok(BLOCK_MAPPING_START)] + (PairTokens(entries) + [Tok(BLOCK_END)]))
    ensures Events(BlockMap(p, entries), ds) == [MappingStart(AnchorText(p), TagText(p, ds), TagText(p, ds) == [])] + (PairEvents(entries, ds) + [MappingEnd])
    ensures Tokens(FlowMap(p, entries, comma)) == PropsTokens(p) + ([Tok(FLOW_MAPPING_START)] + (FlowTokens(entries, comma) + [Tok(FLOW_MAPPING_END)]))
    ensures Events(FlowMap(p, entries, comma), ds) == [MappingStart(AnchorText(p), TagText(p, ds), TagText(p, ds) == [])] + (PairEvents(entries, ds) + [MappingEnd])
  {
    hide PropsTokens, TagText;
  }

  lemma {:induction false} BlockSeqRuns(ts: seq<Token>, m: Machine, p: Props, items: seq<Tree>, indentless: bool)
    requires PropsFit(p, m.directives) && ItemsFit(items, m.directives) && m.states != [] && Laid(ts, m.pos, Tokens(BlockSeq(p, items)))
    ensures Does(ts, NodeNext(ts, m, true, indentless), Events(BlockSeq(p, items), m.directives), Resumed(m).(pos := m.pos + |Tokens(BlockSeq(p, items))|))
    decreases items, 1
  {
    hide Laid, PropsTokens, NodeNext, ContentNext, Resolved, FullTag, BlockSequenceNext, ItemTokens, ItemEvents, ItemsFit, Goes, Tokens, Events, TagText, AnchorText;
    SequenceForms(p, items, [], false, m.directives);
    var at := m.pos + |PropsTokens(p)|;
    Started(ts, m, p, true, indentless, BLOCK_SEQUENCE_START, ItemTokens(items) + [Tok(BLOCK_END)]);
    CollectionNext(ts, m.(pos := at), p, true, indentless, BLOCK_SEQUENCE_START);
    var n := Go(m.(pos := at), ParseBlockSequenceFirstEntry);
    ItemsRun(ts, Skipped(n), items);
    Entered(ts, n, ItemEvents(items, m.directives) + [SequenceEnd], Resumed(m).(pos := m.pos + |Tokens(BlockSeq(p, items))|));
    DoesFirst(ts, NodeNext(ts, m, true, indentless).value, ItemEvents(items, m.directives) + [SequenceEnd], Resumed(m).(pos := m.pos + |Tokens(BlockSeq(p, items))|));
  }

  /** What the next production does, the machine goes. */
  lemma Entered(ts: seq<Token>, m: Machine, events: seq<Event>, end: Machine)
    requires events != [] && !m.state.ParseEnd? && Does(ts, Next(ts, m), events, end)
    ensures Goes(ts, m, events, end)
  {
    hide Next;
  }

  /** A node behind which the state r waits. */
  lemma {:induction false} ChildRuns(ts: seq<Token>, m: Machine, r: ParserState, t: Tree, block: bool, indentless: bool)
    requires Fits(t, block, indentless, m.directives)
    requires Laid(ts, m.pos, Tokens(t)) && Followed(ts, m.pos + |Tokens(t)|, indentless)
    ensures Does(ts, ChildNext(ts, m, r, block, indentless), Events(t, m.directives), m.(state := r, pos := m.pos + |Tokens(t)|))
    decreases t, 2
  {
    hide Laid, NodeNext, Goes, Tokens, Events, Fits;
    var n := m.(states := m.states + [r]);
    NodeRuns(ts, n, t, block, indentless);
    assert n.states[..|n.states| - 1] == m.states;
  }

  /** A node, or none where one of the tokens comes that end it. */
  lemma {:induction false} ChildOrEmptyRuns(ts: seq<Token>, m: Machine, r: ParserState, t: Tree, block: bool, indentless: bool, ends: set<TokenType>)
    requires t.Missing? || Fits(t, block, indentless, m.directives)
    requires Laid(ts, m.pos, Tokens(t)) && Followed(ts, m.pos + |Tokens(t)|, indentless)
    requires ends !! STARTS && (indentless ==> BLOCK_ENTRY !in ends) && (t.Missing? ==> TypeIn(ts, m.pos, ends))
    ensures Does(ts, ChildOrEmpty(ts, m, r, block, indentless, ends), Events(t, m.directives), m.(state := r, pos := m.pos + |Tokens(t)|))
    decreases t, 3
  {
    hide Laid, ChildNext, Goes, Fits;
    if t.Missing? {
      DoesLast(ts, Turn(EMPTY_SCALAR, Go(m, r)));
    } else {
      FirstType(t, block, indentless, m.directives);
      FirstAt(ts, m.pos, Tokens(t));
      ChildRuns(ts, m, r, t, block, indentless);
    }
  }

  lemma FirstAt(ts: seq<Token>, i: nat, toks: seq<Token>)
    requires Laid(ts, i, toks) && toks != []
    ensures i < |ts| && ts[i].typ == toks[0].typ
  {
    assert Essence(ts[i + 0]) == toks[0];
  }

  // ---------- block sequences ----------

  lemma {:induction false} ItemsRun(ts: seq<Token>, m: Machine, items: seq<Tree>)
    requires ItemsFit(items, m.directives) && m.states != [] && Laid(ts, m.pos, ItemTokens(items) + [Tok(BLOCK_END)])
    ensures Does(ts, BlockSequenceNext(ts, m), ItemEvents(items, m.directives) + [SequenceEnd],
                 Resumed(m).(pos := m.pos + |ItemTokens(items)| + 1))
    decreases items, 0
  {
    hide Laid, ChildOrEmpty, Goes, Fits, Tokens, Events, ItemTokens, ItemEvents, ItemsFit;
    NoItems(m.directives);
    if items == [] {
      assert ItemTokens(items) + [Tok(BLOCK_END)] == [Tok(BLOCK_END)];
      LaidOne(ts, m.pos, Tok(BLOCK_END));
      assert ItemEvents(items, m.directives) + [SequenceEnd] == [SequenceEnd];
      DoesLast(ts, Turn(SequenceEnd, Skipped(Resumed(m))));
    } else {
      FitsRest(items, m.directives);
      var t, ds := items[0], m.directives;
      var at := m.pos + 1 + |Tokens(t)|;
      FirstItem(ts, m.pos, items, [Tok(BLOCK_END)]);
      ItemFollows(ts, at, items[1..], Tok(BLOCK_END));
      NoTokens(t);
      ChildOrEmptyRuns(ts, Skipped(m), ParseBlockSequenceEntry, t, true, false, {BLOCK_ENTRY, BLOCK_END});
      var n := Skipped(m).(state := ParseBlockSequenceEntry, pos := at);
      ItemsRun(ts, n, items[1..]);
      Entered(ts, n, ItemEvents(items[1..], ds) + [SequenceEnd], Resumed(m).(pos := m.pos + |ItemTokens(items)| + 1));
      DoesOn(ts, BlockSequenceNext(ts, m), Events(t, ds), n, ItemEvents(items[1..], ds) + [SequenceEnd], Resumed(m).(pos := m.pos + |ItemTokens(items)| + 1));
      ItemsCons(items, ds);
      Attached(Events(t, ds), ItemEvents(items[1..], ds), [SequenceEnd]);
    }
  }

  lemma NoItems(ds: seq<TagDirective>)
    ensures ItemTokens([]) == [] && ItemEvents([], ds) == []
  {
  }

  lemma FitsRest(items: seq<Tree>, ds: seq<TagDirective>)
    requires items != [] && ItemsFit(items, ds)
    ensures (items[0].Missing? || Fits(items[0], true, false, ds)) && ItemsFit(items[1..], ds)
  {
    hide Fits;
  }

  lemma NoNode(ds: seq<TagDirective>)
    ensures !Fits(Missing, false, false, ds)
  {
  }

  lemma NoTokens(t: Tree)
    ensures t.Missing? ==> Tokens(t) == []
  {
  }

  lemma FirstItem(ts: seq<Token>, i: nat, items: seq<Tree>, rest: seq<Token>)
    requires items != [] && Laid(ts, i, ItemTokens(items) + rest)
    ensures TypeIn(ts, i, {BLOCK_ENTRY}) && Laid(ts, i + 1, Tokens(items[0])) && Laid(ts, i + 1 + |Tokens(items[0])|, ItemTokens(items[1..]) + rest)
    ensures |ItemTokens(items)| == 1 + |Tokens(items[0])| + |ItemTokens(items[1..])|
  {
    hide Laid, Tokens, ItemTokens;
    ItemsCons(items, []);
    var first, more := Tokens(items[0]), ItemTokens(items[1..]);
    Chained([Tok(BLOCK_ENTRY)], first, more, rest);
    LaidSplit(ts, i, [Tok(BLOCK_ENTRY)], first + (more + rest));
    LaidOne(ts, i, Tok(BLOCK_ENTRY));
    LaidSplit(ts, i + 1, first, more + rest);
  }

  lemma ItemsCons(items: seq<Tree>, ds: seq<TagDirective>)
    requires items != []
    ensures ItemTokens(items) == [Tok(BLOCK_ENTRY)] + (Tokens(items[0]) + ItemTokens(items[1..]))
    ensures ItemEvents(items, ds) == Events(items[0], ds) + ItemEvents(items[1..], ds)
  {
    hide Tokens, Events;
  }

  lemma Chained<T>(a: seq<T>, b: seq<T>, c: seq<T>, d: seq<T>)
    ensures (a + (b + c)) + d == a + (b + (c + d))
  {
  }

  lemma Attached<T>(a: seq<T>, b: seq<T>, c: seq<T>)
    ensures (a + b) + c == a + (b + c)
  {
  }

  /** Behind an item comes the next one or the token behind them all. */
  lemma ItemFollows(ts: seq<Token>, i: nat, items: seq<Tree>, end: Token)
    requires Laid(ts, i, ItemTokens(items) + [end])
    ensures TypeIn(ts, i, {BLOCK_ENTRY, end.typ})
  {
    hide Laid, Tokens;
    FirstAt(ts, i, ItemTokens(items) + [end]);
  }

  // ---------- indentless sequences ----------

  lemma {:induction false} IndentlessRuns(ts: seq<Token>, m: Machine, p: Props, items: seq<Tree>, block: bool)
    requires PropsFit(p, m.directives) && items != [] && ItemsFit(items, m.directives) && m.states != []
    requires Laid(ts, m.pos, Tokens(Indentless(p, items))) && Followed(ts, m.pos + |Tokens(Indentless(p, items))|, true)
    ensures Does(ts, NodeNext(ts, m, block, true), Events(Indentless(p, items), m.directives), Resumed(m).(pos := m.pos + |Tokens(Indentless(p, items))|))
    decreases items, 1
  {
    hide Laid, PropsTokens, NodeNext, ContentNext, Resolved, FullTag, IndentlessSequenceNext, ItemEvents, ItemsFit, Goes, Tokens;
    var at, tag := m.pos + |PropsTokens(p)|, TagText(p, m.directives);
    IndentlessTokens(p, items);
    LaidSplit(ts, m.pos, PropsTokens(p), ItemTokens(items));
    FirstAt(ts, at, ItemTokens(items));
    PropsThenContent(ts, m, p, block, true);
    EntryContent(ts, m.(pos := at), block, AnchorText(p), tag);
    var n, end := Go(m.(pos := at), ParseIndentlessSequenceEntry), Resumed(m).(pos := m.pos + |Tokens(Indentless(p, items))|);
    IndentlessItemsRun(ts, n, items);
    Entered(ts, n, ItemEvents(items, m.directives) + [SequenceEnd], end);
    DoesFirst(ts, NodeNext(ts, m, block, true).value, ItemEvents(items, m.directives) + [SequenceEnd], end);
  }

  lemma IndentlessTokens(p: Props, items: seq<Tree>)
    ensures Tokens(Indentless(p, items)) == PropsTokens(p) + ItemTokens(items)
    ensures items != [] ==> ItemTokens(items) != [] && ItemTokens(items)[0].typ == BLOCK_ENTRY
  {
    hide PropsTokens;
  }

  lemma EntryContent(ts: seq<Token>, m: Machine, block: bool, anchor: Bytes, tag: Bytes)
    requires TypeIn(ts, m.pos, {BLOCK_ENTRY})
    ensures ContentNext(ts, m, block, true, anchor, tag) == Some(Turn(SequenceStart(anchor, tag, tag == []), Go(m, ParseIndentlessSequenceEntry)))
  {
  }

  lemma {:induction false} IndentlessItemsRun(ts: seq<Token>, m: Machine, items: seq<Tree>)
    requires ItemsFit(items, m.directives) && m.states != []
    requires Laid(ts, m.pos, ItemTokens(items)) && Followed(ts, m.pos + |ItemTokens(items)|, true)
    ensures Does(ts, IndentlessSequenceNext(ts, m), ItemEvents(items, m.directives) + [SequenceEnd],
                 Resumed(m).(pos := m.pos + |ItemTokens(items)|))
    decreases items, 0
  {
    hide Laid, ChildOrEmpty, Goes, Fits, Tokens, Events, ItemTokens, ItemEvents, ItemsFit;
    NoItems(m.directives);
    if items == [] {
      assert ItemEvents(items, m.directives) + [SequenceEnd] == [SequenceEnd];
      DoesLast(ts, Turn(SequenceEnd, Resumed(m)));
    } else {
      FitsRest(items, m.directives);
      var t, ds := items[0], m.directives;
      var at, end := m.pos + 1 + |Tokens(t)|, Resumed(m).(pos := m.pos + |ItemTokens(items)|);
      assert ItemTokens(items) + [] == ItemTokens(items) && ItemTokens(items[1..]) + [] == ItemTokens(items[1..]);
      FirstItem(ts, m.pos, items, []);
      NextItem(ts, at, items[1..]);
      NoTokens(t);
      ChildOrEmptyRuns(ts, Skipped(m), ParseIndentlessSequenceEntry, t, true, false, {BLOCK_ENTRY, KEY, VALUE, BLOCK_END});
      var n := Skipped(m).(state := ParseIndentlessSequenceEntry, pos := at);
      IndentlessItemsRun(ts, n, items[1..]);
      Entered(ts, n, ItemEvents(items[1..], ds) + [SequenceEnd], end);
      DoesOn(ts, IndentlessSequenceNext(ts, m), Events(t, ds), n, ItemEvents(items[1..], ds) + [SequenceEnd], end);
      ItemsCons(items, ds);
      Attached(Events(t, ds), ItemEvents(items[1..], ds), [SequenceEnd]);
    }
  }

  lemma NextItem(ts: seq<Token>, i: nat, items: seq<Tree>)
    requires Laid(ts, i, ItemTokens(items)) && Followed(ts, i + |ItemTokens(items)|, true)
    ensures TypeIn(ts, i, {BLOCK_ENTRY, KEY, VALUE, BLOCK_END})
  {
    hide Laid, Tokens;
    if items != [] {
      FirstAt(ts, i, ItemTokens(items));
    }
  }

  // ---------- values ----------

  /** A value, a missing one, or none at all. */
  lemma {:induction false} ValueRuns(ts: seq<Token>, m: Machine, turn: Opt<Turn>, r: ParserState, v: Value, block: bool, ends: set<TokenType>)
    requires ValueFits(v, block, m.directives) && Laid(ts, m.pos, ValueTokens(v))
    requires ends !! STARTS && ends <= (if block then {KEY, VALUE, BLOCK_END} else FOLLOWS)
    requires TypeIn(ts, m.pos + |ValueTokens(v)|, ends - {VALUE})
    requires turn == if TypeIn(ts, m.pos, {VALUE}) then ChildOrEmpty(ts, Skipped(m), r, block, block, ends)
                     else if m.pos < |ts| then Some(Turn(EMPTY_SCALAR, Go(m, r))) else None
    ensures Does(ts, turn, ValueEvents(v, m.directives), m.(state := r, pos := m.pos + |ValueTokens(v)|))
    decreases v, 0
  {
    hide Laid, ChildOrEmpty, Goes, Fits, Tokens, Events;
    match v
    case NoValue => DoesLast(ts, Turn(EMPTY_SCALAR, Go(m, r)));
    case ValueIs(t) =>
      LaidSplit(ts, m.pos, [Tok(VALUE)], Tokens(t));
      LaidOne(ts, m.pos, Tok(VALUE));
      NoTokens(t);
      ChildOrEmptyRuns(ts, Skipped(m), r, t, block, block, ends);
  }

  // ---------- block mappings ----------

  lemma {:induction false} BlockMapRuns(ts: seq<Token>, m: Machine, p: Props, entries: seq<Entry>, indentless: bool)
    requires PropsFit(p, m.directives) && EntriesFit(entries, InBlockMap, m.directives) && m.states != []
    requires Laid(ts, m.pos, Tokens(BlockMap(p, entries)))
    ensures Does(ts, NodeNext(ts, m, true, indentless), Events(BlockMap(p, entries), m.directives), Resumed(m).(pos := m.pos + |Tokens(BlockMap(p, entries))|))
    decreases entries, 1
  {
    hide Laid, PropsTokens, NodeNext, ContentNext, Resolved, FullTag, BlockMappingNext, PairTokens, PairEvents, EntriesFit, Goes, Tokens, Events, TagText, AnchorText;
    MappingForms(p, entries, false, m.directives);
    var at, end := m.pos + |PropsTokens(p)|, Resumed(m).(pos := m.pos + |Tokens(BlockMap(p, entries))|);
    Started(ts, m, p, true, indentless, BLOCK_MAPPING_START, PairTokens(entries) + [Tok(BLOCK_END)]);
    CollectionNext(ts, m.(pos := at), p, true, indentless, BLOCK_MAPPING_START);
    var n := Go(m.(pos := at), ParseBlockMappingFirstKey);
    PairsRun(ts, Skipped(n), entries);
    Entered(ts, n, PairEvents(entries, m.directives) + [MappingEnd], end);
    DoesFirst(ts, NodeNext(ts, m, true, indentless).value, PairEvents(entries, m.directives) + [MappingEnd], end);
  }

  lemma {:induction false} PairsRun(ts: seq<Token>, m: Machine, entries: seq<Entry>)
    requires EntriesFit(entries, InBlockMap, m.directives) && m.states != [] && Laid(ts, m.pos, PairTokens(entries) + [Tok(BLOCK_END)])
    ensures Does(ts, BlockMappingNext(ts, m), PairEvents(entries, m.directives) + [MappingEnd],
                 Resumed(m).(pos := m.pos + |PairTokens(entries)| + 1))
    decreases entries, 0
  {
    hide Laid, ChildOrEmpty, Goes, Fits, Tokens, Events, EntryTokens, PairEvent, EntryFits;
    if entries == [] {
      assert PairTokens(entries) + [Tok(BLOCK_END)] == [Tok(BLOCK_END)];
      LaidOne(ts, m.pos, Tok(BLOCK_END));
      assert PairEvents(entries, m.directives) + [MappingEnd] == [MappingEnd];
      DoesLast(ts, Turn(MappingEnd, Skipped(Resumed(m))));
    } else {
      var e, ds := entries[0], m.directives;
      var at, end := m.pos + |EntryTokens(e)|, Resumed(m).(pos := m.pos + |PairTokens(entries)| + 1);
      assert PairTokens(entries) + [Tok(BLOCK_END)] == EntryTokens(e) + (PairTokens(entries[1..]) + [Tok(BLOCK_END)]);
      LaidSplit(ts, m.pos, EntryTokens(e), PairTokens(entries[1..]) + [Tok(BLOCK_END)]);
      PairFollows(ts, at, entries[1..], ds);
      BlockPairRuns(ts, m, e);
      var n := m.(state := ParseBlockMappingKey, pos := at);
      PairsRun(ts, n, entries[1..]);
      Entered(ts, n, PairEvents(entries[1..], ds) + [MappingEnd], end);
      PairSome(e, ds);
      DoesOn(ts, BlockMappingNext(ts, m), PairEvent(e, ds), n, PairEvents(entries[1..], ds) + [MappingEnd], end);
      assert PairEvent(e, ds) + (PairEvents(entries[1..], ds) + [MappingEnd]) == PairEvents(entries, ds) + [MappingEnd];
    }
  }

  lemma PairSome(e: Entry, ds: seq<TagDirective>)
    ensures PairEvent(e, ds) != [] && EntryEvent(e, ds) != []
  {
  }

  /** Behind a pair comes the next key or the end of the mapping. */
  lemma PairFollows(ts: seq<Token>, i: nat, entries: seq<Entry>, ds: seq<TagDirective>)
    requires EntriesFit(entries, InBlockMap, ds) && Laid(ts, i, PairTokens(entries) + [Tok(BLOCK_END)])
    ensures TypeIn(ts, i, {KEY, BLOCK_END})
  {
    hide Laid, Tokens, Fits, ValueFits;
    FirstAt(ts, i, PairTokens(entries) + [Tok(BLOCK_END)]);
  }

  /** The tokens of an entry with a key. */
  lemma KeyedLaid(ts: seq<Token>, i: nat, k: Tree, v: Value)
    requires Laid(ts, i, EntryTokens(Keyed(k, v)))
    ensures TypeIn(ts, i, {KEY}) && Laid(ts, i + 1, Tokens(k)) && Laid(ts, i + 1 + |Tokens(k)|, ValueTokens(v))
    ensures |EntryTokens(Keyed(k, v))| == 1 + |Tokens(k)| + |ValueTokens(v)|
  {
    hide Laid, Tokens, ValueTokens;
    LaidSplit(ts, i, [Tok(KEY)], Tokens(k) + ValueTokens(v));
    LaidOne(ts, i, Tok(KEY));
    LaidSplit(ts, i + 1, Tokens(k), ValueTokens(v));
  }

  /** Behind a key comes its value's indicator, or what follows the entry. */
  lemma ValueOrNext(ts: seq<Token>, i: nat, v: Value, types: set<TokenType>)
    requires Laid(ts, i, ValueTokens(v)) && TypeIn(ts, i + |ValueTokens(v)|, types)
    ensures TypeIn(ts, i, types + {VALUE})
  {
    hide Laid, Tokens;
    if v.ValueIs? {
      FirstAt(ts, i, ValueTokens(v));
    }
  }

  lemma {:induction false} BlockPairRuns(ts: seq<Token>, m: Machine, e: Entry)
    requires EntryFits(e, InBlockMap, m.directives) && Laid(ts, m.pos, EntryTokens(e)) && TypeIn(ts, m.pos + |EntryTokens(e)|, {KEY, BLOCK_END})
    ensures PairEvent(e, m.directives) != []
    ensures Does(ts, BlockMappingNext(ts, m), PairEvent(e, m.directives), m.(state := ParseBlockMappingKey, pos := m.pos + |EntryTokens(e)|))
    decreases e, 0
  {
    hide Laid, ChildOrEmpty, Goes, Fits, Tokens, Events, ValueTokens, EntryTokens, ValueEvents, ValueFits, BlockValueNext;
    var k, v, ds := e.key, e.value, m.directives;
    KeyedLaid(ts, m.pos, k, v);
    var at := m.pos + 1 + |Tokens(k)|;
    ValueOrNext(ts, at, v, {KEY, BLOCK_END});
    NoTokens(k);
    ChildOrEmptyRuns(ts, Skipped(m), ParseBlockMappingValue, k, true, true, {KEY, VALUE, BLOCK_END});
    var n, end := m.(state := ParseBlockMappingValue, pos := at), m.(state := ParseBlockMappingKey, pos := m.pos + |EntryTokens(e)|);
    BlockValue(ts, n);
    ValueRuns(ts, n, BlockValueNext(ts, n), ParseBlockMappingKey, v, true, {KEY, VALUE, BLOCK_END});
    ValueSome(v, ds);
    Entered(ts, n, ValueEvents(v, ds), end);
    DoesOn(ts, BlockMappingNext(ts, m), Events(k, ds), n, ValueEvents(v, ds), end);
  }

  lemma BlockValue(ts: seq<Token>, m: Machine)
    ensures BlockValueNext(ts, m)
      == if TypeIn(ts, m.pos, {VALUE}) then ChildOrEmpty(ts, Skipped(m), ParseBlockMappingKey, true, true, {KEY, VALUE, BLOCK_END})
         else if m.pos < |ts| then Some(Turn(EMPTY_SCALAR, Go(m, ParseBlockMappingKey))) else None
  {
  }

  lemma ValueSome(v: Value, ds: seq<TagDirective>)
    ensures ValueEvents(v, ds) != []
  {
  }

  // ---------- flow collections ----------

  /** An entry, its comma if it has one, and the entries behind it. */
  lemma FlowLaid(ts: seq<Token>, i: nat, entries: seq<Entry>, comma: bool, close: Token)
    requires entries != [] && Laid(ts, i, FlowTokens(entries, comma) + [close])
    ensures var e, sep := entries[0], if |entries| > 1 || comma then 1 else 0;
      var at := i + |EntryTokens(e)|;
      && Laid(ts, i, EntryTokens(e)) && (sep == 1 ==> TypeIn(ts, at, {FLOW_ENTRY}))
      && Laid(ts, at + sep, FlowTokens(entries[1..], comma) + [close]) && at + sep < |ts|
      && |FlowTokens(entries, comma)| == |EntryTokens(e)| + sep + |FlowTokens(entries[1..], comma)|
      && (sep == 0 ==> TypeIn(ts, at, {close.typ}) && FlowTokens(entries[1..], comma) == [])
  {
    hide Laid, EntryTokens, FlowTokens;
    FlowCons(entries, comma);
    assert |entries| == 1 ==> entries[1..] == [];
    var e, sep, rest := entries[0], if |entries| > 1 || comma then [Tok(FLOW_ENTRY)] else [], FlowTokens(entries[1..], comma);
    var at := i + |EntryTokens(e)|;
    Chained(EntryTokens(e), sep, rest, [close]);
    LaidSplit(ts, i, EntryTokens(e), sep + (rest + [close]));
    LaidSplit(ts, at, sep, rest + [close]);
    FirstAt(ts, at + |sep|, rest + [close]);
    if sep != [] {
      LaidOne(ts, at, Tok(FLOW_ENTRY));
    }
  }

  lemma FlowCons(entries: seq<Entry>, comma: bool)
    ensures FlowTokens([], comma) == []
    ensures entries != [] ==>
      FlowTokens(entries, comma)
        == EntryTokens(entries[0]) + ((if |entries| > 1 || comma then [Tok(FLOW_ENTRY)] else []) + FlowTokens(entries[1..], comma))
  {
    hide EntryTokens;
  }

  lemma {:induction false} FlowSeqRuns(ts: seq<Token>, m: Machine, p: Props, entries: seq<Entry>, comma: bool, block: bool, indentless: bool)
    requires PropsFit(p, m.directives) && EntriesFit(entries, InFlowSeq, m.directives) && m.states != []
    requires Laid(ts, m.pos, Tokens(FlowSeq(p, entries, comma)))
    ensures Does(ts, NodeNext(ts, m, block, indentless), Events(FlowSeq(p, entries, comma), m.directives),
                 Resumed(m).(pos := m.pos + |Tokens(FlowSeq(p, entries, comma))|))
    decreases entries, 1
  {
    hide Laid, PropsTokens, NodeNext, ContentNext, Resolved, FullTag, FlowEntryNext, FlowTokens, EntryEvents, EntriesFit, Goes, Tokens, Events, TagText, AnchorText;
    SequenceForms(p, [], entries, comma, m.directives);
    var at, end := m.pos + |PropsTokens(p)|, Resumed(m).(pos := m.pos + |Tokens(FlowSeq(p, entries, comma))|);
    Started(ts, m, p, block, indentless, FLOW_SEQUENCE_START, FlowTokens(entries, comma) + [Tok(FLOW_SEQUENCE_END)]);
    CollectionNext(ts, m.(pos := at), p, block, indentless, FLOW_SEQUENCE_START);
    var n := Go(m.(pos := at), ParseFlowSequenceFirstEntry);
    FlowEntriesRun(ts, Skipped(n), entries, comma);
    EndOfSequence(ts, Skipped(n));
    Entered(ts, n, EntryEvents(entries, m.directives) + [SequenceEnd], end);
    DoesFirst(ts, NodeNext(ts, m, block, indentless).value, EntryEvents(entries, m.directives) + [SequenceEnd], end);
  }

  lemma EndOfSequence(ts: seq<Token>, m: Machine)
    ensures TypeIn(ts, m.pos, {FLOW_SEQUENCE_END}) ==> FlowEntryNext(ts, m) == Some(Turn(SequenceEnd, Skipped(Resumed(m))))
  {
  }

  lemma {:induction false} FlowEntriesRun(ts: seq<Token>, m: Machine, entries: seq<Entry>, comma: bool)
    requires EntriesFit(entries, InFlowSeq, m.directives) && m.states != []
    requires Laid(ts, m.pos, FlowTokens(entries, comma) + [Tok(FLOW_SEQUENCE_END)])
    ensures Does(ts, FlowEntryNext(ts, m), EntryEvents(entries, m.directives) + [SequenceEnd],
                 Resumed(m).(pos := m.pos + |FlowTokens(entries, comma)| + 1))
    decreases entries, 0
  {
    hide Laid, ChildNext, Goes, Fits, Tokens, Events, EntryTokens, EntryEvent, EntryFits, FlowEntryNext, FlowTokens;
    var ds := m.directives;
    if entries == [] {
      NoEntries(comma);
      assert [] + [Tok(FLOW_SEQUENCE_END)] == [Tok(FLOW_SEQUENCE_END)];
      LaidOne(ts, m.pos, Tok(FLOW_SEQUENCE_END));
      assert EntryEvents(entries, ds) + [SequenceEnd] == [SequenceEnd];
      EndOfSequence(ts, m);
      DoesLast(ts, Turn(SequenceEnd, Skipped(Resumed(m))));
    } else {
      var e, rest := entries[0], EntryEvents(entries[1..], ds) + [SequenceEnd];
      var at, end := m.pos + |EntryTokens(e)|, Resumed(m).(pos := m.pos + |FlowTokens(entries, comma)| + 1);
      FlowLaid(ts, m.pos, entries, comma, Tok(FLOW_SEQUENCE_END));
      FlowEntryRuns(ts, m, e);
      var n := m.(state := ParseFlowSequenceEntry, pos := at);
      if |entries| > 1 || comma {
        FlowEntriesRun(ts, Skipped(n), entries[1..], comma);
      } else {
        assert rest == [SequenceEnd];
        DoesLast(ts, Turn(SequenceEnd, Skipped(Resumed(n))));
      }
      Entered(ts, n, rest, end);
      PairSome(e, ds);
      DoesOn(ts, FlowEntryNext(ts, m), EntryEvent(e, ds), n, rest, end);
      assert EntryEvent(e, ds) + rest == EntryEvents(entries, ds) + [SequenceEnd];
    }
  }

  lemma NoEntries(comma: bool)
    ensures FlowTokens([], comma) == []
  {
  }

  lemma {:induction false} FlowEntryRuns(ts: seq<Token>, m: Machine, e: Entry)
    requires EntryFits(e, InFlowSeq, m.directives) && Laid(ts, m.pos, EntryTokens(e))
    requires TypeIn(ts, m.pos + |EntryTokens(e)|, {FLOW_ENTRY, FLOW_SEQUENCE_END})
    ensures EntryEvent(e, m.directives) != []
    ensures Does(ts, FlowEntryNext(ts, m), EntryEvent(e, m.directives), m.(state := ParseFlowSequenceEntry, pos := m.pos + |EntryTokens(e)|))
    decreases e, 1
  {
    hide Laid, ChildNext, Goes, Fits, Tokens, Events, ValueTokens, ValueEvents, ValueFits;
    match e
    case Single(t) =>
      FirstType(t, false, false, m.directives);
      FirstAt(ts, m.pos, Tokens(t));
      ChildRuns(ts, m, ParseFlowSequenceEntry, t, false, false);
    case Keyed(k, v) =>
      NoNode(m.directives);
      if k.Missing? {
        KeylessEmpty(ts, m);
      } else {
        SinglePairRuns(ts, m, k, v);
      }
  }

  /** A single pair with a key: a mapping of its own. */
  lemma {:induction false} SinglePairRuns(ts: seq<Token>, m: Machine, k: Tree, v: Value)
    requires Fits(k, false, false, m.directives) && ValueFits(v, false, m.directives) && Laid(ts, m.pos, EntryTokens(Keyed(k, v)))
    requires TypeIn(ts, m.pos + |EntryTokens(Keyed(k, v))|, {FLOW_ENTRY, FLOW_SEQUENCE_END})
    ensures Does(ts, FlowEntryNext(ts, m), EntryEvent(Keyed(k, v), m.directives),
                 m.(state := ParseFlowSequenceEntry, pos := m.pos + |EntryTokens(Keyed(k, v))|))
    decreases Keyed(k, v), 0
  {
    hide Laid, ChildNext, Goes, Fits, Tokens, Events, ValueTokens, EntryTokens, ValueEvents, ValueFits;
    var ds, end := m.directives, m.(state := ParseFlowSequenceEntry, pos := m.pos + |EntryTokens(Keyed(k, v))|);
    KeyedLaid(ts, m.pos, k, v);
    var at := m.pos + 1 + |Tokens(k)|;
    ValueOrNext(ts, at, v, {FLOW_ENTRY, FLOW_SEQUENCE_END});
    FirstType(k, false, false, ds);
    FirstAt(ts, m.pos + 1, Tokens(k));
    var n0 := Skipped(Go(m, ParseFlowSequenceEntryMappingKey));
    ChildRuns(ts, n0, ParseFlowSequenceEntryMappingValue, k, false, false);
    var n1 := n0.(state := ParseFlowSequenceEntryMappingValue, pos := at);
    PairValueRuns(ts, n1, v);
    var rest := ValueEvents(v, ds) + [MappingEnd];
    DoesOn(ts, PairKeyNext(ts, n0), Events(k, ds), n1, rest, end);
    Entered(ts, n0, Events(k, ds) + rest, end);
    DoesFirst(ts, Turn(MappingStart([], [], true), n0), Events(k, ds) + rest, end);
  }

  /** The rest of a single pair, behind its key. */
  lemma {:induction false} PairValueRuns(ts: seq<Token>, m: Machine, v: Value)
    requires ValueFits(v, false, m.directives) && Laid(ts, m.pos, ValueTokens(v)) && m.state == ParseFlowSequenceEntryMappingValue
    requires TypeIn(ts, m.pos + |ValueTokens(v)|, {FLOW_ENTRY, FLOW_SEQUENCE_END})
    ensures Goes(ts, m, ValueEvents(v, m.directives) + [MappingEnd], m.(state := ParseFlowSequenceEntry, pos := m.pos + |ValueTokens(v)|))
    decreases v, 1
  {
    hide Laid, ChildOrEmpty, Goes, Fits, Tokens, Events, ValueTokens, ValueEvents, ValueFits, PairValueNext;
    var ds, end := m.directives, m.(state := ParseFlowSequenceEntry, pos := m.pos + |ValueTokens(v)|);
    PairValue(ts, m);
    ValueRuns(ts, m, PairValueNext(ts, m), ParseFlowSequenceEntryMappingEnd, v, false, {FLOW_ENTRY, FLOW_SEQUENCE_END});
    var n := m.(state := ParseFlowSequenceEntryMappingEnd, pos := end.pos);
    DoesLast(ts, Turn(MappingEnd, end));
    Entered(ts, n, [MappingEnd], end);
    ValueSome(v, ds);
    DoesOn(ts, PairValueNext(ts, m), ValueEvents(v, ds), n, [MappingEnd], end);
    Entered(ts, m, ValueEvents(v, ds) + [MappingEnd], end);
  }

  lemma PairValue(ts: seq<Token>, m: Machine)
    ensures PairValueNext(ts, m)
      == if TypeIn(ts, m.pos, {VALUE}) then ChildOrEmpty(ts, Skipped(m), ParseFlowSequenceEntryMappingEnd, false, false, {FLOW_ENTRY, FLOW_SEQUENCE_END})
         else if m.pos < |ts| then Some(Turn(EMPTY_SCALAR, Go(m, ParseFlowSequenceEntryMappingEnd))) else None
  {
  }

  lemma {:induction false} FlowMapRuns(ts: seq<Token>, m: Machine, p: Props, entries: seq<Entry>, comma: bool, block: bool, indentless: bool)
    requires PropsFit(p, m.directives) && EntriesFit(entries, InFlowMap, m.directives) && m.states != []
    requires Laid(ts, m.pos, Tokens(FlowMap(p, entries, comma)))
    ensures Does(ts, NodeNext(ts, m, block, indentless), Events(FlowMap(p, entries, comma), m.directives),
                 Resumed(m).(pos := m.pos + |Tokens(FlowMap(p, entries, comma))|))
    decreases entries, 1
  {
    hide Laid, PropsTokens, NodeNext, ContentNext, Resolved, FullTag, FlowPairNext, FlowTokens, PairEvents, EntriesFit, Goes, Tokens, Events, TagText, AnchorText;
    MappingForms(p, entries, comma, m.directives);
    var at, end := m.pos + |PropsTokens(p)|, Resumed(m).(pos := m.pos + |Tokens(FlowMap(p, entries, comma))|);
    Started(ts, m, p, block, indentless, FLOW_MAPPING_START, FlowTokens(entries, comma) + [Tok(FLOW_MAPPING_END)]);
    CollectionNext(ts, m.(pos := at), p, block, indentless, FLOW_MAPPING_START);
    var n := Go(m.(pos := at), ParseFlowMappingFirstKey);
    FlowPairsRun(ts, Skipped(n), entries, comma);
    EndOfMapping(ts, Skipped(n));
    Entered(ts, n, PairEvents(entries, m.directives) + [MappingEnd], end);
    DoesFirst(ts, NodeNext(ts, m, block, indentless).value, PairEvents(entries, m.directives) + [MappingEnd], end);
  }

  lemma EndOfMapping(ts: seq<Token>, m: Machine)
    ensures TypeIn(ts, m.pos, {FLOW_MAPPING_END}) ==> FlowPairNext(ts, m) == Some(Turn(MappingEnd, Skipped(Resumed(m))))
  {
  }

  lemma {:induction false} FlowPairsRun(ts: seq<Token>, m: Machine, entries: seq<Entry>, comma: bool)
    requires EntriesFit(entries, InFlowMap, m.directives) && m.states != []
    requires Laid(ts, m.pos, FlowTokens(entries, comma) + [Tok(FLOW_MAPPING_END)])
    ensures Does(ts, FlowPairNext(ts, m), PairEvents(entries, m.directives) + [MappingEnd],
                 Resumed(m).(pos := m.pos + |FlowTokens(entries, comma)| + 1))
    decreases entries, 0
  {
    hide Laid, ChildNext, Goes, Fits, Tokens, Events, EntryTokens, PairEvent, EntryFits, FlowPairNext, FlowTokens;
    var ds := m.directives;
    if entries == [] {
      NoEntries(comma);
      assert [] + [Tok(FLOW_MAPPING_END)] == [Tok(FLOW_MAPPING_END)];
      LaidOne(ts, m.pos, Tok(FLOW_MAPPING_END));
      assert PairEvents(entries, ds) + [MappingEnd] == [MappingEnd];
      EndOfMapping(ts, m);
      DoesLast(ts, Turn(MappingEnd, Skipped(Resumed(m))));
    } else {
      var e, rest := entries[0], PairEvents(entries[1..], ds) + [MappingEnd];
      var at, end := m.pos + |EntryTokens(e)|, Resumed(m).(pos := m.pos + |FlowTokens(entries, comma)| + 1);
      FlowLaid(ts, m.pos, entries, comma, Tok(FLOW_MAPPING_END));
      FlowPairRuns(ts, m, e);
      var n := m.(state := ParseFlowMappingKey, pos := at);
      if |entries| > 1 || comma {
        FlowPairsRun(ts, Skipped(n), entries[1..], comma);
      } else {
        assert rest == [MappingEnd];
        DoesLast(ts, Turn(MappingEnd, Skipped(Resumed(n))));
      }
      Entered(ts, n, rest, end);
      PairSome(e, ds);
      DoesOn(ts, FlowPairNext(ts, m), PairEvent(e, ds), n, rest, end);
      assert PairEvent(e, ds) + rest == PairEvents(entries, ds) + [MappingEnd];
    }
  }

  lemma {:induction false} FlowPairRuns(ts: seq<Token>, m: Machine, e: Entry)
    requires EntryFits(e, InFlowMap, m.directives) && Laid(ts, m.pos, EntryTokens(e))
    requires TypeIn(ts, m.pos + |EntryTokens(e)|, {FLOW_ENTRY, FLOW_MAPPING_END})
    ensures PairEvent(e, m.directives) != []
    ensures Does(ts, FlowPairNext(ts, m), PairEvent(e, m.directives), m.(state := ParseFlowMappingKey, pos := m.pos + |EntryTokens(e)|))
    decreases e, 1
  {
    hide Laid, ChildNext, ChildOrEmpty, Goes, Fits, Tokens, Events, ValueTokens, ValueEvents, ValueFits;
    match e
    case Single(t) => LoneKeyRuns(ts, m, t);
    case Keyed(k, v) => FlowKeyRuns(ts, m, k, v);
  }

  lemma {:induction false} LoneKeyRuns(ts: seq<Token>, m: Machine, t: Tree)
    requires Fits(t, false, false, m.directives) && Laid(ts, m.pos, Tokens(t))
    requires TypeIn(ts, m.pos + |Tokens(t)|, {FLOW_ENTRY, FLOW_MAPPING_END})
    ensures Does(ts, FlowPairNext(ts, m), PairEvent(Single(t), m.directives), m.(state := ParseFlowMappingKey, pos := m.pos + |Tokens(t)|))
    decreases Single(t), 0
  {
    hide Laid, ChildNext, ChildOrEmpty, Goes, Fits, Tokens, Events;
    var ds, end := m.directives, m.(state := ParseFlowMappingKey, pos := m.pos + |Tokens(t)|);
    FirstType(t, false, false, ds);
    FirstAt(ts, m.pos, Tokens(t));
    ChildRuns(ts, m, ParseFlowMappingEmptyValue, t, false, false);
    var n := m.(state := ParseFlowMappingEmptyValue, pos := m.pos + |Tokens(t)|);
    DoesLast(ts, Turn(EMPTY_SCALAR, end));
    Entered(ts, n, [EMPTY_SCALAR], end);
    DoesOn(ts, FlowPairNext(ts, m), Events(t, ds), n, [EMPTY_SCALAR], end);
  }

  lemma {:induction false} FlowKeyRuns(ts: seq<Token>, m: Machine, k: Tree, v: Value)
    requires (k.Missing? || Fits(k, false, false, m.directives)) && ValueFits(v, false, m.directives)
    requires Laid(ts, m.pos, EntryTokens(Keyed(k, v))) && TypeIn(ts, m.pos + |EntryTokens(Keyed(k, v))|, {FLOW_ENTRY, FLOW_MAPPING_END})
    ensures Does(ts, FlowPairNext(ts, m), PairEvent(Keyed(k, v), m.directives),
                 m.(state := ParseFlowMappingKey, pos := m.pos + |EntryTokens(Keyed(k, v))|))
    decreases Keyed(k, v), 0
  {
    hide Laid, ChildNext, ChildOrEmpty, Goes, Fits, Tokens, Events, ValueTokens, EntryTokens, ValueEvents, ValueFits, FlowValueNext;
    var ds, end := m.directives, m.(state := ParseFlowMappingKey, pos := m.pos + |EntryTokens(Keyed(k, v))|);
    KeyedLaid(ts, m.pos, k, v);
    var at := m.pos + 1 + |Tokens(k)|;
    ValueOrNext(ts, at, v, {FLOW_ENTRY, FLOW_MAPPING_END});
    NoTokens(k);
    ChildOrEmptyRuns(ts, Skipped(m), ParseFlowMappingValue, k, false, false, {VALUE, FLOW_ENTRY, FLOW_MAPPING_END});
    var n := m.(state := ParseFlowMappingValue, pos := at);
    FlowValue(ts, n);
    ValueRuns(ts, n, FlowValueNext(ts, n, false), ParseFlowMappingKey, v, false, {FLOW_ENTRY, FLOW_MAPPING_END});
    ValueSome(v, ds);
    Entered(ts, n, ValueEvents(v, ds), end);
    DoesOn(ts, FlowPairNext(ts, m), Events(k, ds), n, ValueEvents(v, ds), end);
  }

  lemma FlowValue(ts: seq<Token>, m: Machine)
    ensures FlowValueNext(ts, m, false)
      == if TypeIn(ts, m.pos, {VALUE}) then ChildOrEmpty(ts, Skipped(m), ParseFlowMappingKey, false, false, {FLOW_ENTRY, FLOW_MAPPING_END})
         else if m.pos < |ts| then Some(Turn(EMPTY_SCALAR, Go(m, ParseFlowMappingKey))) else None
  {
  }

  // ---------- documents ----------

  lemma {:induction false} DirectivesRead(ts: seq<Token>, i: nat, ds: seq<Directive>, seen: bool, before: seq<TagDirective>)
    requires DirectivesFit(ds, seen, before) && Laid(ts, i, DirectiveTokens(ds))
    requires i + |DirectiveTokens(ds)| < |ts| && ts[i + |DirectiveTokens(ds)|].typ !in {VERSION_DIRECTIVE, TAG_DIRECTIVE}
    ensures DirectivesAt(ts, i, seen, before) == Some(Prologue(i + |DirectiveTokens(ds)|, WithDefaults(before + Defined(ds))))
    decreases |ds|
  {
    hide Laid, WithDefaults, HasHandle, Defined, DirectiveTokens;
    NoDirectives();
    if ds == [] {
      assert before + Defined(ds) == before;
    } else {
      FirstDirective(ts, i, ds);
      if ds[0].Version? {
        DirectivesRead(ts, i + 1, ds[1..], true, before);
      } else {
        var d := TagDirective(ds[0].handle, ds[0].prefix);
        Attached(before, [d], Defined(ds[1..]));
        DirectivesRead(ts, i + 1, ds[1..], seen, before + [d]);
      }
    }
  }

  lemma FirstDirective(ts: seq<Token>, i: nat, ds: seq<Directive>)
    requires ds != [] && Laid(ts, i, DirectiveTokens(ds))
    ensures i < |ts| && Laid(ts, i + 1, DirectiveTokens(ds[1..])) && |DirectiveTokens(ds)| == 1 + |DirectiveTokens(ds[1..])|
    ensures ds[0].Version? ==> ts[i].typ == VERSION_DIRECTIVE && ts[i].major == 1 && ts[i].minor == 1 && Defined(ds) == Defined(ds[1..])
    ensures ds[0].TagIs? ==>
      && ts[i].typ == TAG_DIRECTIVE && ts[i].value == ds[0].handle && ts[i].prefix == ds[0].prefix
      && Defined(ds) == [TagDirective(ds[0].handle, ds[0].prefix)] + Defined(ds[1..])
  {
    hide Laid;
    var first := DirectiveTokens(ds)[0];
    LaidSplit(ts, i, [first], DirectiveTokens(ds[1..]));
    LaidOne(ts, i, first);
    assert [] + Defined(ds[1..]) == Defined(ds[1..]);
  }

  lemma {:induction false} EndsRead(ts: seq<Token>, i: nat, n: nat)
    requires Laid(ts, i, EndTokens(n)) && i + |EndTokens(n)| < |ts| && ts[i + |EndTokens(n)|].typ != DOCUMENT_END
    ensures PastEnds(ts, i) == i + |EndTokens(n)|
    decreases n
  {
    hide Laid;
    if n > 0 {
      LaidSplit(ts, i, [Tok(DOCUMENT_END)], EndTokens(n - 1));
      LaidOne(ts, i, Tok(DOCUMENT_END));
      EndsRead(ts, i + 1, n - 1);
    }
  }

  /** What comes between documents, or behind the last. */
  lemma HeadOrEnd(ts: seq<Token>, i: nat, docs: seq<Document>)
    requires DocumentsFit(docs, false) && Laid(ts, i, DocumentTokens(docs) + [Tok(STREAM_END)])
    ensures TypeIn(ts, i, {VERSION_DIRECTIVE, TAG_DIRECTIVE, DOCUMENT_START, STREAM_END})
  {
    hide Laid, Tokens, DirectivesFit, Table;
    FirstAt(ts, i, DocumentTokens(docs) + [Tok(STREAM_END)]);
  }

  /** The pieces of the first document are where they should be. */
  lemma DocumentLaid(ts: seq<Token>, i: nat, docs: seq<Document>, rest: seq<Token>)
    requires docs != [] && Laid(ts, i, DocumentTokens(docs) + rest)
    ensures var d := docs[0];
      var root, ends, more := i + |HeadTokens(d)|, i + |HeadTokens(d)| + |Tokens(d.root)|, i + |HeadTokens(d)| + |Tokens(d.root)| + |EndTokens(d.ends)|;
      && Laid(ts, i, HeadTokens(d)) && Laid(ts, root, Tokens(d.root)) && Laid(ts, ends, EndTokens(d.ends))
      && Laid(ts, more, DocumentTokens(docs[1..]) + rest)
      && |DocumentTokens(docs)| == |HeadTokens(d)| + |Tokens(d.root)| + |EndTokens(d.ends)| + |DocumentTokens(docs[1..])|
  {
    hide Laid, HeadTokens, Tokens, EndTokens;
    var d := docs[0];
    var h, r, e, more := HeadTokens(d), Tokens(d.root), EndTokens(d.ends), DocumentTokens(docs[1..]) + rest;
    Grouped(h, r, e, DocumentTokens(docs[1..]), rest);
    LaidSplit(ts, i, h, r + (e + more));
    LaidSplit(ts, i + |h|, r, e + more);
    LaidSplit(ts, i + |h| + |r|, e, more);
  }

  lemma Grouped<T>(a: seq<T>, b: seq<T>, c: seq<T>, d: seq<T>, e: seq<T>)
    ensures (a + (b + (c + d))) + e == a + (b + (c + (d + e)))
  {
  }

  /** Behind a root comes an end indicator, the next document or the end. */
  lemma RootFollows(ts: seq<Token>, i: nat, n: nat, docs: seq<Document>)
    requires DocumentsFit(docs, false) && Laid(ts, i, EndTokens(n)) && Laid(ts, i + |EndTokens(n)|, DocumentTokens(docs) + [Tok(STREAM_END)])
    ensures TypeIn(ts, i, {DOCUMENT_END, VERSION_DIRECTIVE, TAG_DIRECTIVE, DOCUMENT_START, STREAM_END})
    ensures n > 0 <==> TypeIn(ts, i, {DOCUMENT_END})
  {
    hide Laid;
    HeadOrEnd(ts, i + |EndTokens(n)|, docs);
    if n > 0 {
      FirstAt(ts, i, EndTokens(n));
    }
  }

  /** The head of a document opens it, with its tags in force. */
  lemma HeadRuns(ts: seq<Token>, m: Machine, i: nat, d: Document, implicit: bool)
    requires DocumentFits(d, implicit) && m.states == [] && m.directives == [] && m.pos < |ts|
    requires i == if implicit then m.pos else PastEnds(ts, m.pos)
    requires Laid(ts, i, HeadTokens(d)) && Laid(ts, i + |HeadTokens(d)|, Tokens(d.root)) && i + |HeadTokens(d)| + |Tokens(d.root)| < |ts|
    ensures DocumentStartNext(ts, m, implicit) == Some(Turn(DocumentStart,
      Machine(i + |HeadTokens(d)|, if d.explicit then ParseDocumentContent else ParseBlockNode, [ParseDocumentEnd], Table(d))))
  {
    hide Laid, Tokens, DirectivesAt, WithDefaults, Fits, DirectiveTokens, DirectivesFit, PastEnds, DocumentStartNext;
    var at := i + |DirectiveTokens(d.directives)|;
    LaidSplit(ts, i, DirectiveTokens(d.directives), if d.explicit then [Tok(DOCUMENT_START)] else []);
    if d.explicit {
      LaidOne(ts, at, Tok(DOCUMENT_START));
    } else {
      NoDirectives();
      FirstType(d.root, true, false, Table(d));
      FirstAt(ts, at, Tokens(d.root));
    }
    DirectivesRead(ts, i, d.directives, false, []);
    assert [] + Defined(d.directives) == Defined(d.directives);
    FirstOf(ts, i, d);
    Opens(ts, m, i, Prologue(at, Table(d)), d.explicit, implicit);
  }

  /** A document with its directives read: over the start indicator, or at its first token. */
  lemma Opens(ts: seq<Token>, m: Machine, i: nat, p: Prologue, explicit: bool, implicit: bool)
    requires m.states == [] && m.pos < |ts| && i < |ts| && i == if implicit then m.pos else PastEnds(ts, m.pos)
    requires DirectivesAt(ts, i, false, m.directives) == Some(p)
    requires if explicit then TypeIn(ts, p.pos, {DOCUMENT_START}) && ts[i].typ in {VERSION_DIRECTIVE, TAG_DIRECTIVE, DOCUMENT_START}
             else implicit && p.pos == i && ts[i].typ in STARTS
    ensures DocumentStartNext(ts, m, implicit) == Some(Turn(DocumentStart,
      Machine(if explicit then p.pos + 1 else p.pos, if explicit then ParseDocumentContent else ParseBlockNode, [ParseDocumentEnd], p.directives)))
  {
    hide DirectivesAt, PastEnds;
    assert m.states + [ParseDocumentEnd] == [ParseDocumentEnd];
  }

  lemma NoDirectives()
    ensures DirectiveTokens([]) == [] && Defined([]) == []
  {
  }

  /** Where a document begins there is no end of the stream. */
  lemma FirstOf(ts: seq<Token>, i: nat, d: Document)
    requires Laid(ts, i, DirectiveTokens(d.directives)) && i + |DirectiveTokens(d.directives)| < |ts|
    requires d.explicit ==> TypeIn(ts, i + |DirectiveTokens(d.directives)|, {DOCUMENT_START})
    requires !d.explicit ==> d.directives == []
    ensures i < |ts| && (d.explicit ==> ts[i].typ in {VERSION_DIRECTIVE, TAG_DIRECTIVE, DOCUMENT_START})
  {
    hide Laid;
    if d.directives != [] {
      FirstAt(ts, i, DirectiveTokens(d.directives));
    }
  }

  /** The root of a document, missing or not. */
  lemma RootRuns(ts: seq<Token>, m: Machine, d: Document)
    requires m.states == [ParseDocumentEnd] && m.state == (if d.explicit then ParseDocumentContent else ParseBlockNode) && m.directives == Table(d)
    requires if d.root.Missing? then d.explicit else Fits(d.root, true, false, m.directives)
    requires Laid(ts, m.pos, Tokens(d.root))
    requires TypeIn(ts, m.pos + |Tokens(d.root)|, {DOCUMENT_END, VERSION_DIRECTIVE, TAG_DIRECTIVE, DOCUMENT_START, STREAM_END})
    ensures Goes(ts, m, Events(d.root, m.directives), Machine(m.pos + |Tokens(d.root)|, ParseDocumentEnd, [], m.directives))
  {
    hide Laid, Fits, NodeNext, Goes, Tokens, Events;
    NoTokens(d.root);
    MissingEvents(m.directives);
    var end := Machine(m.pos + |Tokens(d.root)|, ParseDocumentEnd, [], m.directives);
    if d.root.Missing? {
      DoesLast(ts, Turn(EMPTY_SCALAR, end));
    } else {
      FirstType(d.root, true, false, m.directives);
      FirstAt(ts, m.pos, Tokens(d.root));
      NodeRuns(ts, m, d.root, true, false);
    }
    Entered(ts, m, Events(d.root, m.directives), end);
  }

  lemma MissingEvents(ds: seq<TagDirective>)
    ensures Events(Missing, ds) == [EMPTY_SCALAR]
  {
  }

  /** One document, whose first token is at i. */
  lemma DocumentRuns(ts: seq<Token>, m: Machine, i: nat, d: Document, implicit: bool)
    requires DocumentFits(d, implicit) && m.states == [] && m.directives == [] && m.pos < |ts|
    requires m.state == if implicit then ParseImplicitDocumentStart else ParseDocumentStart
    requires i == if implicit then m.pos else PastEnds(ts, m.pos)
    requires Laid(ts, i, HeadTokens(d)) && Laid(ts, i + |HeadTokens(d)|, Tokens(d.root))
    requires var ends := i + |HeadTokens(d)| + |Tokens(d.root)|;
      && TypeIn(ts, ends, {DOCUMENT_END, VERSION_DIRECTIVE, TAG_DIRECTIVE, DOCUMENT_START, STREAM_END})
      && (d.ends > 0 <==> TypeIn(ts, ends, {DOCUMENT_END})) && Laid(ts, ends, EndTokens(d.ends))
    ensures var ends := i + |HeadTokens(d)| + |Tokens(d.root)|;
      Goes(ts, m, [DocumentStart] + (Events(d.root, Table(d)) + [DocumentEnd]), Machine(if d.ends > 0 then ends + 1 else ends, ParseDocumentStart, [], []))
  {
    hide Laid, Goes, HeadTokens, Tokens, Events, Table, DocumentFits, DocumentStartNext, EndTokens, DocumentEndNext, PastEnds;
    var root, ends := i + |HeadTokens(d)|, i + |HeadTokens(d)| + |Tokens(d.root)|;
    HeadRuns(ts, m, i, d, implicit);
    var n1 := Machine(root, if d.explicit then ParseDocumentContent else ParseBlockNode, [ParseDocumentEnd], Table(d));
    RootFits(d, implicit);
    RootRuns(ts, n1, d);
    var n2 := Machine(ends, ParseDocumentEnd, [], Table(d));
    DocumentEnds(ts, n2, d.ends);
    var n3 := Machine(if d.ends > 0 then ends + 1 else ends, ParseDocumentStart, [], []);
    DoesLast(ts, Turn(DocumentEnd, n3));
    Entered(ts, n2, [DocumentEnd], n3);
    GoesOn(ts, n1, Events(d.root, Table(d)), n2, [DocumentEnd], n3);
    DoesFirst(ts, Turn(DocumentStart, n1), Events(d.root, Table(d)) + [DocumentEnd], n3);
    Entered(ts, m, [DocumentStart] + (Events(d.root, Table(d)) + [DocumentEnd]), n3);
  }

  /** All documents from here on, and the end of the stream; n end indicators of the one before are still to be skipped. */
  lemma {:induction false} DocumentsRun(ts: seq<Token>, m: Machine, n: nat, docs: seq<Document>, implicit: bool)
    requires DocumentsFit(docs, implicit) && m.states == [] && m.directives == [] && (implicit ==> n == 0)
    requires m.state == if implicit then ParseImplicitDocumentStart else ParseDocumentStart
    requires Laid(ts, m.pos, EndTokens(n)) && Laid(ts, m.pos + |EndTokens(n)|, DocumentTokens(docs) + [Tok(STREAM_END)])
    ensures Goes(ts, m, DocumentEvents(docs) + [StreamEnd], Machine(m.pos + |EndTokens(n)| + |DocumentTokens(docs)| + 1, ParseEnd, [], []))
    decreases |docs|
  {
    hide Laid, Goes, HeadTokens, Tokens, Events, Table, DocumentFits, DocumentStartNext, DocumentEndNext, EndTokens, DocumentTokens, DocumentEvents, DocumentsFit;
    DocumentsCons(docs, implicit);
    NoEnds(ts, m.pos);
    var i := m.pos + |EndTokens(n)|;
    var end := Machine(i + |DocumentTokens(docs)| + 1, ParseEnd, [], []);
    if docs == [] {
      assert [] + [Tok(STREAM_END)] == [Tok(STREAM_END)] && [] + [StreamEnd] == [StreamEnd];
      StreamEndRuns(ts, m, n, implicit);
    } else {
      var d, k := docs[0], if docs[0].ends > 0 then docs[0].ends - 1 else 0;
      DocumentLaid(ts, i, docs, [Tok(STREAM_END)]);
      var ends := i + |HeadTokens(d)| + |Tokens(d.root)|;
      RootFollows(ts, ends, d.ends, docs[1..]);
      HeadBegins(ts, i, d, implicit);
      if !implicit { EndsRead(ts, m.pos, n); }
      DocumentRuns(ts, m, i, d, implicit);
      var n3 := Machine(if d.ends > 0 then ends + 1 else ends, ParseDocumentStart, [], []);
      DocumentEnds(ts, Machine(ends, ParseDocumentEnd, [], []), d.ends);
      DocumentsRun(ts, n3, k, docs[1..], false);
      var first, rest := [DocumentStart] + (Events(d.root, Table(d)) + [DocumentEnd]), DocumentEvents(docs[1..]) + [StreamEnd];
      GoesOn(ts, m, first, n3, rest, end);
      Regrouped([DocumentStart], Events(d.root, Table(d)), [DocumentEnd], DocumentEvents(docs[1..]), [StreamEnd]);
    }
  }

  /** No document is left. */
  lemma StreamEndRuns(ts: seq<Token>, m: Machine, n: nat, implicit: bool)
    requires m.states == [] && m.directives == [] && (implicit ==> n == 0)
    requires m.state == if implicit then ParseImplicitDocumentStart else ParseDocumentStart
    requires Laid(ts, m.pos, EndTokens(n)) && Laid(ts, m.pos + |EndTokens(n)|, [Tok(STREAM_END)])
    ensures Goes(ts, m, [StreamEnd], Machine(m.pos + |EndTokens(n)| + 1, ParseEnd, [], []))
  {
    hide Laid, Goes, DocumentStartNext;
    var i := m.pos + |EndTokens(n)|;
    LaidOne(ts, i, Tok(STREAM_END));
    EndsRead(ts, m.pos, n);
    StreamEnds(ts, m, i, implicit);
    DoesLast(ts, Turn(StreamEnd, Machine(i + 1, ParseEnd, [], [])));
    Entered(ts, m, [StreamEnd], Machine(i + 1, ParseEnd, [], []));
  }

  lemma DocumentsCons(docs: seq<Document>, first: bool)
    ensures DocumentTokens([]) == [] && DocumentEvents([]) == []
    ensures docs != [] ==> DocumentEvents(docs) == [DocumentStart] + (Events(docs[0].root, Table(docs[0])) + ([DocumentEnd] + DocumentEvents(docs[1..])))
    ensures docs != [] && DocumentsFit(docs, first) ==> DocumentFits(docs[0], first) && DocumentsFit(docs[1..], false)
  {
    hide Events, Table, DocumentFits;
  }

  lemma Regrouped<T>(a: seq<T>, b: seq<T>, c: seq<T>, d: seq<T>, e: seq<T>)
    ensures (a + (b + (c + d))) + e == (a + (b + c)) + (d + e)
  {
  }

  lemma RootFits(d: Document, first: bool)
    requires DocumentFits(d, first)
    ensures if d.root.Missing? then d.explicit else Fits(d.root, true, false, Table(d))
  {
  }

  /** A document does not begin with an end indicator. */
  lemma HeadBegins(ts: seq<Token>, i: nat, d: Document, first: bool)
    requires DocumentFits(d, first) && Laid(ts, i, HeadTokens(d)) && Laid(ts, i + |HeadTokens(d)|, Tokens(d.root))
    ensures i < |ts| && (!first ==> ts[i].typ != DOCUMENT_END)
  {
    hide Laid, Tokens, Fits, DirectivesFit, Table;
    if HeadTokens(d) != [] {
      FirstAt(ts, i, HeadTokens(d));
    } else {
      FirstType(d.root, true, false, Table(d));
      FirstAt(ts, i, Tokens(d.root));
    }
  }

  lemma StreamEnds(ts: seq<Token>, m: Machine, i: nat, implicit: bool)
    requires m.pos <= i && i == (if implicit then m.pos else PastEnds(ts, m.pos)) && TypeIn(ts, i, {STREAM_END})
    ensures DocumentStartNext(ts, m, implicit) == Some(Turn(StreamEnd, m.(pos := i + 1, state := ParseEnd)))
  {
    hide PastEnds, DirectivesAt;
  }

  /** Behind the root: over one end indicator, if there are any, to the next document. */
  lemma DocumentEnds(ts: seq<Token>, m: Machine, n: nat)
    requires m.pos < |ts| && (n > 0 <==> TypeIn(ts, m.pos, {DOCUMENT_END})) && Laid(ts, m.pos, EndTokens(n))
    ensures DocumentEndNext(ts, m) == Some(Turn(DocumentEnd, Machine(if n > 0 then m.pos + 1 else m.pos, ParseDocumentStart, m.states, [])))
    ensures var k := if n > 0 then n - 1 else 0;
      var at := if n > 0 then m.pos + 1 else m.pos;
      Laid(ts, at, EndTokens(k)) && at + |EndTokens(k)| == m.pos + |EndTokens(n)|
  {
    hide Laid;
    if n > 0 {
      LaidSplit(ts, m.pos, [Tok(DOCUMENT_END)], EndTokens(n - 1));
    }
  }

  /** A stream that follows the grammar is parsed into the events of its documents, up to its end. */
  lemma StreamRuns(ts: seq<Token>, docs: seq<Document>)
    requires Laid(ts, 0, StreamTokens(docs)) && DocumentsFit(docs, true)
    ensures Goes(ts, START, StreamEvents(docs), Machine(|StreamTokens(docs)|, ParseEnd, [], []))
  {
    hide Laid, Goes, DocumentTokens, DocumentsFit;
    var m, n, end := START, Machine(1, ParseImplicitDocumentStart, [], []), Machine(|StreamTokens(docs)|, ParseEnd, [], []);
    LaidSplit(ts, 0, [Tok(STREAM_START)], DocumentTokens(docs) + [Tok(STREAM_END)]);
    LaidOne(ts, 0, Tok(STREAM_START));
    NoEnds(ts, 1);
    DocumentsRun(ts, n, 0, docs, true);
    DoesFirst(ts, Turn(StreamStart, n), DocumentEvents(docs) + [StreamEnd], end);
    Entered(ts, m, StreamEvents(docs), end);
  }

  lemma NoEnds(ts: seq<Token>, i: nat)
    ensures EndTokens(0) == [] && (i <= |ts| ==> Laid(ts, i, EndTokens(0)))
  {
  }

  // ---------- what the code does not keep of the grammar ----------

  /** Only a scalar of its own is a single event, and only a collection begins with another. */
  lemma OneEvent(t: Tree, ds: seq<TagDirective>)
    ensures Events(t, ds)[0].Scalar? || Events(t, ds)[0].Alias? ==> |Events(t, ds)| == 1
  {
  }

  /** What is read where the key of a single pair is missing: the token that shows it goes, and then the pair is over. */
  lemma KeylessReads(ts: seq<Token>, m: Machine)
    requires m.state == ParseFlowSequenceEntryMappingKey && TypeIn(ts, m.pos, {VALUE, FLOW_ENTRY, FLOW_SEQUENCE_END})
    requires m.pos + 1 < |ts| && ts[m.pos + 1].typ != VALUE
    ensures Goes(ts, m, [EMPTY_SCALAR, EMPTY_SCALAR, MappingEnd], m.(state := ParseFlowSequenceEntry, pos := m.pos + 1))
  {
    hide Goes, Next, Does;
    var n1, n2 := Skipped(Go(m, ParseFlowSequenceEntryMappingValue)), Skipped(Go(m, ParseFlowSequenceEntryMappingEnd));
    var n3 := Skipped(Go(m, ParseFlowSequenceEntry));
    KeylessNexts(ts, m);
    DoesLast(ts, Turn(MappingEnd, n3));
    Entered(ts, n2, [MappingEnd], n3);
    DoesFirst(ts, Turn(EMPTY_SCALAR, n2), [MappingEnd], n3);
    Entered(ts, n1, [EMPTY_SCALAR] + [MappingEnd], n3);
    DoesFirst(ts, Turn(EMPTY_SCALAR, n1), [EMPTY_SCALAR] + [MappingEnd], n3);
    assert [EMPTY_SCALAR] + ([EMPTY_SCALAR] + [MappingEnd]) == [EMPTY_SCALAR, EMPTY_SCALAR, MappingEnd];
    Entered(ts, m, [EMPTY_SCALAR, EMPTY_SCALAR, MappingEnd], n3);
  }

  lemma KeylessNexts(ts: seq<Token>, m: Machine)
    requires m.state == ParseFlowSequenceEntryMappingKey && TypeIn(ts, m.pos, {VALUE, FLOW_ENTRY, FLOW_SEQUENCE_END})
    requires m.pos + 1 < |ts| && ts[m.pos + 1].typ != VALUE
    ensures Next(ts, m) == Some(Turn(EMPTY_SCALAR, Skipped(Go(m, ParseFlowSequenceEntryMappingValue))))
    ensures Next(ts, Skipped(Go(m, ParseFlowSequenceEntryMappingValue))) == Some(Turn(EMPTY_SCALAR, Skipped(Go(m, ParseFlowSequenceEntryMappingEnd))))
    ensures Next(ts, Skipped(Go(m, ParseFlowSequenceEntryMappingEnd))) == Some(Turn(MappingEnd, Skipped(Go(m, ParseFlowSequenceEntry))))
  {
    hide ChildNext, ChildOrEmpty;
  }

  /** Neither key nor value: the indicator of the value is what shows the key to be missing. */
  lemma KeylessEmpty(ts: seq<Token>, m: Machine)
    requires Laid(ts, m.pos, EntryTokens(Keyed(Missing, ValueIs(Missing))))
    requires TypeIn(ts, m.pos + |EntryTokens(Keyed(Missing, ValueIs(Missing)))|, {FLOW_ENTRY, FLOW_SEQUENCE_END})
    ensures |EntryTokens(Keyed(Missing, ValueIs(Missing)))| == 2
    ensures Does(ts, FlowEntryNext(ts, m), EntryEvent(Keyed(Missing, ValueIs(Missing)), m.directives), m.(state := ParseFlowSequenceEntry, pos := m.pos + 2))
  {
    hide Laid, Goes, ChildNext, ChildOrEmpty;
    var v := ValueIs(Missing);
    KeyedLaid(ts, m.pos, Missing, v);
    LaidSplit(ts, m.pos + 1, [Tok(VALUE)], []);
    LaidOne(ts, m.pos + 1, Tok(VALUE));
    var n0 := Skipped(Go(m, ParseFlowSequenceEntryMappingKey));
    KeylessReads(ts, n0);
    var rest := [EMPTY_SCALAR] + ([EMPTY_SCALAR] + [MappingEnd]);
    assert rest == [EMPTY_SCALAR, EMPTY_SCALAR, MappingEnd];
    DoesFirst(ts, Turn(MappingStart([], [], true), n0), rest, m.(state := ParseFlowSequenceEntry, pos := m.pos + 2));
  }

  /**
   * A single pair in a flow sequence whose key is missing, which the grammar allows: it is parsed into its events, up to
   * what follows it, exactly if it has the indicator of a value, but no value.
   */
  lemma KeylessPair(ts: seq<Token>, m: Machine, v: Value)
    requires ValueFits(v, false, m.directives) && Laid(ts, m.pos, EntryTokens(Keyed(Missing, v)))
    requires var end := m.pos + |EntryTokens(Keyed(Missing, v))|;
      TypeIn(ts, end, {FLOW_ENTRY, FLOW_SEQUENCE_END}) && end + 1 < |ts| && ts[end + 1].typ != VALUE
    ensures Does(ts, FlowEntryNext(ts, m), EntryEvent(Keyed(Missing, v), m.directives),
                 m.(state := ParseFlowSequenceEntry, pos := m.pos + |EntryTokens(Keyed(Missing, v))|))
      <==> v == ValueIs(Missing)
  {
    hide Laid, Goes, Fits, Tokens, Events, ChildNext, ChildOrEmpty;
    var ds, end := m.directives, m.(state := ParseFlowSequenceEntry, pos := m.pos + |EntryTokens(Keyed(Missing, v))|);
    NoTokens(Missing);
    KeyedLaid(ts, m.pos, Missing, v);
    ValueOrNext(ts, m.pos + 1, v, {FLOW_ENTRY, FLOW_SEQUENCE_END});
    KeylessValue(ts, m.pos + 1, v, ds);
    var n0 := Skipped(Go(m, ParseFlowSequenceEntryMappingKey));
    var n3 := Skipped(Go(n0, ParseFlowSequenceEntry));
    KeylessReads(ts, n0);
    MissingEvents(ds);
    var rest := [EMPTY_SCALAR] + (ValueEvents(v, ds) + [MappingEnd]);
    assert ([MappingStart([], [], true)] + rest)[1..] == rest;
    if v == ValueIs(Missing) {
      assert rest == [EMPTY_SCALAR, EMPTY_SCALAR, MappingEnd];
    } else {
      ValueLong(v, ds);
      assert rest[1] == ValueEvents(v, ds)[0];
      AsKeyless(ts, n0, rest, end);
    }
  }

  lemma AsKeyless(ts: seq<Token>, m: Machine, events: seq<Event>, end: Machine)
    requires |events| >= 3 && m.state == ParseFlowSequenceEntryMappingKey
    requires Goes(ts, m, [EMPTY_SCALAR, EMPTY_SCALAR, MappingEnd], m.(state := ParseFlowSequenceEntry, pos := m.pos + 1))
    ensures Goes(ts, m, events, end) ==> events[1] == EMPTY_SCALAR && (|events| == 3 ==> end.pos == m.pos + 1)
  {
    hide Goes;
    if Goes(ts, m, events, end) {
      GoesOneWay(ts, m, [EMPTY_SCALAR, EMPTY_SCALAR, MappingEnd], m.(state := ParseFlowSequenceEntry, pos := m.pos + 1), events, end);
      assert events[..3][1] == events[1];
    }
  }

  /** Behind a missing key: a value's indicator and its first token, which is no indicator, or what follows the pair. */
  lemma KeylessValue(ts: seq<Token>, i: nat, v: Value, ds: seq<TagDirective>)
    requires ValueFits(v, false, ds) && Laid(ts, i, ValueTokens(v)) && TypeIn(ts, i + |ValueTokens(v)|, {FLOW_ENTRY, FLOW_SEQUENCE_END})
    ensures v.ValueIs? ==> i + 1 < |ts| && ts[i + 1].typ != VALUE
    ensures |ValueTokens(v)| == 1 <==> v == ValueIs(Missing)
  {
    hide Laid, Fits, Tokens;
    if v.ValueIs? {
      LaidSplit(ts, i, [Tok(VALUE)], Tokens(v.tree));
      NoTokens(v.tree);
      if !v.tree.Missing? {
        FirstType(v.tree, false, false, ds);
        FirstAt(ts, i + 1, Tokens(v.tree));
      }
    }
  }

  lemma ValueLong(v: Value, ds: seq<TagDirective>)
    ensures ValueEvents(v, ds) != [] && (ValueEvents(v, ds)[0] == EMPTY_SCALAR ==> |ValueEvents(v, ds)| == 1)
  {
    hide Events;
    if v.ValueIs? {
      OneEvent(v.tree, ds);
    }
  }

  /** A value without a key in a block mapping, which the grammar allows too, is refused. */
  lemma KeylessValueRefused(ts: seq<Token>, m: Machine)
    requires m.state == ParseBlockMappingKey && TypeIn(ts, m.pos, {VALUE})
    ensures Next(ts, m).None?
  {
  }
}
