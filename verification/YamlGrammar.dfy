/** The grammar of token streams, and what the parser makes of every stream that follows it. */
module YamlGrammar {
  import opened Keys
  import opened Options
  import opened YamlEvents
  import opened YamlTokens
  import opened YamlMachine

  // ---------- trees and their tokens ----------

  datatype Tag = Tag(handle: Bytes, suffix: Bytes)

  /** properties ::= TAG ANCHOR? | ANCHOR TAG?, or none */
  datatype Props = Props(anchor: Opt<Bytes>, tag: Opt<Tag>, tagFirst: bool)

  /** A node as it is written: a missing one, an alias, a scalar, properties alone, or a collection in one of its forms. */
  datatype Tree =
    | Missing
    | AliasTo(name: Bytes)
    | Leaf(props: Props, value: Bytes, plain: bool)
    | Bare(props: Props)
    | BlockSeq(props: Props, items: seq<Tree>)
    | Indentless(props: Props, items: seq<Tree>)
    | BlockMap(props: Props, entries: seq<Entry>)
    | FlowSeq(props: Props, entries: seq<Entry>, comma: bool)
    | FlowMap(props: Props, entries: seq<Entry>, comma: bool)

  /** An entry of a mapping or of a flow sequence: a single node, or a key with a value, with none, or without the indicator. */
  datatype Entry = Single(tree: Tree) | Keyed(key: Tree, value: Value)

  datatype Place = InBlockMap | InFlowSeq | InFlowMap

  datatype Value = NoValue | ValueIs(tree: Tree)

  function Tok(typ: TokenType): Token {
    Token(typ, [], [], [], 0, 0, false, 0)
  }

  /** What the grammar looks at in a token. */
  function Essence(t: Token): Token {
    Token(t.typ,
          if t.typ in {SCALAR, ALIAS, ANCHOR, TAG, TAG_DIRECTIVE} then t.value else [],
          if t.typ == TAG then t.suffix else [],
          if t.typ == TAG_DIRECTIVE then t.prefix else [],
          if t.typ == VERSION_DIRECTIVE then t.major else 0,
          if t.typ == VERSION_DIRECTIVE then t.minor else 0,
          t.typ == SCALAR && t.plain, 0)
  }

  function AnchorTokens(p: Props): seq<Token> {
    if p.anchor.Some? then [Tok(ANCHOR).(value := p.anchor.value)] else []
  }

  function TagTokens(p: Props): seq<Token> {
    if p.tag.Some? then [Tok(TAG).(value := p.tag.value.handle, suffix := p.tag.value.suffix)] else []
  }

  function PropsTokens(p: Props): seq<Token> {
    if p.tagFirst then TagTokens(p) + AnchorTokens(p) else AnchorTokens(p) + TagTokens(p)
  }

  function Tokens(t: Tree): seq<Token>
    decreases t
  {
    match t
    case Missing => []
    case AliasTo(name) => [Tok(ALIAS).(value := name)]
    case Leaf(p, value, plain) => PropsTokens(p) + [Tok(SCALAR).(value := value, plain := plain)]
    case Bare(p) => PropsTokens(p)
    case BlockSeq(p, items) => PropsTokens(p) + ([Tok(BLOCK_SEQUENCE_START)] + (ItemTokens(items) + [Tok(BLOCK_END)]))
    case Indentless(p, items) => PropsTokens(p) + ItemTokens(items)
    case BlockMap(p, entries) => PropsTokens(p) + ([Tok(BLOCK_MAPPING_START)] + (PairTokens(entries) + [Tok(BLOCK_END)]))
    case FlowSeq(p, entries, comma) => PropsTokens(p) + ([Tok(FLOW_SEQUENCE_START)] + (FlowTokens(entries, comma) + [Tok(FLOW_SEQUENCE_END)]))
    case FlowMap(p, entries, comma) => PropsTokens(p) + ([Tok(FLOW_MAPPING_START)] + (FlowTokens(entries, comma) + [Tok(FLOW_MAPPING_END)]))
  }

  function ItemTokens(items: seq<Tree>): seq<Token>
    decreases items
  {
    if items == [] then [] else [Tok(BLOCK_ENTRY)] + (Tokens(items[0]) + ItemTokens(items[1..]))
  }

  function ValueTokens(v: Value): seq<Token>
    decreases v
  {
    match v
    case NoValue => []
    case ValueIs(t) => [Tok(VALUE)] + Tokens(t)
  }

  function EntryTokens(e: Entry): seq<Token>
    decreases e
  {
    match e
    case Single(t) => Tokens(t)
    case Keyed(k, v) => [Tok(KEY)] + (Tokens(k) + ValueTokens(v))
  }

  function PairTokens(entries: seq<Entry>): seq<Token>
    decreases entries
  {
    if entries == [] then [] else EntryTokens(entries[0]) + PairTokens(entries[1..])
  }

  /** Entries with commas between them, and perhaps one behind the last. */
  function FlowTokens(entries: seq<Entry>, comma: bool): seq<Token>
    decreases entries
  {
    if entries == [] then []
    else EntryTokens(entries[0]) + ((if |entries| > 1 || comma then [Tok(FLOW_ENTRY)] else []) + FlowTokens(entries[1..], comma))
  }

  // ---------- the events they stand for ----------

  function AnchorText(p: Props): Bytes {
    if p.anchor.Some? then p.anchor.value else []
  }

  function FullTag(p: Props, directives: seq<TagDirective>): Opt<Bytes> {
    if p.tag.None? then Some([]) else Resolved(directives, Tok(TAG).(value := p.tag.value.handle, suffix := p.tag.value.suffix))
  }

  function TagText(p: Props, directives: seq<TagDirective>): Bytes {
    if FullTag(p, directives).Some? then FullTag(p, directives).value else []
  }

  function Events(t: Tree, ds: seq<TagDirective>): (es: seq<Event>)
    ensures es != []
    decreases t
  {
    match t
    case Missing => [Scalar([], [], [], true, false)]
    case AliasTo(name) => [Alias(name)]
    case Leaf(p, value, plain) =>
      var tag := TagText(p, ds);
      [Scalar(AnchorText(p), tag, value, (tag == [] && plain) || tag == [0x21], tag == [] && !plain)]
    case Bare(p) => [Scalar(AnchorText(p), TagText(p, ds), [], TagText(p, ds) == [], false)]
    case BlockSeq(p, items) => [SequenceStart(AnchorText(p), TagText(p, ds), TagText(p, ds) == [])] + (ItemEvents(items, ds) + [SequenceEnd])
    case Indentless(p, items) => [SequenceStart(AnchorText(p), TagText(p, ds), TagText(p, ds) == [])] + (ItemEvents(items, ds) + [SequenceEnd])
    case BlockMap(p, entries) => [MappingStart(AnchorText(p), TagText(p, ds), TagText(p, ds) == [])] + (PairEvents(entries, ds) + [MappingEnd])
    case FlowSeq(p, entries, _) => [SequenceStart(AnchorText(p), TagText(p, ds), TagText(p, ds) == [])] + (EntryEvents(entries, ds) + [SequenceEnd])
    case FlowMap(p, entries, _) => [MappingStart(AnchorText(p), TagText(p, ds), TagText(p, ds) == [])] + (PairEvents(entries, ds) + [MappingEnd])
  }

  function ItemEvents(items: seq<Tree>, ds: seq<TagDirective>): seq<Event>
    decreases items
  {
    if items == [] then [] else Events(items[0], ds) + ItemEvents(items[1..], ds)
  }

  function ValueEvents(v: Value, ds: seq<TagDirective>): seq<Event>
    decreases v
  {
    match v
    case NoValue => [Scalar([], [], [], true, false)]
    case ValueIs(t) => Events(t, ds)
  }

  /** In a mapping an entry is a key and a value. */
  function PairEvent(e: Entry, ds: seq<TagDirective>): seq<Event>
    decreases e
  {
    match e
    case Single(t) => Events(t, ds) + [Scalar([], [], [], true, false)]
    case Keyed(k, v) => Events(k, ds) + ValueEvents(v, ds)
  }

  function PairEvents(entries: seq<Entry>, ds: seq<TagDirective>): seq<Event>
    decreases entries
  {
    if entries == [] then [] else PairEvent(entries[0], ds) + PairEvents(entries[1..], ds)
  }

  /** In a flow sequence an entry is a node, or a mapping of a single pair. */
  function EntryEvent(e: Entry, ds: seq<TagDirective>): seq<Event>
    decreases e
  {
    match e
    case Single(t) => Events(t, ds)
    case Keyed(k, v) => [MappingStart([], [], true)] + (Events(k, ds) + (ValueEvents(v, ds) + [MappingEnd]))
  }

  function EntryEvents(entries: seq<Entry>, ds: seq<TagDirective>): seq<Event>
    decreases entries
  {
    if entries == [] then [] else EntryEvent(entries[0], ds) + EntryEvents(entries[1..], ds)
  }

  // ---------- which trees may stand where ----------

  predicate PropsFit(p: Props, ds: seq<TagDirective>) {
    FullTag(p, ds).Some?
  }

  /** Block collections stand in block context only, and an indentless sequence only as a key or value of a block mapping. */
  predicate Fits(t: Tree, block: bool, indentless: bool, ds: seq<TagDirective>)
    decreases t
  {
    match t
    case Missing => false
    case AliasTo(_) => true
    case Leaf(p, _, _) => PropsFit(p, ds)
    case Bare(p) => PropsFit(p, ds) && (AnchorText(p) != [] || TagText(p, ds) != [])
    case BlockSeq(p, items) => block && PropsFit(p, ds) && ItemsFit(items, ds)
    case Indentless(p, items) => indentless && PropsFit(p, ds) && items != [] && ItemsFit(items, ds)
    case BlockMap(p, entries) => block && PropsFit(p, ds) && EntriesFit(entries, InBlockMap, ds)
    case FlowSeq(p, entries, comma) => PropsFit(p, ds) && EntriesFit(entries, InFlowSeq, ds)
    case FlowMap(p, entries, comma) => PropsFit(p, ds) && EntriesFit(entries, InFlowMap, ds)
  }

  predicate ItemsFit(items: seq<Tree>, ds: seq<TagDirective>)
    decreases items
  {
    if items == [] then true else (items[0].Missing? || Fits(items[0], true, false, ds)) && ItemsFit(items[1..], ds)
  }

  predicate ValueFits(v: Value, block: bool, ds: seq<TagDirective>)
    decreases v
  {
    v.ValueIs? ==> v.tree.Missing? || Fits(v.tree, block, block, ds)
  }

  /** What an entry of a block mapping, a flow sequence or a flow mapping may be; a single pair in a flow sequence has a key, or neither key nor value. */
  predicate EntryFits(e: Entry, place: Place, ds: seq<TagDirective>)
    decreases e
  {
    match e
    case Single(t) => !place.InBlockMap? && Fits(t, false, false, ds)
    case Keyed(k, v) =>
      && ((k.Missing? && (place.InFlowSeq? ==> v == ValueIs(Missing))) || Fits(k, place.InBlockMap?, place.InBlockMap?, ds))
      && ValueFits(v, place.InBlockMap?, ds)
  }

  predicate EntriesFit(entries: seq<Entry>, place: Place, ds: seq<TagDirective>)
    decreases entries
  {
    if entries == [] then true else EntryFits(entries[0], place, ds) && EntriesFit(entries[1..], place, ds)
  }

  // ---------- documents ----------

  /** %YAML 1.1, or %TAG with a handle and a prefix. */
  datatype Directive = Version | TagIs(handle: Bytes, prefix: Bytes)

  /** A document: directives, the start indicator unless it is implicit, the root, and end indicators. */
  datatype Document = Document(directives: seq<Directive>, explicit: bool, root: Tree, ends: nat)

  function DirectiveTokens(ds: seq<Directive>): seq<Token> {
    if ds == [] then []
    else [if ds[0].Version? then Tok(VERSION_DIRECTIVE).(major := 1, minor := 1)
          else Tok(TAG_DIRECTIVE).(value := ds[0].handle, prefix := ds[0].prefix)] + DirectiveTokens(ds[1..])
  }

  function EndTokens(n: nat): seq<Token> {
    if n == 0 then [] else [Tok(DOCUMENT_END)] + EndTokens(n - 1)
  }

  function HeadTokens(d: Document): seq<Token> {
    DirectiveTokens(d.directives) + if d.explicit then [Tok(DOCUMENT_START)] else []
  }

  function DocumentTokens(docs: seq<Document>): seq<Token> {
    if docs == [] then [] else HeadTokens(docs[0]) + (Tokens(docs[0].root) + (EndTokens(docs[0].ends) + DocumentTokens(docs[1..])))
  }

  function StreamTokens(docs: seq<Document>): seq<Token> {
    [Tok(STREAM_START)] + (DocumentTokens(docs) + [Tok(STREAM_END)])
  }

  /** The tags a document's directives define. */
  function Defined(ds: seq<Directive>): seq<TagDirective> {
    if ds == [] then [] else (if ds[0].Version? then [] else [TagDirective(ds[0].handle, ds[0].prefix)]) + Defined(ds[1..])
  }

  function Table(d: Document): seq<TagDirective> {
    WithDefaults(Defined(d.directives))
  }

  /** One version directive at most, and no handle twice or among those before. */
  predicate DirectivesFit(ds: seq<Directive>, versionSeen: bool, before: seq<TagDirective>) {
    if ds == [] then true
    else match ds[0]
         case Version => !versionSeen && DirectivesFit(ds[1..], true, before)
         case TagIs(handle, prefix) => !HasHandle(before, handle) && DirectivesFit(ds[1..], versionSeen, before + [TagDirective(handle, prefix)])
  }

  /** Only the first document may do without a start indicator; then it has no directives, and a root. */
  predicate DocumentFits(d: Document, first: bool) {
    && DirectivesFit(d.directives, false, [])
    && (d.root.Missing? || Fits(d.root, true, false, Table(d)))
    && (!d.explicit ==> first && d.directives == [] && !d.root.Missing?)
  }

  predicate DocumentsFit(docs: seq<Document>, first: bool) {
    if docs == [] then true else DocumentFits(docs[0], first) && DocumentsFit(docs[1..], false)
  }

  function DocumentEvents(docs: seq<Document>): seq<Event> {
    if docs == [] then [] else [DocumentStart] + (Events(docs[0].root, Table(docs[0])) + ([DocumentEnd] + DocumentEvents(docs[1..])))
  }

  function StreamEvents(docs: seq<Document>): seq<Event> {
    [StreamStart] + (DocumentEvents(docs) + [StreamEnd])
  }

  // ---------- tokens in place ----------

  ghost predicate Laid(ts: seq<Token>, i: nat, toks: seq<Token>) {
    i + |toks| <= |ts| && forall k :: 0 <= k < |toks| ==> Essence(ts[i + k]) == toks[k]
  }

  lemma LaidSplit(ts: seq<Token>, i: nat, a: seq<Token>, b: seq<Token>)
    requires Laid(ts, i, a + b)
    ensures Laid(ts, i, a) && Laid(ts, i + |a|, b)
  {
    forall k | 0 <= k < |a| ensures Essence(ts[i + k]) == a[k] {
      assert (a + b)[k] == a[k];
    }
    forall k | 0 <= k < |b| ensures Essence(ts[i + |a| + k]) == b[k] {
      assert (a + b)[|a| + k] == b[k];
    }
  }

  lemma LaidOne(ts: seq<Token>, i: nat, t: Token)
    requires Laid(ts, i, [t])
    ensures i < |ts| && ts[i].typ == t.typ && Essence(ts[i]) == t
  {
    assert Essence(ts[i + 0]) == [t][0];
  }
}
