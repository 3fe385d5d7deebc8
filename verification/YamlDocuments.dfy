/** From tokens to nodes: what the composer makes of every stream that follows the grammar. */
module YamlDocuments {
  import opened YamlEvents
  import opened YamlTokens
  import opened YamlMachine
  import opened YamlGrammar
  import opened YamlAcceptance
  import opened YamlParsing
  import opened YamlComposing

  // ---------- the nodes of a tree ----------

  /** The node a tree stands for: its kind, its children in order, and of a scalar the text, the tag and whether it is to be resolved. */
  function NodeOf(t: Tree, ds: seq<TagDirective>): Node
    decreases t
  {
    match t
    case Missing => ScalarNode([], [], true)
    case AliasTo(name) => AliasNode(name)
    case Leaf(p, value, plain) => ScalarNode(value, TagText(p, ds), (TagText(p, ds) == [] && plain) || TagText(p, ds) == [0x21])
    case Bare(p) => ScalarNode([], TagText(p, ds), TagText(p, ds) == [])
    case BlockSeq(_, items) => SequenceNode(ItemNodes(items, ds))
    case Indentless(_, items) => SequenceNode(ItemNodes(items, ds))
    case BlockMap(_, entries) => MappingNode(PairNodes(entries, ds))
    case FlowSeq(_, entries, _) => SequenceNode(EntryNodes(entries, ds))
    case FlowMap(_, entries, _) => MappingNode(PairNodes(entries, ds))
  }

  function ItemNodes(items: seq<Tree>, ds: seq<TagDirective>): seq<Node>
    decreases items
  {
    if items == [] then [] else [NodeOf(items[0], ds)] + ItemNodes(items[1..], ds)
  }

  function ValueNode(v: Value, ds: seq<TagDirective>): Node
    decreases v
  {
    match v
    case NoValue => ScalarNode([], [], true)
    case ValueIs(t) => NodeOf(t, ds)
  }

  /** The key and the value of an entry of a mapping. */
  function PairNode(e: Entry, ds: seq<TagDirective>): seq<Node>
    decreases e
  {
    match e
    case Single(t) => [NodeOf(t, ds), ScalarNode([], [], true)]
    case Keyed(k, v) => [NodeOf(k, ds), ValueNode(v, ds)]
  }

  function PairNodes(entries: seq<Entry>, ds: seq<TagDirective>): seq<Node>
    decreases entries
  {
    if entries == [] then [] else PairNode(entries[0], ds) + PairNodes(entries[1..], ds)
  }

  function EntryNode(e: Entry, ds: seq<TagDirective>): Node
    decreases e
  {
    match e
    case Single(t) => NodeOf(t, ds)
    case Keyed(k, v) => MappingNode([NodeOf(k, ds), ValueNode(v, ds)])
  }

  function EntryNodes(entries: seq<Entry>, ds: seq<TagDirective>): seq<Node>
    decreases entries
  {
    if entries == [] then [] else [EntryNode(entries[0], ds)] + EntryNodes(entries[1..], ds)
  }

  function DocumentNodes(docs: seq<Document>): (nodes: seq<Node>)
    ensures |nodes| == |docs|
  {
    if docs == [] then [] else [DocumentNode([NodeOf(docs[0].root, Table(docs[0]))])] + DocumentNodes(docs[1..])
  }

  // ---------- their events ----------

  lemma {:induction false} SerializeConcat(a: seq<Node>, b: seq<Node>)
    ensures SerializeAll(a + b) == SerializeAll(a) + SerializeAll(b)
    decreases |b|
  {
    hide Serialize;
    if b == [] {
      assert a + b == a;
    } else {
      SerializeConcat(a, b[..|b| - 1]);
      assert (a + b)[..|a + b| - 1] == a + b[..|b| - 1];
    }
  }

  lemma SerializeOne(n: Node)
    ensures SerializeAll([n]) == Serialize(n)
  {
    hide Serialize;
    assert [n][..0] == [];
  }

  lemma SerializeTwo(k: Node, v: Node)
    ensures SerializeAll([k, v]) == Serialize(k) + Serialize(v)
  {
    hide Serialize;
    SerializeOne(k);
    assert [k, v][..1] == [k];
  }

  lemma SerializeCons(n: Node, rest: seq<Node>)
    ensures SerializeAll([n] + rest) == Serialize(n) + SerializeAll(rest)
  {
    SerializeConcat([n], rest);
    SerializeOne(n);
  }

  /** Without anchors and flags that nodes do not keep, the events of a tree are those of its node. */
  lemma {:induction false} BareEvents(t: Tree, ds: seq<TagDirective>)
    ensures BareAll(Events(t, ds)) == Serialize(NodeOf(t, ds))
    decreases t
  {
    hide TagText, AnchorText, BareAll, YamlComposing.Bare, SerializeAll, ItemEvents, PairEvents, EntryEvents, ItemNodes, PairNodes, EntryNodes;
    BareLists();
    match t
    case Missing => BareOne(Events(t, ds)[0]);
    case AliasTo(_) => BareOne(Events(t, ds)[0]);
    case Leaf(_, _, _) => BareOne(Events(t, ds)[0]);
    case Bare(_) => BareOne(Events(t, ds)[0]);
    case BlockSeq(_, items) =>
      BareItems(items, ds);
      BareAround(Events(t, ds)[0], ItemEvents(items, ds), SequenceEnd);
    case Indentless(_, items) =>
      BareItems(items, ds);
      BareAround(Events(t, ds)[0], ItemEvents(items, ds), SequenceEnd);
    case BlockMap(_, entries) =>
      BarePairs(entries, ds);
      BareAround(Events(t, ds)[0], PairEvents(entries, ds), MappingEnd);
    case FlowSeq(_, entries, _) =>
      BareEntries(entries, ds);
      BareAround(Events(t, ds)[0], EntryEvents(entries, ds), SequenceEnd);
    case FlowMap(_, entries, _) =>
      BarePairs(entries, ds);
      BareAround(Events(t, ds)[0], PairEvents(entries, ds), MappingEnd);
  }

  lemma BareLists()
    ensures forall anchor, tag, value, implicit, quoted ::
      YamlComposing.Bare(Scalar(anchor, tag, value, implicit, quoted)) == Scalar([], tag, value, implicit, false)
    ensures forall anchor, tag, implicit :: YamlComposing.Bare(SequenceStart(anchor, tag, implicit)) == SequenceStart([], [], false)
    ensures forall anchor, tag, implicit :: YamlComposing.Bare(MappingStart(anchor, tag, implicit)) == MappingStart([], [], false)
    ensures forall name :: YamlComposing.Bare(Alias(name)) == Alias(name)
    ensures YamlComposing.Bare(SequenceEnd) == SequenceEnd && YamlComposing.Bare(MappingEnd) == MappingEnd
    ensures YamlComposing.Bare(DocumentStart) == DocumentStart && YamlComposing.Bare(DocumentEnd) == DocumentEnd
    ensures YamlComposing.Bare(StreamStart) == StreamStart && YamlComposing.Bare(StreamEnd) == StreamEnd
  {
  }

  lemma BareAround(first: Event, middle: seq<Event>, last: Event)
    ensures BareAll([first] + (middle + [last])) == [YamlComposing.Bare(first)] + BareAll(middle) + [YamlComposing.Bare(last)]
  {
    hide YamlComposing.Bare;
    BareConcat([first], middle + [last]);
    BareConcat(middle, [last]);
    BareOne(first);
    BareOne(last);
  }

  lemma {:induction false} BareItems(items: seq<Tree>, ds: seq<TagDirective>)
    ensures BareAll(ItemEvents(items, ds)) == SerializeAll(ItemNodes(items, ds))
    decreases items
  {
    hide Events, NodeOf, YamlComposing.Bare, Serialize;
    if items != [] {
      BareEvents(items[0], ds);
      BareItems(items[1..], ds);
      BareConcat(Events(items[0], ds), ItemEvents(items[1..], ds));
      SerializeCons(NodeOf(items[0], ds), ItemNodes(items[1..], ds));
    }
  }

  lemma {:induction false} BareValue(v: Value, ds: seq<TagDirective>)
    ensures BareAll(ValueEvents(v, ds)) == Serialize(ValueNode(v, ds))
    decreases v
  {
    match v
    case NoValue => BareOne(Scalar([], [], [], true, false));
    case ValueIs(t) => BareEvents(t, ds);
  }

  lemma {:induction false} BarePair(e: Entry, ds: seq<TagDirective>)
    ensures BareAll(PairEvent(e, ds)) == SerializeAll(PairNode(e, ds))
    decreases e, 0
  {
    hide Events, NodeOf, BareAll, SerializeAll;
    match e
    case Single(t) =>
      BareEvents(t, ds);
      BareOne(Scalar([], [], [], true, false));
      BareConcat(Events(t, ds), [Scalar([], [], [], true, false)]);
      SerializeTwo(NodeOf(t, ds), ScalarNode([], [], true));
    case Keyed(k, v) =>
      BareEvents(k, ds);
      BareValue(v, ds);
      BareConcat(Events(k, ds), ValueEvents(v, ds));
      SerializeTwo(NodeOf(k, ds), ValueNode(v, ds));
  }

  lemma {:induction false} BarePairs(entries: seq<Entry>, ds: seq<TagDirective>)
    ensures BareAll(PairEvents(entries, ds)) == SerializeAll(PairNodes(entries, ds))
    decreases entries
  {
    hide PairEvent, PairNode, YamlComposing.Bare, Serialize;
    if entries != [] {
      BarePair(entries[0], ds);
      BarePairs(entries[1..], ds);
      BareConcat(PairEvent(entries[0], ds), PairEvents(entries[1..], ds));
      SerializeConcat(PairNode(entries[0], ds), PairNodes(entries[1..], ds));
    }
  }

  lemma {:induction false} BareEntry(e: Entry, ds: seq<TagDirective>)
    ensures BareAll(EntryEvent(e, ds)) == Serialize(EntryNode(e, ds))
    decreases e, 1
  {
    hide Events, NodeOf, BareAll, SerializeAll, YamlComposing.Bare;
    match e
    case Single(t) => BareEvents(t, ds);
    case Keyed(k, v) =>
      BareLists();
      BarePair(e, ds);
      Attached(Events(k, ds), ValueEvents(v, ds), [MappingEnd]);
      BareAround(MappingStart([], [], true), Events(k, ds) + ValueEvents(v, ds), MappingEnd);
  }

  lemma {:induction false} BareEntries(entries: seq<Entry>, ds: seq<TagDirective>)
    ensures BareAll(EntryEvents(entries, ds)) == SerializeAll(EntryNodes(entries, ds))
    decreases entries
  {
    hide EntryEvent, EntryNode, YamlComposing.Bare, Serialize;
    if entries != [] {
      BareEntry(entries[0], ds);
      BareEntries(entries[1..], ds);
      BareConcat(EntryEvent(entries[0], ds), EntryEvents(entries[1..], ds));
      SerializeCons(EntryNode(entries[0], ds), EntryNodes(entries[1..], ds));
    }
  }

  lemma {:induction false} BareDocuments(docs: seq<Document>)
    ensures BareAll(DocumentEvents(docs)) == SerializeAll(DocumentNodes(docs))
    decreases |docs|
  {
    hide Events, NodeOf, Table, YamlComposing.Bare;
    if docs != [] {
      var t, ds, n := docs[0].root, Table(docs[0]), NodeOf(docs[0].root, Table(docs[0]));
      BareLists();
      BareEvents(t, ds);
      BareDocuments(docs[1..]);
      SerializeOne(n);
      BareAround(DocumentStart, Events(t, ds), DocumentEnd);
      Chained([DocumentStart], Events(t, ds), [DocumentEnd], DocumentEvents(docs[1..]));
      BareConcat([DocumentStart] + (Events(t, ds) + [DocumentEnd]), DocumentEvents(docs[1..]));
      SerializeCons(DocumentNode([n]), DocumentNodes(docs[1..]));
    }
  }

  // ---------- events determine nodes ----------

  predicate Closes(e: Event) {
    e.SequenceEnd? || e.MappingEnd? || e.DocumentEnd? || e.StreamEnd?
  }

  /** A node's events begin with no end, and end with it. */
  lemma {:induction false} OneNode(a: Node, x: seq<Event>, b: Node, y: seq<Event>)
    requires Serialize(a) + x == Serialize(b) + y
    ensures a == b && x == y
    decreases a, 1
  {
    hide SerializeAll;
    FirstEvent(a);
    FirstEvent(b);
    assert (Serialize(a) + x)[0] == Serialize(a)[0] && (Serialize(b) + y)[0] == Serialize(b)[0];
    match a
    case DocumentNode(cs) => Inside(Serialize(a)[0], cs, DocumentEnd, x, b.children, y);
    case MappingNode(cs) => Inside(Serialize(a)[0], cs, MappingEnd, x, b.children, y);
    case SequenceNode(cs) => Inside(Serialize(a)[0], cs, SequenceEnd, x, b.children, y);
    case ScalarNode(_, _, _) => Behind1(Serialize(a)[0], x, y);
    case AliasNode(_) => Behind1(Serialize(a)[0], x, y);
  }

  lemma FirstEvent(n: Node)
    ensures Serialize(n) != [] && !Closes(Serialize(n)[0])
  {
  }

  lemma Behind1(e: Event, x: seq<Event>, y: seq<Event>)
    requires [e] + x == [e] + y
    ensures x == y
  {
    assert x == ([e] + x)[1..] && y == ([e] + y)[1..];
  }

  /** Between a start and its end there is one list of children. */
  lemma {:induction false} Inside(first: Event, a: seq<Node>, last: Event, x: seq<Event>, b: seq<Node>, y: seq<Event>)
    requires ([first] + SerializeAll(a) + [last]) + x == ([first] + SerializeAll(b) + [last]) + y && Closes(last)
    ensures a == b && x == y
    decreases a, 3
  {
    hide SerializeAll;
    assert ([first] + SerializeAll(a) + [last]) + x == [first] + (SerializeAll(a) + ([last] + x));
    assert ([first] + SerializeAll(b) + [last]) + y == [first] + (SerializeAll(b) + ([last] + y));
    Behind1(first, SerializeAll(a) + ([last] + x), SerializeAll(b) + ([last] + y));
    SameNodes(a, [last] + x, b, [last] + y);
    Behind1(last, x, y);
  }

  /** Lists of nodes, each followed by an end. */
  lemma {:induction false} SameNodes(a: seq<Node>, x: seq<Event>, b: seq<Node>, y: seq<Event>)
    requires SerializeAll(a) + x == SerializeAll(b) + y && x != [] && y != [] && Closes(x[0]) && Closes(y[0])
    ensures a == b && x == y
    decreases a, 2
  {
    hide SerializeAll, Serialize;
    NoChildren();
    Fronted(a, x);
    Fronted(b, y);
    if a != [] && b != [] {
      OneNode(a[0], SerializeAll(a[1..]) + x, b[0], SerializeAll(b[1..]) + y);
      SameNodes(a[1..], x, b[1..], y);
      assert a == [a[0]] + a[1..] && b == [b[0]] + b[1..];
    }
  }

  lemma Fronted(a: seq<Node>, x: seq<Event>)
    ensures a == [] ==> SerializeAll(a) + x == x
    ensures a != [] ==> SerializeAll(a) + x == Serialize(a[0]) + (SerializeAll(a[1..]) + x) && SerializeAll(a) + x != []
    ensures a != [] ==> !Closes((SerializeAll(a) + x)[0])
  {
    hide Serialize, SerializeAll;
    NoChildren();
    if a == [] {
      assert [] + x == x;
    } else {
      SerializeCons(a[0], a[1..]);
      assert [a[0]] + a[1..] == a;
      FirstEvent(a[0]);
    }
  }

  /** Nodes whose events come first are the first nodes. */
  lemma {:induction false} FirstNodes(a: seq<Node>, x: seq<Event>, b: seq<Node>, y: seq<Event>)
    requires SerializeAll(a) + x == SerializeAll(b) + y && y != [] && Closes(y[0])
    ensures |a| <= |b| && a == b[..|a|]
    decreases |a|
  {
    hide SerializeAll, Serialize;
    NoChildren();
    Fronted(a, x);
    Fronted(b, y);
    if a != [] && b != [] {
      OneNode(a[0], SerializeAll(a[1..]) + x, b[0], SerializeAll(b[1..]) + y);
      FirstNodes(a[1..], x, b[1..], y);
      assert a == [a[0]] + a[1..] && b[..|a|] == [b[0]] + b[1..][..|a| - 1];
    }
  }

  // ---------- composing a stream ----------

  /** Every alias refers to a node of its document that has begun before it. */
  ghost predicate Referable(events: seq<Event>) {
    forall i :: 0 <= i < |events| && events[i].Alias? ==> events[i].anchor in NamesIn(events[..i])
  }

  /** The tokens are those of these documents. */
  ghost predicate Follows(ts: seq<Token>, docs: seq<Document>) {
    Laid(ts, 0, StreamTokens(docs)) && DocumentsFit(docs, true)
  }

  /** Over such tokens the parser has emitted the first of the stream's events, and never stops. */
  lemma Emitted(p: Parser, docs: seq<Document>)
    requires Follows(p.tokens, docs)
    ensures !p.Stopped()
    ensures p.Sound() ==> |p.emitted| <= |StreamEvents(docs)| && p.emitted == StreamEvents(docs)[..|p.emitted|]
  {
    hide Next, Laid, Goes, StreamTokens, StreamEvents, DocumentsFit, Parser.Good, Run, AllTexts;
    var end := Machine(|StreamTokens(docs)|, ParseEnd, [], []);
    StreamRuns(p.tokens, docs);
    forall m | Goes(p.tokens, START, p.emitted, m) && !m.state.ParseEnd? ensures Next(p.tokens, m).Some? {
      NeverStuck(p.tokens, START, p.emitted, m, StreamEvents(docs), end);
    }
    if p.Sound() {
      NeverStuck(p.tokens, START, p.emitted, p.M(), StreamEvents(docs), end);
      GoesOneWay(p.tokens, START, p.emitted, p.M(), StreamEvents(docs), end);
    }
  }

  lemma BareStream(docs: seq<Document>)
    ensures BareAll(StreamEvents(docs)) == [StreamStart] + SerializeAll(DocumentNodes(docs)) + [StreamEnd]
  {
    hide DocumentEvents, DocumentNodes, YamlComposing.Bare;
    BareLists();
    BareDocuments(docs);
    BareAround(StreamStart, DocumentEvents(docs), StreamEnd);
  }

  /** The nodes made of the first of the stream's events are the first documents; at the stream's end they are all of them. */
  lemma MadeOf(docs: seq<Document>, n: nat, nodes: seq<Node>)
    requires n <= |StreamEvents(docs)| && BareAll(StreamEvents(docs)[..n]) == [StreamStart] + SerializeAll(nodes)
    ensures |nodes| <= |DocumentNodes(docs)| && nodes == DocumentNodes(docs)[..|nodes|]
    ensures n < |StreamEvents(docs)| && StreamEvents(docs)[n] == StreamEnd ==> nodes == DocumentNodes(docs)
  {
    hide StreamEvents, DocumentNodes, BareAll, SerializeAll;
    var all := StreamEvents(docs);
    var rest := BareAll(all[n..]);
    BareStream(docs);
    BareConcat(all[..n], all[n..]);
    assert all[..n] + all[n..] == all;
    Attached([StreamStart], SerializeAll(nodes), rest);
    Attached([StreamStart], SerializeAll(DocumentNodes(docs)), [StreamEnd]);
    Behind1(StreamStart, SerializeAll(nodes) + rest, SerializeAll(DocumentNodes(docs)) + [StreamEnd]);
    FirstNodes(nodes, rest, DocumentNodes(docs), [StreamEnd]);
    if n < |all| && all[n] == StreamEnd {
      BareConcat([all[n]], all[n + 1..]);
      BareOne(StreamEnd);
      BareLists();
      assert all[n..] == [all[n]] + all[n + 1..];
      SameNodes(nodes, rest, DocumentNodes(docs), [StreamEnd]);
    }
  }

  /** Calls of parse between two documents leave this much behind. */
  ghost predicate Between(c: Composer, docs: seq<Document>, nodes: seq<Node>)
    reads c, c.parser
  {
    && Follows(c.parser.tokens, docs) && c.Named() && |nodes| <= |docs| && nodes == DocumentNodes(docs)[..|nodes|]
    && if c.doneInit then c.Valid() && c.At() == In([]) && BareAll(c.consumed) == [StreamStart] + SerializeAll(nodes)
       else c.Fresh() && nodes == []
  }

  /** Where composing has got to in the stream's events, the one held included. */
  lemma Reached(c: Composer, docs: seq<Document>)
    requires Follows(c.parser.tokens, docs) && c.Valid()
    ensures var n := |c.consumed|;
      && n <= |StreamEvents(docs)| && c.consumed == StreamEvents(docs)[..n]
      && (c.event.Some? ==> n < |StreamEvents(docs)| && c.event.value == StreamEvents(docs)[n])
  {
    hide StreamEvents, Step, Run, Parser.Sound, Follows;
    Emitted(c.parser, docs);
    assert c.event.Some? ==> c.consumed == c.parser.emitted[..|c.consumed|];
  }

  lemma BaredStart()
    ensures BareAll([StreamStart]) == [StreamStart] && BareAll([]) == [] && SerializeAll([]) == []
  {
    BareOne(StreamStart);
    BareLists();
  }

  /** An alias held, with no anchor of its name in force, is one that refers to nothing. */
  lemma Unreferable(c: Composer, docs: seq<Document>)
    requires Follows(c.parser.tokens, docs) && c.Stuck() && c.Named()
    ensures !Referable(StreamEvents(docs))
  {
    hide StreamEvents, Follows, NamesIn, Step, Run;
    Reached(c, docs);
    var n := |c.consumed|;
    assert StreamEvents(docs)[n].Alias? && StreamEvents(docs)[n].anchor !in NamesIn(StreamEvents(docs)[..n]);
  }

  /** A call where all documents before have been composed: the next one, the end, or an alias that refers to nothing. */
  method Compose(c: Composer, ghost docs: seq<Document>, ghost nodes: seq<Node>) returns (r: Composed)
    requires Between(c, docs, nodes)
    modifies c, c.parser
    ensures !r.UnknownEvent? && (r.Failed? ==> !Referable(StreamEvents(docs)))
    ensures r.NoMore? ==> nodes == DocumentNodes(docs)
    ensures r.Made? ==> |nodes| < |docs| && r.node == DocumentNodes(docs)[|nodes|] && Between(c, docs, nodes + [r.node])
  {
    hide StreamEvents, DocumentNodes, BareAll, SerializeAll, Follows, Referable, NamesIn, Step, Run, Serialize, Parser.Sound, Parser.Stopped, WellFormed;
    BaredStart();
    Emitted(c.parser, docs);
    ghost var before := c.consumed;
    r := c.Parse();
    Emitted(c.parser, docs);
    if r.Failed? {
      Unreferable(c, docs);
    } else if r.NoMore? {
      Reached(c, docs);
      MadeOf(docs, |c.consumed|, nodes);
    } else {
      Reached(c, docs);
      SerializeNext(nodes, r.node);
      MadeOf(docs, |c.consumed|, nodes + [r.node]);
    }
  }

  /**
   * From tokens to nodes: over every stream that follows the grammar, composing gives the nodes of its documents, one
   * a call, and then no more. It fails only if an alias refers to nothing, and then behind the documents before.
   */
  method ComposeStream(tokens: seq<Token>, ghost docs: seq<Document>) returns (nodes: seq<Node>, failed: bool)
    requires Follows(tokens, docs)
    ensures |nodes| <= |docs| && nodes == DocumentNodes(docs)[..|nodes|]
    ensures Referable(StreamEvents(docs)) ==> !failed
    ensures !failed ==> nodes == DocumentNodes(docs)
  {
    hide StreamEvents, DocumentNodes, Between, Follows, Referable, Composer.Valid, Composer.Fresh, Composer.Named, Parser.Sound;
    var p := new Parser(tokens);
    var c := new Composer(p);
    nodes, failed := [], false;
    Ready(c, docs);
    while true
      invariant Between(c, docs, nodes) && |nodes| <= |docs| && nodes == DocumentNodes(docs)[..|nodes|] && fresh(c) && fresh(c.parser)
      decreases |docs| - |nodes|
    {
      var r := Compose(c, docs, nodes);
      if !r.Made? {
        failed := !r.NoMore?;
        return;
      }
      nodes := nodes + [r.node];
    }
  }

  lemma Ready(c: Composer, docs: seq<Document>)
    requires Follows(c.parser.tokens, docs) && c.Fresh() && c.Named()
    ensures Between(c, docs, [])
  {
    hide Follows;
  }
}
