/** The composer: nodes from the parser's events, by recursion. */
module YamlComposing {
  import opened Keys
  import opened Options
  import opened YamlEvents
  import opened YamlTokens
  import opened YamlMachine
  import opened YamlParsing

  /** A node as the decoder gets it; a mapping's children are its keys and values in turn. */
  datatype Node =
    | DocumentNode(children: seq<Node>)
    | MappingNode(children: seq<Node>)
    | SequenceNode(children: seq<Node>)
    | ScalarNode(value: Bytes, tag: Bytes, implicit: bool)
    | AliasNode(name: Bytes)

  /** How parse ends: a node, nothing at the end of the stream, an error, or the panic over an event it does not know. */
  datatype Composed = Made(node: Node) | NoMore | Failed | UnknownEvent

  /** What peek finds: an event, none although the parser reports no error, or the parser's error. */
  datatype Glance = Seen | NoEvent | Broke

  /** What a node keeps of an event. */
  function Bare(e: Event): Event {
    match e
    case Scalar(_, tag, value, implicit, _) => Scalar([], tag, value, implicit, false)
    case SequenceStart(_, _, _) => SequenceStart([], [], false)
    case MappingStart(_, _, _) => MappingStart([], [], false)
    case _ => e
  }

  function BareAll(events: seq<Event>): seq<Event> {
    if events == [] then [] else BareAll(events[..|events| - 1]) + [Bare(events[|events| - 1])]
  }

  lemma {:induction false} BareConcat(a: seq<Event>, b: seq<Event>)
    ensures BareAll(a + b) == BareAll(a) + BareAll(b)
    decreases |b|
  {
    if b == [] {
      assert a + b == a;
    } else {
      BareConcat(a, b[..|b| - 1]);
      assert (a + b)[..|a + b| - 1] == a + b[..|b| - 1];
    }
  }

  /** The events a node stands for. */
  ghost function Serialize(n: Node): seq<Event>
    decreases n
  {
    match n
    case DocumentNode(children) => [DocumentStart] + SerializeAll(children) + [DocumentEnd]
    case MappingNode(children) => [MappingStart([], [], false)] + SerializeAll(children) + [MappingEnd]
    case SequenceNode(children) => [SequenceStart([], [], false)] + SerializeAll(children) + [SequenceEnd]
    case ScalarNode(value, tag, implicit) => [Scalar([], tag, value, implicit, false)]
    case AliasNode(name) => [Alias(name)]
  }

  ghost function SerializeAll(children: seq<Node>): seq<Event>
    decreases children
  {
    if children == [] then [] else SerializeAll(children[..|children| - 1]) + Serialize(children[|children| - 1])
  }

  lemma NoChildren()
    ensures SerializeAll([]) == []
  {
  }

  lemma SerializeNext(children: seq<Node>, n: Node)
    ensures SerializeAll(children + [n]) == SerializeAll(children) + Serialize(n)
  {
    assert (children + [n])[..|children|] == children;
  }

  /** Mappings have as many values as keys, documents exactly one child that is not a document. */
  ghost predicate WellFormed(n: Node)
    decreases n
  {
    match n
    case DocumentNode(children) => |children| == 1 && !children[0].DocumentNode? && WellFormed(children[0])
    case MappingNode(children) => |children| % 2 == 0 && forall i :: 0 <= i < |children| ==> !children[i].DocumentNode? && WellFormed(children[i])
    case SequenceNode(children) => forall i :: 0 <= i < |children| ==> !children[i].DocumentNode? && WellFormed(children[i])
    case _ => true
  }

  /** The names that may be referred to behind an event: those of the document's nodes so far. */
  function Noted(names: set<Bytes>, e: Event): set<Bytes> {
    if e.DocumentStart? then {}
    else if (e.Scalar? || e.SequenceStart? || e.MappingStart?) && e.anchor != [] then names + {e.anchor}
    else names
  }

  function NamesIn(events: seq<Event>): set<Bytes> {
    if events == [] then {} else Noted(NamesIn(events[..|events| - 1]), events[|events| - 1])
  }

  lemma NamesNext(events: seq<Event>, e: Event)
    ensures NamesIn(events + [e]) == Noted(NamesIn(events), e)
  {
    assert (events + [e])[..|events|] == events;
  }

  predicate SameType(a: Event, b: Event) {
    match a
    case StreamStart => b.StreamStart?
    case StreamEnd => b.StreamEnd?
    case DocumentStart => b.DocumentStart?
    case DocumentEnd => b.DocumentEnd?
    case Alias(_) => b.Alias?
    case Scalar(_, _, _, _, _) => b.Scalar?
    case SequenceStart(_, _, _) => b.SequenceStart?
    case SequenceEnd => b.SequenceEnd?
    case MappingStart(_, _, _) => b.MappingStart?
    case MappingEnd => b.MappingEnd?
  }

  /** What is left of a stream: tokens, then events that need no token, then the event looked at. */
  type Measure = (nat, nat, nat)

  ghost predicate Smaller(a: Measure, b: Measure) {
    a.0 < b.0 || (a.0 == b.0 && (a.1 < b.1 || (a.1 == b.1 && a.2 < b.2)))
  }

  class Composer {
    const parser: Parser
    var event: Opt<Event>
    var doneInit: bool
    var anchors: set<Bytes>
    ghost var consumed: seq<Event>

    constructor (p: Parser)
      requires p.Sound() && !p.failed && p.emitted == [] && p.state.ParseStreamStart? && p.pos == 0
      ensures parser == p && Fresh() && Named()
    {
      parser, event, doneInit, anchors, consumed := p, None, false, {}, [];
    }

    /** The events the composer has taken are those the parser has emitted, but for the one it looks at. */
    ghost predicate Valid()
      reads this`event, this`doneInit, this`consumed, parser
    {
      && parser.Sound() && !parser.failed
      && parser.emitted == consumed + (if event.Some? then [event.value] else [])
      && Run(consumed).Some? && At() != After
      && (doneInit ==> consumed != [])
      && (event.Some? ==> Step(At(), event.value).Some?)
    }

    /** Nothing has been asked of the parser yet. */
    ghost predicate Fresh()
      reads this, parser
    {
      Valid() && !doneInit && consumed == [] && event.None? && parser.state.ParseStreamStart? && parser.pos == 0
    }

    /** The parser has failed, and no event is held: it answers every further request with no event and no error. */
    ghost predicate Broken()
      reads this`event, parser
    {
      parser.failed && event.None? && parser.Stopped()
    }

    /** An alias without an anchor is held; it stays where it is. */
    ghost predicate Stuck()
      reads this, parser
    {
      AtNode() && event.value.Alias? && event.value.anchor !in anchors
    }

    /** Behind an error in a document, or between documents. */
    ghost predicate Halted()
      reads this, parser
    {
      doneInit && (Broken() || Stuck())
    }

    /** Every state a call of parse can begin in. */
    ghost predicate Usable()
      reads this, parser
    {
      Fresh() || Halted() || (!doneInit && Broken()) || (Valid() && doneInit && At() == In([]))
    }

    /** The anchors are those of the nodes of this document that have been taken. */
    ghost predicate Named()
      reads this`anchors, this`consumed
    {
      anchors == NamesIn(consumed)
    }

    ghost function At(): Nest
      reads this`consumed
    {
      if Run(consumed).Some? then Run(consumed).value else After
    }

    ghost function Left(): Measure
      reads this`event, parser
    {
      (if parser.pos <= |parser.tokens| then |parser.tokens| - parser.pos else 0, parser.Weight(), if event.Some? then 1 else 0)
    }

    /** Without an event held the parser is where composing is. */
    lemma Sound()
      ensures Valid() ==> parser.Sound() && !parser.failed && Run(parser.emitted) == Some(parser.Place())
    {
      if Valid() {
        parser.SoundPlace();
      }
    }

    /** peek: look at the next event, asking the parser for it if none is held. */
    method Peek() returns (g: Glance)
      requires Valid() || Broken()
      modifies this`event, parser
      ensures g.NoEvent? <==> old(Broken())
      ensures old(Broken()) || g.Broke? ==> Broken()
      ensures g.Broke? ==> old(event).None?
      ensures g.Seen? ==> old(Valid()) && Valid() && event.Some? && Step(At(), event.value).Some?
      ensures g.Seen? && old(event).None? ==> old(parser.pos) < |parser.tokens|
      ensures old(Fresh()) ==> (g.Seen? <==> |parser.tokens| > 0 && parser.tokens[0].typ == STREAM_START)
      ensures old(Fresh()) && g.Seen? ==> parser.pos == 1
      ensures old(event).Some? ==> g.Seen? && unchanged(this) && unchanged(parser)
      ensures g.Seen? ==> if old(event.Some?) then event == old(event) && parser.pos == old(parser.pos) && Left() == old(Left())
        else Left().2 == 1 && (Left().0 < old(Left()).0 || (Left().0 == old(Left()).0 && Left().1 < old(Left()).1))
    {
      hide Step, Run, Parser.Good, Parser.Place, Parser.Weight, Parser.Sound, Parser.Stopped, Parser.M, Carried, Announced, Next;
      if event.Some? {
        return Seen;
      }
      Sound();
      assert consumed + [] == consumed;
      ghost var place := parser.Place();
      var r := parser.Parse();
      match r
      case Error => return Broke;
      case Nothing => return NoEvent;
      case Got(e) =>
        event := Some(e);
        return Seen;
    }

    /** The event to be expected is the only type of event that may come. */
    ghost predicate Only(e: Event)
      reads this
    {
      forall next :: Step(At(), next).Some? ==> SameType(e, next) && !next.StreamEnd?
    }

    /** The event held is taken. */
    method Take()
      requires Valid() && event.Some? && !event.value.StreamEnd?
      modifies this`event, this`consumed
      ensures Valid() && event.None? && consumed == old(consumed) + [old(event).value]
      ensures Step(old(At()), old(event).value) == Some(At()) && Smaller(Left(), old(Left()))
    {
      hide Step, Parser.Good, Parser.Place;
      RunNext(consumed, event.value);
      StaysOpen(At(), event.value);
      consumed := consumed + [event.value];
      assert consumed + [] == consumed;
      event := None;
    }

    /** expect: take the next event, which must be of this type. */
    method Expect(e: Event) returns (ok: bool, ghost taken: Event)
      requires Valid() || Broken()
      modifies this`event, this`consumed, parser
      ensures ok ==> Valid() && event.None? && consumed == old(consumed) + [taken]
      ensures ok ==> SameType(e, taken) && Step(old(At()), taken) == Some(At()) && Smaller(Left(), old(Left()))
      ensures ok && old(event.Some?) ==> old(event).value == taken
      ensures !ok ==> consumed == old(consumed) && (old(event).Some? ==> unchanged(this) && unchanged(parser))
      ensures !ok ==> Broken() || (Valid() && event.Some? && (event.value.StreamEnd? || !SameType(e, event.value)))
      ensures old(Broken()) ==> !ok && Broken()
      ensures old(Valid() && event.Some? && !event.value.StreamEnd? && SameType(e, event.value)) ==> ok
      ensures old(Valid() && Only(e)) && !ok ==> Broken()
      ensures old(Fresh() && Only(e)) ==> (ok <==> |parser.tokens| > 0 && parser.tokens[0].typ == STREAM_START)
      ensures old(Fresh()) && ok ==> parser.pos == 1
    {
      hide Step, Run, Valid, At, Left, SameType, Parser.Good, Parser.Place, Parser.Weight;
      taken := e;
      var g := Peek();
      if !g.Seen? { return false, taken; }
      if event.value.StreamEnd? || !SameType(e, event.value) {
        return false, taken;
      }
      taken := event.value;
      Take();
      return true, taken;
    }

    /** A node is next. */
    ghost predicate AtNode()
      reads this, parser
    {
      && Valid() && doneInit && At().In? && At().frames != []
      && event.Some? && IsNode(event.value) && Step(At(), event.value).Some?
    }

    /** A node was composed from exactly the events taken, and fills its place; or composing stopped at an error. */
    twostate predicate NodeMade(new r: Composed)
      reads this, parser
    {
      && !r.NoMore? && !r.UnknownEvent? && (r.Failed? ==> Halted() && (old(Named()) ==> Named() || Broken()))
      && (r.Made? ==>
        && (old(Named()) ==> Named())
        && Valid() && doneInit && event.None? && WellFormed(r.node) && !r.node.DocumentNode?
        && BareAll(consumed) == BareAll(old(consumed)) + Serialize(r.node)
        && FillNest(old(At())) == Some(At()) && Smaller(Left(), old(Left())))
    }

    /** Take the event of a node; if it has an anchor, the node may be referred to from here on. */
    method TakeNode(anchor: Bytes) returns (ok: bool)
      requires AtNode()
      modifies this`event, this`consumed, this`anchors, parser
      ensures ok && Valid() && event.None? && consumed == old(consumed) + [old(event).value]
      ensures Step(old(At()), old(event).value) == Some(At()) && Smaller(Left(), old(Left()))
      ensures old(Named()) && !old(event).value.Alias? && anchor == old(event).value.anchor ==> Named()
    {
      hide Valid, Left, At, Run, Step;
      NamesNext(consumed, event.value);
      if |anchor| > 0 {
        anchors := anchors + {anchor};
      }
      ghost var taken;
      ok, taken := Expect(event.value);
    }

    /** scalar */
    method ComposeScalar() returns (r: Composed)
      requires AtNode() && event.value.Scalar?
      modifies this, parser
      ensures NodeMade(r)
    {
      hide Step, Fill, Run, Valid, At, Left;
      var e := event.value;
      BareOne(e);
      var ok := TakeNode(e.anchor);
      if !ok { return Failed; }
      NodeFills(old(At()), e);
      BareConcat(old(consumed), [e]);
      return Made(ScalarNode(e.value, e.tag, e.implicit));
    }

    /** alias: the name must have been anchored in this document. */
    method ComposeAlias() returns (r: Composed)
      requires AtNode() && event.value.Alias?
      modifies this, parser
      ensures NodeMade(r)
      ensures r.Failed? <==> old(event.value.anchor) !in old(anchors)
      ensures r.Failed? ==> unchanged(this) && unchanged(parser)
    {
      hide Step, Fill, Run, Valid, At, Left;
      var e := event.value;
      if e.anchor !in anchors {
        return Failed;
      }
      NamesNext(consumed, e);
      BareOne(e);
      var ok, taken := Expect(e);
      if !ok { return Failed; }
      NodeFills(old(At()), e);
      BareConcat(old(consumed), [e]);
      return Made(AliasNode(e.anchor));
    }

    /** Only a node can be next, or one has been seen to be. */
    ghost predicate NodeDue()
      reads this, parser
    {
      && Valid() && doneInit && At().In? && At().frames != []
      && (At().frames[0] == Map(false) || At().frames[0] == Doc(false) || (event.Some? && IsNode(event.value)))
    }

    /** parse, where a node is due: no other event can come up. */
    method ParseNode() returns (r: Composed)
      requires NodeDue()
      modifies this, parser
      ensures NodeMade(r)
      decreases Left().0, Left().1, Left().2, 2
    {
      hide Run, Valid, At, Left, Fill, Step, Serialize, WellFormed, Parser.Good, Parser.Place, Parser.Weight;
      var g := Peek();
      if !g.Seen? { return Failed; }
      NodeComes(At(), event.value);
      match event.value
      case Scalar(_, _, _, _, _) => r := ComposeScalar();
      case Alias(_) => r := ComposeAlias();
      case MappingStart(_, _, _) => r := ComposeMapping();
      case SequenceStart(_, _, _) => r := ComposeSequence();
    }

    /** sequence: its children up to the end. */
    method ComposeSequence() returns (r: Composed)
      requires AtNode() && event.value.SequenceStart?
      modifies this, parser
      ensures NodeMade(r)
      decreases Left().0, Left().1, Left().2, 1
    {
      hide Step, Fill, Run, Valid, At, Left, BareAll, SerializeAll, NamesIn;
      ghost var start, rest := consumed, FillNest(At());
      BareOne(event.value);
      NodeFills(At(), event.value);
      var ok := TakeNode(event.value.anchor);
      if !ok { return Failed; }
      BareConcat(start, [old(event).value]);
      var children;
      ok, children := SequenceChildren(rest.value.frames);
      if !ok { return Failed; }
      ghost var body, taken := consumed, SequenceEnd;
      NamesNext(body, SequenceEnd);
      BareOne(SequenceEnd);
      InCollection(Seq, rest.value.frames, SequenceEnd);
      ok, taken := Expect(SequenceEnd);
      if !ok { return Failed; }
      BareConcat(body, [taken]);
      Wrapped(BareAll(start), SequenceStart([], [], false), SerializeAll(children), SequenceEnd);
      return Made(SequenceNode(children));
    }

    /** The next child, or the end of the collection. */
    method NextChild(ghost rest: seq<Frame>) returns (ok: bool, child: Opt<Node>)
      requires Valid() && doneInit && At() == In([Seq] + rest) && event.None?
      modifies this, parser
      ensures if ok then Valid() && doneInit && At() == old(At()) && Smaller(Left(), old(Left())) else Halted()
      ensures ok && child.None? ==> event == Some(SequenceEnd) && Step(At(), SequenceEnd).Some? && consumed == old(consumed)
      ensures ok && child.Some? ==> event.None? && Parts([child.value]) && BareAll(consumed) == BareAll(old(consumed)) + Serialize(child.value)
      ensures old(Named()) ==> Named() || (!ok && Broken())
      decreases Left().0, Left().1, Left().2, 4
    {
      hide Step, Fill, Run, Valid, At, Left;
      child := None;
      ok := false;
      var g := Peek();
      if !g.Seen? { return; }
      ok := true;
      InCollection(Seq, rest, event.value);
      if event.value.SequenceEnd? { return; }
      FillSame(rest);
      var r := ParseNode();
      if r.Failed? { ok := false; return; }
      child := Some(r.node);
    }

    method SequenceChildren(ghost rest: seq<Frame>) returns (ok: bool, children: seq<Node>)
      requires Valid() && doneInit && At() == In([Seq] + rest) && event.None?
      modifies this, parser
      ensures !ok ==> Halted()
      ensures ok ==>
        && Valid() && doneInit && At() == old(At()) && event == Some(SequenceEnd) && Step(At(), SequenceEnd).Some?
        && BareAll(consumed) == BareAll(old(consumed)) + SerializeAll(children)
        && Parts(children) && Smaller(Left(), old(Left()))
      ensures old(Named()) ==> Named() || (!ok && Broken())
      decreases Left().0, Left().1, Left().2, 5
    {
      hide Step, Fill, Run, Valid, At, Left, WellFormed;
      children := [];
      while true
        invariant Valid() && doneInit && At() == old(At())
        invariant BareAll(consumed) == BareAll(old(consumed)) + SerializeAll(children)
        invariant Parts(children) && (Left() == old(Left()) || Smaller(Left(), old(Left())))
        invariant old(Named()) ==> Named()
        invariant event.None?
        decreases Left().0, Left().1, Left().2
      {
        var child;
        ok, child := NextChild(rest);
        if !ok || child.None? { return; }
        SerializeNext(children, child.value);
        children := children + [child.value];
      }
    }

    /** mapping: keys and values in turn up to the end. */
    method ComposeMapping() returns (r: Composed)
      requires AtNode() && event.value.MappingStart?
      modifies this, parser
      ensures NodeMade(r)
      decreases Left().0, Left().1, Left().2, 1
    {
      hide Step, Fill, Run, Valid, At, Left, BareAll, SerializeAll, NamesIn;
      ghost var start, rest := consumed, FillNest(At());
      BareOne(event.value);
      NodeFills(At(), event.value);
      var ok := TakeNode(event.value.anchor);
      if !ok { return Failed; }
      BareConcat(start, [old(event).value]);
      var children;
      ok, children := MappingChildren(rest.value.frames);
      if !ok { return Failed; }
      ghost var body, taken := consumed, MappingEnd;
      NamesNext(body, MappingEnd);
      BareOne(MappingEnd);
      InCollection(Map(true), rest.value.frames, MappingEnd);
      ok, taken := Expect(MappingEnd);
      if !ok { return Failed; }
      BareConcat(body, [taken]);
      Wrapped(BareAll(start), MappingStart([], [], false), SerializeAll(children), MappingEnd);
      return Made(MappingNode(children));
    }

    /** The next key and value, or the end of the collection. */
    method NextPair(ghost rest: seq<Frame>) returns (ok: bool, child: Opt<(Node, Node)>)
      requires Valid() && doneInit && At() == In([Map(true)] + rest) && event.None?
      modifies this, parser
      ensures if ok then Valid() && doneInit && At() == old(At()) && Smaller(Left(), old(Left())) else Halted()
      ensures ok && child.None? ==> event == Some(MappingEnd) && Step(At(), MappingEnd).Some? && consumed == old(consumed)
      ensures ok && child.Some? ==> event.None? && Parts([child.value.0, child.value.1])
      ensures ok && child.Some? ==> BareAll(consumed) == BareAll(old(consumed)) + Serialize(child.value.0) + Serialize(child.value.1)
      ensures old(Named()) ==> Named() || (!ok && Broken())
      decreases Left().0, Left().1, Left().2, 4
    {
      hide Step, Fill, Run, Valid, At, Left;
      child := None;
      ok := false;
      var g := Peek();
      if !g.Seen? { return; }
      ok := true;
      InCollection(Map(true), rest, event.value);
      if event.value.MappingEnd? { return; }
      var pair;
      ok, pair := ParsePair(rest);
      if ok {
        child := Some(pair);
      }
    }

    method MappingChildren(ghost rest: seq<Frame>) returns (ok: bool, children: seq<Node>)
      requires Valid() && doneInit && At() == In([Map(true)] + rest) && event.None?
      modifies this, parser
      ensures !ok ==> Halted()
      ensures ok ==>
        && Valid() && doneInit && At() == old(At()) && event == Some(MappingEnd) && Step(At(), MappingEnd).Some?
        && BareAll(consumed) == BareAll(old(consumed)) + SerializeAll(children)
        && Parts(children) && |children| % 2 == 0 && Smaller(Left(), old(Left()))
      ensures old(Named()) ==> Named() || (!ok && Broken())
      decreases Left().0, Left().1, Left().2, 5
    {
      hide Step, Fill, Run, Valid, At, Left, WellFormed, BareAll, Serialize, SerializeAll, Broken, Stuck;
      NoChildren();
      children := [];
      while true
        invariant Valid() && doneInit && At() == old(At())
        invariant BareAll(consumed) == BareAll(old(consumed)) + SerializeAll(children)
        invariant Parts(children) && |children| % 2 == 0 && (Left() == old(Left()) || Smaller(Left(), old(Left())))
        invariant old(Named()) ==> Named()
        invariant event.None?
        decreases Left().0, Left().1, Left().2
      {
        var pair;
        ok, pair := NextPair(rest);
        if !ok || pair.None? { return; }
        SerializePair(children, pair.value.0, pair.value.1);
        PartsAppend(children, [pair.value.0, pair.value.1]);
        children := children + [pair.value.0, pair.value.1];
      }
    }

    /** A key and its value. */
    method ParsePair(ghost rest: seq<Frame>) returns (ok: bool, pair: (Node, Node))
      requires NodeDue() && At() == In([Map(true)] + rest)
      modifies this, parser
      ensures !ok ==> Halted()
      ensures ok ==>
        && Valid() && doneInit && event.None? && At() == old(At()) && Smaller(Left(), old(Left()))
        && BareAll(consumed) == BareAll(old(consumed)) + Serialize(pair.0) + Serialize(pair.1)
        && Parts([pair.0, pair.1])
      ensures old(Named()) ==> Named() || (!ok && Broken())
      decreases Left().0, Left().1, Left().2, 3
    {
      hide Step, Run, Valid, At, Left, Fill;
      pair := (AliasNode([]), AliasNode([]));
      ok := false;
      FillPair(rest);
      var key := ParseNode();
      if key.Failed? { return; }
      var value := ParseNode();
      if value.Failed? { return; }
      return true, (key.node, value.node);
    }

    /** document: its content and its end; anchors start anew. */
    method ComposeDocument() returns (r: Composed)
      requires Valid() && doneInit && At() == In([]) && event == Some(DocumentStart)
      modifies this, parser
      ensures !r.NoMore? && !r.UnknownEvent? && (r.Failed? ==> Halted())
      ensures r.Made? ==>
        && Valid() && doneInit && WellFormed(r.node) && r.node.DocumentNode? && At() == In([])
        && BareAll(consumed) == BareAll(old(consumed)) + Serialize(r.node) && Smaller(Left(), old(Left()))
      ensures Named() || Broken()
    {
      hide Run, Valid, At, Left;
      ghost var start := consumed;
      BareOne(DocumentStart);
      BareOne(DocumentEnd);
      var ok := OpenDocument();
      if !ok { return Failed; }
      BareConcat(start, [DocumentStart]);
      var content := ParseNode();
      if content.Failed? { return Failed; }
      ghost var body, taken := consumed, DocumentEnd;
      NamesNext(body, DocumentEnd);
      FillDocument();
      DocumentCloses();
      ok, taken := Expect(DocumentEnd);
      if !ok { return Failed; }
      BareConcat(body, [taken]);
      SerializeNext([], content.node);
      assert [] + [content.node] == [content.node] && SerializeAll([]) + Serialize(content.node) == Serialize(content.node);
      Wrapped(BareAll(start), DocumentStart, Serialize(content.node), DocumentEnd);
      return Made(DocumentNode([content.node]));
    }

    method OpenDocument() returns (ok: bool)
      requires Valid() && doneInit && At() == In([]) && event == Some(DocumentStart)
      modifies this, parser
      ensures ok
        && Valid() && doneInit && At() == In([Doc(false)]) && Smaller(Left(), old(Left()))
        && consumed == old(consumed) + [DocumentStart]
      ensures Named()
    {
      hide Valid, Left, At, Run, Step, Parser.Good;
      DocumentSteps();
      NamesNext(consumed, DocumentStart);
      anchors := {};
      ghost var taken;
      ok, taken := Expect(DocumentStart);
    }

    /** init: the stream's start comes before everything else; an error leaves it to the next call. */
    method Init() returns (ok: bool)
      requires doneInit || Fresh() || Broken()
      modifies this`doneInit, this`event, this`consumed, parser
      ensures doneInit == ok
      ensures old(doneInit) ==> ok && consumed == old(consumed) && event == old(event) && parser.pos == old(parser.pos)
      ensures old(doneInit) ==> (old(Valid()) ==> Valid() && Left() == old(Left())) && unchanged(this) && unchanged(parser)
      ensures !ok ==> Broken() && consumed == old(consumed)
      ensures !old(doneInit) && ok ==> Valid() && consumed == [StreamStart] && At() == In([]) && event.None? && !parser.failed && (old(Fresh()) ==> parser.pos == 1)
      ensures old(Fresh()) ==> (ok <==> |parser.tokens| > 0 && parser.tokens[0].typ == STREAM_START)
      ensures old(Broken() && !doneInit) ==> !ok
      ensures old(Named()) && old(consumed == [] || doneInit) ==> Named()
    {
      hide Left, Valid, At, Run, Step, Fresh, Only, Parser.Good, Parser.Place;
      StreamOpens();
      FreshOnly();
      NamesNext([], StreamStart);
      if doneInit {
        return true;
      }
      ghost var taken;
      ok, taken := Expect(StreamStart);
      assert [] + [taken] == [taken];
      if ok {
        SetDone();
      }
    }

    method SetDone()
      requires Valid() && consumed != []
      modifies this`doneInit
      ensures doneInit && Valid() && !parser.failed
    {
      doneInit := true;
    }

    /** A stream can only start. */
    lemma FreshOnly()
      ensures Fresh() ==> !doneInit && Valid() && At() == Before && Only(StreamStart) && consumed == [] && event.None?
    {
      StreamOpens();
    }

    /**
     * parse, at the top, in every state it can be called in: a document made of exactly the events taken, nothing at the
     * end of the stream, or an error. The event it does not know comes up exactly if an earlier call has made the parser
     * fail behind the stream's start; an error over an unknown alias comes again with every call.
     */
    method Parse() returns (r: Composed)
      requires Usable()
      modifies this, parser
      ensures Usable()
      ensures r.UnknownEvent? <==> old(doneInit && event.None? && parser.failed)
      ensures old(Halted()) || (old(Broken()) && !old(doneInit)) ==>
        && (r.Failed? || r.UnknownEvent?) && doneInit == old(doneInit) && event == old(event) && anchors == old(anchors)
        && parser.failed == old(parser.failed) && consumed == old(consumed)
      ensures r.Failed? ==> Halted() || (!doneInit && Broken())
      ensures r.UnknownEvent? ==> doneInit && Broken()
      ensures r.Made? ==>
        && Valid() && !parser.failed && doneInit && WellFormed(r.node) && r.node.DocumentNode? && At() == In([])
        && BareAll(consumed) == BareAll(old(consumed)) + (if old(doneInit) then [] else [StreamStart]) + Serialize(r.node)
      ensures r.NoMore? ==> Valid() && doneInit && At() == In([]) && event == Some(StreamEnd)
      ensures r.NoMore? ==> consumed == if old(doneInit) then old(consumed) else [StreamStart]
      ensures old(doneInit) && old(event) == Some(StreamEnd) ==> r.NoMore?
      ensures old(Fresh()) ==> (doneInit <==> |parser.tokens| > 0 && parser.tokens[0].typ == STREAM_START)
      ensures old(Fresh()) && |parser.tokens| < 2 ==> r.Failed? && Broken()
      ensures old(Named()) && old(consumed == [] || doneInit) ==> Named() || Broken()
    {
      hide Run, Valid, Left, Step, Parser.Good, Parser.Place, Parser.Stopped;
      StillWorks();
      BareOne(StreamStart);
      var ok := Init();
      if !ok { return Failed; }
      TopEvents();
      var g := Peek();
      if g.Broke? { return Failed; }
      if g.NoEvent? { return UnknownEvent; }
      match event.value
      case StreamEnd => return NoMore;
      case DocumentStart =>
        r := ComposeDocument();
        if r.Made? { StillWorks(); }
      case Alias(_) => r := ComposeAlias();
    }

    /** In a state a call can begin in, a parser that has failed has stopped for good. */
    lemma FailedIsBroken()
      requires Usable()
      ensures doneInit && event.None? && parser.failed <==> doneInit && Broken()
    {
      hide Valid;
      StillWorks();
    }

    lemma StillWorks()
      ensures Valid() ==> !parser.failed
    {
    }
  }

  /**
   * Any number of calls: an unknown event comes up only after an error, and then for good; an error is followed by
   * nothing but errors and unknown events; the end of the stream stays the end.
   */
  method Calls(c: Composer, n: nat) returns (rs: seq<Composed>)
    requires c.Usable()
    modifies c, c.parser
    ensures |rs| == n && c.Usable()
    ensures n > 0 ==> (rs[0].UnknownEvent? <==> old(c.doneInit && c.Broken()))
    ensures forall i :: 0 <= i < n - 1 ==> Follows(rs[i], rs[i + 1])
  {
    hide Composer.Usable, Composer.Valid, Composer.Fresh, Composer.Stuck, Composer.AtNode, Serialize, BareAll, WellFormed;
    rs := [];
    while |rs| < n
      invariant |rs| <= n && c.Usable()
      invariant rs == [] ==> (c.doneInit && c.Broken() <==> old(c.doneInit && c.Broken()))
      invariant |rs| > 0 ==> (rs[0].UnknownEvent? <==> old(c.doneInit && c.Broken())) && LeftBy(c, rs[|rs| - 1])
      invariant forall i :: 0 <= i < |rs| - 1 ==> Follows(rs[i], rs[i + 1])
    {
      c.FailedIsBroken();
      var r := c.Parse();
      rs := rs + [r];
    }
  }

  /** What may come after a result. */
  predicate Follows(r: Composed, next: Composed) {
    match r
    case Made(_) => !next.UnknownEvent?
    case NoMore => next.NoMore?
    case Failed => next.Failed? || next.UnknownEvent?
    case UnknownEvent => next.UnknownEvent?
  }

  /** How a call that ended so has left the composer. */
  ghost predicate LeftBy(c: Composer, r: Composed)
    reads c, c.parser
  {
    match r
    case Made(_) => !c.parser.failed
    case NoMore => c.doneInit && c.event == Some(StreamEnd)
    case Failed => c.Halted() || (!c.doneInit && c.Broken())
    case UnknownEvent => c.doneInit && c.Broken()
  }

  /** A stream that breaks off behind its start: the first call fails, and the second meets the unknown event. */
  method CalledAgain(start: Token) returns (first: Composed, second: Composed)
    requires start.typ == STREAM_START
    ensures first.Failed? && second.UnknownEvent?
  {
    var p := new Parser([start]);
    var c := new Composer(p);
    first := c.Parse();
    second := c.Parse();
  }

  ghost function FillNest(n: Nest): Opt<Nest> {
    if n.In? && Fill(n.frames).Some? then Some(In(Fill(n.frames).value)) else None
  }

  lemma BareOne(e: Event)
    ensures BareAll([e]) == [Bare(e)]
  {
    assert [e][..0] == [];
  }

  /** A node event fills its place and may open a frame of its own. */
  lemma NodeFills(n: Nest, e: Event)
    requires IsNode(e) && Step(n, e).Some?
    ensures FillNest(n).Some? && n.In? && n.frames != []
    ensures Opened(e) == [] ==> Step(n, e) == FillNest(n)
    ensures Step(n, e) == Some(In(Opened(e) + FillNest(n).value.frames))
  {
    assert Opened(e) == [] ==> Opened(e) + FillNest(n).value.frames == FillNest(n).value.frames;
  }

  lemma FillPair(rest: seq<Frame>)
    ensures FillNest(In([Map(true)] + rest)) == Some(In([Map(false)] + rest))
    ensures FillNest(In([Map(false)] + rest)) == Some(In([Map(true)] + rest))
    ensures ([Map(false)] + rest)[0] == Map(false)
  {
    assert ([Map(true)] + rest)[1..] == rest && ([Map(false)] + rest)[1..] == rest;
  }

  lemma FillSame(rest: seq<Frame>)
    ensures FillNest(In([Seq] + rest)) == Some(In([Seq] + rest))
  {
  }

  lemma SerializePair(children: seq<Node>, k: Node, v: Node)
    ensures SerializeAll(children + [k, v]) == SerializeAll(children) + Serialize(k) + Serialize(v)
  {
    SerializeNext(children, k);
    SerializeNext(children + [k], v);
    assert children + [k, v] == children + [k] + [v];
  }

  lemma FillDocument()
    ensures FillNest(In([Doc(false)])) == Some(In([Doc(true)]))
  {
    assert [Doc(true)] + [Doc(false)][1..] == [Doc(true)];
  }

  /** With its content complete a document can only end. */
  lemma DocumentCloses()
    ensures forall next :: Step(In([Doc(true)]), next).Some? ==> next.DocumentEnd?
  {
  }

  /** Only its end ends a stream. */
  lemma StaysOpen(n: Nest, e: Event)
    requires !e.StreamEnd?
    ensures Step(n, e) != Some(After)
  {
  }

  lemma TopEvents()
    ensures forall next :: Step(In([]), next).Some? ==> next.DocumentStart? || next.StreamEnd?
  {
  }

  lemma StreamOpens()
    ensures Step(Before, StreamStart) == Some(In([])) && forall next :: Step(Before, next).Some? ==> next.StreamStart?
  {
  }

  lemma Wrapped(before: seq<Event>, first: Event, middle: seq<Event>, last: Event)
    ensures before + [first] + middle + [last] == before + ([first] + middle + [last])
  {
  }

  lemma PartsAppend(a: seq<Node>, b: seq<Node>)
    requires Parts(a) && Parts(b)
    ensures Parts(a + b)
  {
  }

  ghost predicate Parts(children: seq<Node>) {
    forall i :: 0 <= i < |children| ==> !children[i].DocumentNode? && WellFormed(children[i])
  }

  /** Where a mapping's value or a document's content is due, every event is a node. */
  lemma NodeComes(n: Nest, e: Event)
    requires n.In? && n.frames != [] && Step(n, e).Some?
    ensures n.frames[0] == Map(false) || n.frames[0] == Doc(false) ==> IsNode(e)
  {
  }

  /** In an open collection every event is a child node or the collection's own end. */
  lemma InCollection(top: Frame, rest: seq<Frame>, e: Event)
    requires Step(In([top] + rest), e).Some? && !top.Doc?
    ensures top == Seq ==> IsNode(e) || e.SequenceEnd?
    ensures top == Map(true) ==> IsNode(e) || e.MappingEnd?
    ensures top == Map(false) ==> IsNode(e)
    ensures e.SequenceEnd? || e.MappingEnd? ==> Step(In([top] + rest), e) == Some(In(rest))
    ensures Fill([top] + rest) == Some([if top.Map? then Map(!top.atKey) else top] + rest)
  {
    assert ([top] + rest)[0] == top && ([top] + rest)[1..] == rest;
  }
}
