/** The YAML parser: an event per call, driven by a state, a stack of states to return to, and the token queue. */
module YamlParsing {
  import opened Keys
  import opened Options
  import opened YamlEvents
  import opened YamlTokens
  import opened YamlMachine

  // ---------- what the states stand for ----------

  /** The frames a state leaves open above those of the states below it. */
  ghost function FramesOf(s: ParserState): seq<Frame> {
    match s
    case ParseDocumentEnd => [Doc(true)]
    case ParseBlockSequenceFirstEntry | ParseBlockSequenceEntry | ParseIndentlessSequenceEntry => [Seq]
    case ParseFlowSequenceFirstEntry | ParseFlowSequenceEntry => [Seq]
    case ParseBlockMappingFirstKey | ParseBlockMappingKey | ParseFlowMappingFirstKey | ParseFlowMappingKey => [Map(true)]
    case ParseBlockMappingValue | ParseFlowMappingValue | ParseFlowMappingEmptyValue => [Map(false)]
    case ParseFlowSequenceEntryMappingKey | ParseFlowSequenceEntryMappingEnd => [Map(true), Seq]
    case ParseFlowSequenceEntryMappingValue => [Map(false), Seq]
    case _ => []
  }

  ghost function FramesAll(states: seq<ParserState>): seq<Frame> {
    if states == [] then [] else FramesOf(states[|states| - 1]) + FramesAll(states[..|states| - 1])
  }

  /** About to parse a document's content. */
  ghost predicate AtContent(s: ParserState) {
    s.ParseDocumentContent? || s.ParseBlockNode? || s.ParseBlockNodeOrIndentlessSequence? || s.ParseFlowNode?
  }

  /** Between documents, or before or after all of them. */
  ghost predicate Outside(s: ParserState) {
    s.ParseStreamStart? || s.ParseImplicitDocumentStart? || s.ParseDocumentStart? || s.ParseEnd?
  }

  /** A state that may wait on the stack, above the document's own. */
  ghost predicate Returns(s: ParserState) {
    || s.ParseBlockSequenceEntry? || s.ParseIndentlessSequenceEntry? || s.ParseBlockMappingKey? || s.ParseBlockMappingValue?
    || s.ParseFlowSequenceEntry? || s.ParseFlowSequenceEntryMappingValue? || s.ParseFlowSequenceEntryMappingEnd?
    || s.ParseFlowMappingKey? || s.ParseFlowMappingValue? || s.ParseFlowMappingEmptyValue?
  }

  ghost predicate StackOk(states: seq<ParserState>) {
    && |states| > 0 && states[0] == ParseDocumentEnd
    && forall i :: 1 <= i < |states| ==> Returns(states[i])
  }

  /** The marks a state has on the stack of marks: one for each collection with a start token consumed. */
  ghost function MarksOf(s: ParserState): nat {
    if (Returns(s) && !s.ParseIndentlessSequenceEntry?) || s.ParseFlowSequenceEntryMappingKey? then 1 else 0
  }

  ghost function MarksAll(states: seq<ParserState>): nat {
    if states == [] then 0 else MarksOf(states[|states| - 1]) + MarksAll(states[..|states| - 1])
  }

  /** The start token a first-entry state relies on being next. */
  ghost function StartToken(s: ParserState): Opt<TokenType> {
    match s
    case ParseBlockSequenceFirstEntry => Some(BLOCK_SEQUENCE_START)
    case ParseBlockMappingFirstKey => Some(BLOCK_MAPPING_START)
    case ParseFlowSequenceFirstEntry => Some(FLOW_SEQUENCE_START)
    case ParseFlowMappingFirstKey => Some(FLOW_MAPPING_START)
    case _ => None
  }

  /** How many events a state can still cause without another token. */
  ghost function WeightOf(s: ParserState): nat {
    match s
    case ParseStreamStart | ParseEnd => 0
    case ParseImplicitDocumentStart => 10
    case ParseDocumentStart => 1
    case ParseDocumentContent | ParseBlockNode | ParseBlockNodeOrIndentlessSequence | ParseFlowNode => 5
    case ParseDocumentEnd => 2
    case ParseBlockMappingValue | ParseFlowMappingValue | ParseFlowMappingEmptyValue => 2
    case ParseFlowSequenceEntryMappingKey => 5
    case ParseFlowSequenceEntryMappingValue => 3
    case ParseFlowSequenceEntryMappingEnd => 2
    case _ => 1
  }

  ghost function WeightAll(states: seq<ParserState>): nat {
    if states == [] then 0 else WeightOf(states[|states| - 1]) + WeightAll(states[..|states| - 1])
  }

  /** Where in the event stream the parser is. */
  ghost function NestOf(state: ParserState, states: seq<ParserState>): Nest {
    if state.ParseStreamStart? then Before
    else if state.ParseEnd? then After
    else if AtContent(state) then In([Doc(false)])
    else In(FramesOf(state) + FramesAll(states))
  }

  ghost predicate StatesOk(state: ParserState, states: seq<ParserState>) {
    if Outside(state) || state.ParseDocumentEnd? then states == []
    else if AtContent(state) then states == [ParseDocumentEnd]
    else StackOk(states)
  }

  // ---------- texts ----------

  function OneText(b: Bytes): seq<Bytes> {
    if b == [] then [] else [b]
  }

  /** The text a token carries over into an event: a scalar, the name of an anchor or of an alias. */
  function TextOf(t: Token): seq<Bytes> {
    if t.typ in {SCALAR, ALIAS, ANCHOR} then OneText(t.value) else []
  }

  function TextsOf(tokens: seq<Token>): seq<Bytes> {
    if tokens == [] then [] else TextsOf(tokens[..|tokens| - 1]) + TextOf(tokens[|tokens| - 1])
  }

  function AnchorOf(e: Event): Bytes {
    if e.Alias? || e.Scalar? || e.SequenceStart? || e.MappingStart? then e.anchor else []
  }

  function ValueOf(e: Event): Bytes {
    if e.Scalar? then e.value else []
  }

  /** The texts of an event. */
  function EventTexts(e: Event): seq<Bytes> {
    OneText(AnchorOf(e)) + OneText(ValueOf(e))
  }

  /** The event adds its texts, and no others. */
  ghost predicate Carried(before: seq<Bytes>, after: seq<Bytes>, e: Event) {
    after == before + EventTexts(e)
  }

  /** One text, unless it is empty. */
  ghost predicate Added(before: seq<Bytes>, after: seq<Bytes>, text: Bytes) {
    after == before + OneText(text)
  }

  lemma NothingAdded(texts: seq<Bytes>)
    ensures Added(texts, texts, [])
  {
  }

  lemma TokenAdded(texts: seq<Bytes>, t: Token)
    requires t.typ in {SCALAR, ALIAS, ANCHOR}
    ensures Added(texts, texts + TextOf(t), t.value)
    ensures Carried(texts, texts + TextOf(t), Alias(t.value))
  {
  }

  /** The anchor first, then the value. */
  lemma BothAdded(t0: seq<Bytes>, t1: seq<Bytes>, t2: seq<Bytes>, e: Event)
    requires Added(t0, t1, AnchorOf(e)) && Added(t1, t2, ValueOf(e))
    ensures Carried(t0, t2, e)
  {
  }

  lemma CarriesNothing(texts: seq<Bytes>)
    ensures forall e: Event :: AnchorOf(e) == [] && ValueOf(e) == [] ==> Carried(texts, texts, e)
  {
  }

  function AllTexts(events: seq<Event>): seq<Bytes> {
    if events == [] then [] else AllTexts(events[..|events| - 1]) + EventTexts(events[|events| - 1])
  }

  lemma TextsNext(tokens: seq<Token>, i: nat)
    requires i < |tokens|
    ensures TextsOf(tokens[..i + 1]) == TextsOf(tokens[..i]) + TextOf(tokens[i])
  {
    assert tokens[..i + 1][..i] == tokens[..i];
  }

  lemma AllTextsNext(events: seq<Event>, e: Event, texts: seq<Bytes>)
    requires Carried(AllTexts(events), texts, e)
    ensures AllTexts(events + [e]) == texts
  {
    assert (events + [e])[..|events|] == events;
  }

  // ---------- small facts about the stack ----------

  lemma Pushed(states: seq<ParserState>, s: ParserState)
    ensures FramesAll(states + [s]) == FramesOf(s) + FramesAll(states)
    ensures MarksAll(states + [s]) == MarksOf(s) + MarksAll(states)
    ensures WeightAll(states + [s]) == WeightOf(s) + WeightAll(states)
  {
    assert (states + [s])[..|states|] == states;
  }

  /** Returning to the state on top of the stack. */
  lemma Popped(states: seq<ParserState>)
    requires StackOk(states)
    ensures var s, rest := states[|states| - 1], states[..|states| - 1];
      && StatesOk(s, rest) && NestOf(s, rest) == In(FramesAll(states))
      && MarksOf(s) + MarksAll(rest) == MarksAll(states) && StartToken(s).None?
      && WeightOf(s) + WeightAll(rest) == WeightAll(states)
  {
  }

  lemma ContentFrames()
    ensures FramesAll([ParseDocumentEnd]) == [Doc(true)]
    ensures MarksAll([ParseDocumentEnd]) == 0 && WeightAll([ParseDocumentEnd]) == 2
  {
    assert [ParseDocumentEnd][..0] == [];
  }

  class Parser {
    const tokens: seq<Token>
    var pos: nat
    var state: ParserState
    var states: seq<ParserState>
    var marks: seq<nat>
    var tagDirectives: seq<TagDirective>
    var streamEndProduced: bool
    var failed: bool
    ghost var emitted: seq<Event>

    /** A parser over any token queue; a token beyond its end is one the scanner cannot deliver. */
    constructor (tokens: seq<Token>)
      ensures Sound() && !failed && !streamEndProduced && emitted == [] && this.tokens == tokens
      ensures state == ParseStreamStart && pos == 0 && M() == START
    {
      this.tokens, pos, state, states := tokens, 0, ParseStreamStart, [];
      marks, tagDirectives, streamEndProduced, failed, emitted := [], [], false, false, [];
    }

    ghost predicate Good()
      reads this
    {
      && pos <= |tokens| && StatesOk(state, states)
      && |marks| == MarksOf(state) + MarksAll(states)
      && (StartToken(state).Some? ==> pos < |tokens| && tokens[pos].typ == StartToken(state).value)
      && (streamEndProduced ==> state.ParseEnd?)
    }

    ghost function Place(): Nest
      reads this
    {
      NestOf(state, states)
    }

    /** Where the parser stands. */
    ghost function M(): Machine
      reads this
    {
      Machine(pos, state, states, tagDirectives)
    }

    /** The event is the one of this turn, and the parser stands where the turn leads; without a turn there is no event. */
    ghost predicate Took(turn: Opt<Turn>, ev: Opt<Event>)
      reads this
    {
      if turn.None? then ev.None? else ev == Some(turn.value.event) && M() == turn.value.machine
    }

    /** The texts of the tokens consumed. */
    ghost function Texts(): seq<Bytes>
      reads this`pos
    {
      TextsOf(tokens[..if pos <= |tokens| then pos else |tokens|])
    }

    /**
     * The events so far are a prefix of a well-nested stream, the parser knows where in it they end, and they carry the
     * texts of the tokens consumed, each once and in order. They are those the machine gives from its start.
     */
    ghost predicate Sound()
      reads this
    {
      Good() && Run(emitted) == Some(Place()) && AllTexts(emitted) == Texts() && Goes(tokens, START, emitted, M())
    }

    /** Behind the events emitted the tokens do not go on as they should. */
    ghost predicate Stopped()
      reads this`emitted
    {
      exists m :: Goes(tokens, START, emitted, m) && !m.state.ParseEnd? && Next(tokens, m).None?
    }

    lemma SoundPlace()
      requires Sound()
      ensures Run(emitted) == Some(Place())
    {
    }

    ghost function Weight(): nat
      reads this
    {
      WeightOf(state) + WeightAll(states)
    }

    /** Progress: tokens were consumed, or there is less to do without any. */
    twostate predicate Moved()
      reads this
    {
      pos > old(pos) || (pos == old(pos) && Weight() < old(Weight()))
    }

    // ---------- tokens ----------

    /** peek_token */
    function Peek(): Opt<Token>
      reads this
    {
      if pos < |tokens| then Some(tokens[pos]) else None
    }

    /** skip_token */
    method Skip()
      requires pos < |tokens|
      modifies this`pos, this`streamEndProduced
      ensures Texts() == old(Texts()) + TextOf(tokens[old(pos)])
      ensures tokens[old(pos)].typ !in {SCALAR, ALIAS, ANCHOR} ==> Texts() == old(Texts())
      ensures pos == old(pos) + 1 && streamEndProduced == (tokens[old(pos)].typ == STREAM_END)
    {
      TextsNext(tokens, pos);
      streamEndProduced := tokens[pos].typ == STREAM_END;
      pos := pos + 1;
    }

    /** Go back to the state on top of the stack. */
    method Return()
      requires StackOk(states)
      modifies this`state, this`states
      ensures state == old(states)[|old(states)| - 1] && states == old(states)[..|old(states)| - 1]
    {
      state := states[|states| - 1];
      states := states[..|states| - 1];
    }

    method PopMark()
      requires |marks| > 0
      modifies this`marks
      ensures marks == old(marks)[..|old(marks)| - 1]
    {
      marks := marks[..|marks| - 1];
    }

    method Fail()
      modifies this`failed
      ensures failed
    {
      failed := true;
    }

    // ---------- nodes ----------

    /** properties ::= TAG ANCHOR? | ANCHOR TAG? */
    method ParseProperties() returns (ok: bool, token: Token, anchor: Bytes, tag: Opt<Token>)
      requires pos <= |tokens| && !streamEndProduced
      modifies this`pos, this`streamEndProduced, this`failed
      ensures !ok ==> failed
      ensures ok ==>
        && failed == old(failed) && pos < |tokens| && token == tokens[pos] && pos >= old(pos)
        && (|anchor| > 0 || tag.Some? ==> pos > old(pos))
        && !streamEndProduced && Added(old(Texts()), Texts(), anchor)
      ensures PropertiesAt(tokens, old(pos)) == if ok then Some(Properties(anchor, tag, pos)) else None
    {
      ok, anchor, tag := false, [], None;
      token := Token(STREAM_END, [], [], [], 0, 0, false, 0);
      if pos >= |tokens| { Fail(); return; }
      token := tokens[pos];
      if token.typ == ANCHOR {
        anchor := token.value;
        Skip();
        if pos >= |tokens| { Fail(); return; }
        token := tokens[pos];
        if token.typ == TAG {
          tag := Some(token);
          Skip();
          if pos >= |tokens| { Fail(); return; }
          token := tokens[pos];
        }
      } else if token.typ == TAG {
        tag := Some(token);
        Skip();
        if pos >= |tokens| { Fail(); return; }
        token := tokens[pos];
        if token.typ == ANCHOR {
          anchor := token.value;
          Skip();
          if pos >= |tokens| { Fail(); return; }
          token := tokens[pos];
        }
      }
      ok := true;
    }

    /** The full tag: the suffix alone, or the prefix its handle stands for with the suffix. */
    method ResolveTag(t: Token) returns (ok: bool, tag: Bytes)
      modifies this`failed
      ensures !ok ==> failed
      ensures ok ==> failed == old(failed)
      ensures ok ==> tag == (if |t.value| == 0 then t.suffix else PrefixFor(tagDirectives, t.value) + (if HasHandle(tagDirectives, t.value) then t.suffix else []))
      ensures ok <==> |t.value| == 0 || |PrefixFor(tagDirectives, t.value) + (if HasHandle(tagDirectives, t.value) then t.suffix else [])| > 0
      ensures Resolved(tagDirectives, t) == if ok then Some(tag) else None
    {
      if |t.value| == 0 {
        return true, t.suffix;
      }
      tag := [];
      var i := 0;
      while i < |tagDirectives|
        invariant 0 <= i <= |tagDirectives| && tag == []
        invariant PrefixFor(tagDirectives, t.value) == PrefixFor(tagDirectives[i..], t.value)
        invariant HasHandle(tagDirectives, t.value) == HasHandle(tagDirectives[i..], t.value)
        invariant failed == old(failed)
      {
        assert tagDirectives[i..][1..] == tagDirectives[i + 1..];
        if tagDirectives[i].handle == t.value {
          tag := tagDirectives[i].prefix + t.suffix;
          break;
        }
        i := i + 1;
      }
      ok := |tag| > 0;
      if !ok {
        Fail();
      }
    }

    /** What every production promises: the event continues the stream, and there is less left to do. */
    twostate predicate Emits(new ev: Opt<Event>)
      reads this
    {
      if ev.None? then failed
      else
        && old(pos) < |tokens| && Good() && failed == old(failed) && Step(old(Place()), ev.value) == Some(Place()) && Moved()
        && Carried(old(Texts()), Texts(), ev.value)
    }

    /** Ready to parse a node that comes right before the state on top of the stack. */
    ghost predicate ReadyForNode()
      reads this
    {
      pos <= |tokens| && StackOk(states) && |marks| == MarksAll(states) && !streamEndProduced
    }

    /** A node was parsed: a scalar or alias and back to the waiting state, or the start of a collection. */
    twostate predicate NodeParsed(new ev: Opt<Event>)
      reads this
    {
      if ev.None? then failed
      else
        && old(pos) < |tokens| && Good() && failed == old(failed) && marks == old(marks)
        && Carried(old(Texts()), Texts(), ev.value)
        && IsNode(ev.value) && Place() == In(Opened(ev.value) + FramesAll(old(states)))
        && (pos > old(pos) || (pos == old(pos) && states == old(states) && WeightOf(state) <= 1))
    }

    /** A scalar or an alias: back to the waiting state, over the token if it has one of its own. */
    method EndNode(skip: bool)
      requires ReadyForNode() && (skip ==> pos < |tokens| && tokens[pos].typ != STREAM_END)
      modifies this`pos, this`state, this`states, this`streamEndProduced
      ensures if skip then Texts() == old(Texts()) + TextOf(tokens[old(pos)]) else Texts() == old(Texts())
      ensures Good() && Place() == In(FramesAll(old(states)))
      ensures pos == (if skip then old(pos) + 1 else old(pos)) && Weight() == WeightAll(old(states))
      ensures M() == if skip then Skipped(Resumed(old(M()))) else Resumed(old(M()))
    {
      Popped(states);
      Return();
      if skip {
        Skip();
      }
    }

    /** The start of a collection: its state takes over, the states to return to stay. */
    method OpenNode(s: ParserState, e: Event) returns (ev: Opt<Event>)
      requires ReadyForNode() && (StartToken(s).Some? || s.ParseIndentlessSequenceEntry?)
      requires (e.SequenceStart? && FramesOf(s) == [Seq]) || (e.MappingStart? && FramesOf(s) == [Map(true)])
      requires StartToken(s).Some? ==> pos < |tokens| && tokens[pos].typ == StartToken(s).value
      modifies this`state
      ensures ev == Some(e) && Good() && state == s && WeightOf(s) == 1 && Place() == In(Opened(e) + FramesAll(states))
      ensures M() == Go(old(M()), s)
    {
      state := s;
      ev := Some(e);
    }

    /** parse_node */
    method ParseNode(block: bool, indentlessSequence: bool) returns (ev: Opt<Event>)
      requires ReadyForNode()
      modifies this`pos, this`state, this`states, this`streamEndProduced, this`failed
      ensures NodeParsed(ev)
      ensures Took(NodeNext(tokens, old(M()), block, indentlessSequence), ev)
    {
      hide TextsOf, TextOf, EventTexts, Carried, Added, StackOk, Parser.Good, ContentNext, Resolved, PropertiesAt;
      NoToken(tokens, M());
      if pos >= |tokens| { Fail(); return None; }
      if tokens[pos].typ == ALIAS {
        ev := Some(Alias(tokens[pos].value));
        TokenAdded(Texts(), tokens[pos]);
        EndNode(true);
        return;
      }
      var ok, token, anchor, tagToken := ParseProperties();
      if !ok { return None; }
      var tag: Bytes := [];
      if tagToken.Some? {
        ok, tag := ResolveTag(tagToken.value);
        if !ok { return None; }
      }
      ghost var before := Texts();
      ev := ParseContent(block, indentlessSequence, anchor, tag);
      if ev.Some? {
        BothAdded(old(Texts()), before, Texts(), ev.value);
      }
    }

    /** Behind its properties a node was parsed: it has the anchor, and it is over or the start of a collection. */
    twostate predicate ContentParsed(anchor: Bytes, tag: Bytes, new ev: Opt<Event>)
      reads this
    {
      if ev.None? then failed
      else
        && Good() && failed == old(failed)
        && AnchorOf(ev.value) == anchor && Added(old(Texts()), Texts(), ValueOf(ev.value))
        && IsNode(ev.value) && Place() == In(Opened(ev.value) + FramesAll(old(states))) && pos >= old(pos)
        && (pos == old(pos) ==> |anchor| > 0 || |tag| > 0 || (states == old(states) && WeightOf(state) <= 1))
    }

    /** parse_node, after the properties. */
    method ParseContent(block: bool, indentlessSequence: bool, anchor: Bytes, tag: Bytes) returns (ev: Opt<Event>)
      requires ReadyForNode() && pos < |tokens|
      modifies this`pos, this`state, this`states, this`streamEndProduced, this`failed
      ensures ContentParsed(anchor, tag, ev)
      ensures Took(ContentNext(tokens, old(M()), block, indentlessSequence, anchor, tag), ev)
    {
      hide StackOk, StatesOk, MarksOf, MarksAll, NestOf, FramesAll, WeightAll, Parser.Good, Parser.ReadyForNode, TextsOf, TextOf, Carried, Added;
      NothingAdded(Texts());
      if indentlessSequence && tokens[pos].typ == BLOCK_ENTRY {
        ev := OpenNode(ParseIndentlessSequenceEntry, SequenceStart(anchor, tag, |tag| == 0));
      } else if tokens[pos].typ == SCALAR {
        ev := ScalarContent(anchor, tag);
      } else {
        ev := CollectionContent(block, anchor, tag);
      }
    }

    method ScalarContent(anchor: Bytes, tag: Bytes) returns (ev: Opt<Event>)
      requires ReadyForNode() && pos < |tokens| && tokens[pos].typ == SCALAR
      modifies this`pos, this`state, this`states, this`streamEndProduced, this`failed
      ensures ContentParsed(anchor, tag, ev)
      ensures Took(ContentNext(tokens, old(M()), false, false, anchor, tag), ev)
    {
      hide StackOk, StatesOk, MarksOf, MarksAll, NestOf, FramesAll, WeightAll, Parser.Good, Parser.ReadyForNode, TextsOf, TextOf, EventTexts, Carried, Added;
      var token := tokens[pos];
      var plainImplicit := (|tag| == 0 && token.plain) || tag == BANG;
      var quotedImplicit := !plainImplicit && |tag| == 0;
      TokenAdded(Texts(), token);
      EndNode(true);
      ev := Some(Scalar(anchor, tag, token.value, plainImplicit, quotedImplicit));
    }

    /** The start of a collection, or a node that consists of its properties. */
    method CollectionContent(block: bool, anchor: Bytes, tag: Bytes) returns (ev: Opt<Event>)
      requires ReadyForNode() && pos < |tokens| && tokens[pos].typ != SCALAR
      modifies this`pos, this`state, this`states, this`streamEndProduced, this`failed
      ensures ContentParsed(anchor, tag, ev)
      ensures Took(ContentNext(tokens, old(M()), block, false, anchor, tag), ev)
    {
      hide StackOk, StatesOk, MarksOf, MarksAll, NestOf, FramesAll, WeightAll, Parser.Good, Parser.ReadyForNode, TextsOf, TextOf, EventTexts, Carried, Added;
      NothingAdded(Texts());
      var typ, implicit := tokens[pos].typ, |tag| == 0;
      if typ == FLOW_SEQUENCE_START {
        ev := OpenNode(ParseFlowSequenceFirstEntry, SequenceStart(anchor, tag, implicit));
      } else if typ == FLOW_MAPPING_START {
        ev := OpenNode(ParseFlowMappingFirstKey, MappingStart(anchor, tag, implicit));
      } else if block && typ == BLOCK_SEQUENCE_START {
        ev := OpenNode(ParseBlockSequenceFirstEntry, SequenceStart(anchor, tag, implicit));
      } else if block && typ == BLOCK_MAPPING_START {
        ev := OpenNode(ParseBlockMappingFirstKey, MappingStart(anchor, tag, implicit));
      } else if |anchor| > 0 || |tag| > 0 {
        EndNode(false);
        ev := Some(Scalar(anchor, tag, [], implicit, false));
      } else {
        Fail();
        ev := None;
      }
    }

    /** Push the state to return to and parse a node, which counts in the open frames f. */
    method ParseChild(r: ParserState, block: bool, indentlessSequence: bool, ghost f: seq<Frame>) returns (ev: Opt<Event>)
      requires pos <= |tokens| && StackOk(states) && Returns(r) && !streamEndProduced
      requires |marks| == MarksOf(r) + MarksAll(states) && Fill(f) == Some(FramesOf(r))
      modifies this`pos, this`state, this`states, this`streamEndProduced, this`failed
      ensures if ev.None? then failed
        else
          && Good() && failed == old(failed) && Carried(old(Texts()), Texts(), ev.value)
          && Step(In(f + FramesAll(old(states))), ev.value) == Some(Place())
          && (pos > old(pos) || (pos == old(pos) && Weight() <= 1 + WeightOf(r) + WeightAll(old(states))))
      ensures Took(ChildNext(tokens, old(M()), r, block, indentlessSequence), ev)
    {
      hide Step, Fill, StackOk, StatesOk, TextsOf, TextOf, EventTexts, Carried;
      NodeStep(f, FramesOf(r), FramesAll(states));
      Pushed(states, r);
      PushedOk(states, r);
      states := states + [r];
      ev := ParseNode(block, indentlessSequence);
    }

    /** What a state inside a collection may rely on. */
    lemma Facts()
      requires Good() && (Returns(state) || StartToken(state).Some? || state == ParseFlowSequenceEntryMappingKey)
      ensures pos <= |tokens| && StackOk(states) && |marks| == MarksOf(state) + MarksAll(states) && !streamEndProduced
      ensures Place() == In(FramesOf(state) + FramesAll(states))
      ensures StartToken(state).Some? ==> pos < |tokens| && tokens[pos].typ == StartToken(state).value
    {
    }

    /** Take another state, with the same states to return to. */
    method Become(s: ParserState)
      requires pos <= |tokens| && StackOk(states) && (Returns(s) || s == ParseFlowSequenceEntryMappingKey)
      requires |marks| == MarksOf(s) + MarksAll(states) && !streamEndProduced
      modifies this`state
      ensures Good() && state == s && Place() == In(FramesOf(s) + FramesAll(states))
      ensures M() == Go(old(M()), s)
    {
      state := s;
    }

    /** An empty node in place of a missing one. */
    method EmptyNode(next: ParserState, ghost f: seq<Frame>) returns (ev: Opt<Event>)
      requires pos <= |tokens| && StackOk(states) && Returns(next) && |marks| == MarksOf(next) + MarksAll(states) && !streamEndProduced
      requires Fill(f) == Some(FramesOf(next))
      modifies this`state
      ensures ev == Some(EMPTY_SCALAR) && Carried(Texts(), Texts(), ev.value)
      ensures Good() && state == next && Step(In(f + FramesAll(states)), ev.value) == Some(Place())
      ensures M() == Go(old(M()), next)
    {
      hide Step, Fill, StackOk, TextsOf, TextOf, EventTexts, Carried;
      NodeStep(f, FramesOf(next), FramesAll(states));
      Become(next);
      CarriesNothing(Texts());
      ev := Some(EMPTY_SCALAR);
      assert Opened(EMPTY_SCALAR) + (FramesOf(next) + FramesAll(states)) == FramesOf(next) + FramesAll(states);
    }

    /** The end of a collection with a mark: over its end token and back to the waiting state. */
    method CloseCollection()
      requires StackOk(states) && |marks| == 1 + MarksAll(states) && !streamEndProduced
      requires pos < |tokens| && tokens[pos].typ !in {STREAM_END, SCALAR, ALIAS, ANCHOR}
      modifies this`pos, this`state, this`states, this`marks, this`streamEndProduced
      ensures Texts() == old(Texts())
      ensures Good() && Place() == In(FramesAll(old(states))) && pos == old(pos) + 1
      ensures M() == Skipped(Resumed(old(M())))
    {
      hide StackOk, TextsOf, TextOf, EventTexts, Carried;
      Popped(states);
      Return();
      PopMark();
      Skip();
    }

    /** An unexpected token in a collection. */
    method FailInCollection()
      requires |marks| > 0
      modifies this`marks, this`failed
      ensures failed
    {
      PopMark();
      Fail();
    }

    /** A first-entry state takes note of where the collection starts and consumes its start token. */
    method Begin()
      requires StartToken(state).Some? && pos < |tokens| && tokens[pos].typ == StartToken(state).value
      modifies this`pos, this`marks, this`streamEndProduced
      ensures Texts() == old(Texts())
      ensures pos == old(pos) + 1 && pos <= |tokens| && |marks| == |old(marks)| + 1 && !streamEndProduced
      ensures M() == Skipped(old(M()))
    {
      marks := marks + [tokens[pos].mark];
      Skip();
    }

    /** A collection with a mark, at its first token or further in. */
    ghost predicate Inside()
      reads this
    {
      pos <= |tokens| && StackOk(states) && |marks| == 1 + MarksAll(states) && !streamEndProduced
    }

    /** The collection's next event, found by consuming a token if one must be. */
    twostate predicate Continues(top: Frame, consumed: bool, new ev: Opt<Event>)
      reads this
    {
      if ev.None? then failed
      else
        && Good() && failed == old(failed) && (if consumed then pos > old(pos) else pos >= old(pos))
        && Carried(old(Texts()), Texts(), ev.value)
        && Step(In([top] + FramesAll(old(states))), ev.value) == Some(Place())
    }

    /** Consume the start token if the collection is new, and look at the next one. */
    method EnterCollection(first: bool) returns (ok: bool)
      requires Good() && if first then StartToken(state).Some? else Returns(state) && !state.ParseIndentlessSequenceEntry?
      modifies this`pos, this`marks, this`streamEndProduced, this`failed
      ensures !ok ==> failed
      ensures ok ==> old(pos) < |tokens| && Inside() && pos < |tokens| && (if first then pos > old(pos) else pos == old(pos)) && failed == old(failed) && Texts() == old(Texts())
      ensures if ok then M() == (if first then Skipped(old(M())) else old(M())) else (if first then old(pos) + 1 else old(pos)) >= |tokens|
    {
      hide StackOk, TextsOf, TextOf, EventTexts, Carried;
      Facts();
      if first { Begin(); }
      if pos >= |tokens| { Fail(); return false; }
      return true;
    }

    /** Between entries of a flow collection there is a comma. */
    method FlowSeparator(first: bool) returns (ok: bool)
      requires Inside() && pos < |tokens|
      modifies this`pos, this`marks, this`streamEndProduced, this`failed
      ensures !ok ==> failed
      ensures ok ==> Inside() && pos < |tokens| && (if first then pos == old(pos) else pos > old(pos)) && failed == old(failed) && Texts() == old(Texts())
      ensures Separated(tokens, old(M()), first) == if ok then Some(M()) else None
    {
      if first { return true; }
      if tokens[pos].typ != FLOW_ENTRY {
        FailInCollection();
        return false;
      }
      Skip();
      if pos >= |tokens| { Fail(); return false; }
      return true;
    }

    // ---------- block collections ----------

    /** block_sequence ::= BLOCK-SEQUENCE-START (BLOCK-ENTRY block_node?)* BLOCK-END */
    method BlockSequenceEntry(first: bool) returns (ev: Opt<Event>)
      requires Good() && state == if first then ParseBlockSequenceFirstEntry else ParseBlockSequenceEntry
      modifies this
      ensures Emits(ev)
      ensures Took(BlockSequenceNext(tokens, if first then Skipped(old(M())) else old(M())), ev)
    {
      hide StackOk, StatesOk, Step, Parser.Good, Parser.Place, Parser.Inside, TextsOf, TextOf, EventTexts, Carried, BlockSequenceNext;
      NoEntry(tokens, if first then Skipped(M()) else M(), first);
      Facts();
      var ok := EnterCollection(first);
      if !ok { return None; }
      ev := BlockSequenceRest();
    }

    method BlockSequenceRest() returns (ev: Opt<Event>)
      requires Inside() && pos < |tokens|
      modifies this
      ensures Continues(Seq, true, ev)
      ensures Took(BlockSequenceNext(tokens, old(M())), ev)
    {
      hide StackOk, StatesOk, Step, Fill, FramesAll, MarksAll, Parser.Good, Parser.Place, TextsOf, TextOf, EventTexts, Carried, ChildNext;
      Fills();
      if tokens[pos].typ == BLOCK_ENTRY {
        Skip();
        if pos >= |tokens| { Fail(); return None; }
        if tokens[pos].typ !in {BLOCK_ENTRY, BLOCK_END} {
          ev := ParseChild(ParseBlockSequenceEntry, true, false, [Seq]);
        } else {
          ev := EmptyNode(ParseBlockSequenceEntry, [Seq]);
        }
        return;
      }
      if tokens[pos].typ == BLOCK_END {
        EndStep(Seq, FramesAll(states));
        CloseCollection();
        CarriesNothing(Texts());
        return Some(SequenceEnd);
      }
      FailInCollection();
      return None;
    }

    /** indentless_sequence ::= (BLOCK-ENTRY block_node?)+ */
    method IndentlessSequenceEntry() returns (ev: Opt<Event>)
      requires Good() && state == ParseIndentlessSequenceEntry
      modifies this
      ensures Emits(ev)
      ensures Took(IndentlessSequenceNext(tokens, old(M())), ev)
    {
      hide StackOk, StatesOk, Step, Fill, FramesAll, MarksAll, Parser.Good, Parser.Place, TextsOf, TextOf, EventTexts, Carried, ChildNext, WeightAll, NodeNext;
      ghost var rest := FramesAll(states);
      Fills();
      Facts();
      if pos >= |tokens| { Fail(); return None; }
      if tokens[pos].typ == BLOCK_ENTRY {
        Skip();
        if pos >= |tokens| { Fail(); return None; }
        if tokens[pos].typ !in {BLOCK_ENTRY, KEY, VALUE, BLOCK_END} {
          ev := ParseChild(ParseIndentlessSequenceEntry, true, false, [Seq]);
        } else {
          ev := EmptyNode(ParseIndentlessSequenceEntry, [Seq]);
        }
        return;
      }
      EndNode(false);
      EndStep(Seq, rest);
      CarriesNothing(Texts());
      return Some(SequenceEnd);
    }

    /** block_mapping, at a key */
    method BlockMappingKey(first: bool) returns (ev: Opt<Event>)
      requires Good() && state == if first then ParseBlockMappingFirstKey else ParseBlockMappingKey
      modifies this
      ensures Emits(ev)
      ensures Took(BlockMappingNext(tokens, if first then Skipped(old(M())) else old(M())), ev)
    {
      hide StackOk, StatesOk, Step, Parser.Good, Parser.Place, Parser.Inside, TextsOf, TextOf, EventTexts, Carried, BlockMappingNext;
      NoEntry(tokens, if first then Skipped(M()) else M(), first);
      Facts();
      var ok := EnterCollection(first);
      if !ok { return None; }
      ev := BlockMappingRest();
    }

    method BlockMappingRest() returns (ev: Opt<Event>)
      requires Inside() && pos < |tokens|
      modifies this
      ensures Continues(Map(true), true, ev)
      ensures Took(BlockMappingNext(tokens, old(M())), ev)
    {
      hide StackOk, StatesOk, Step, Fill, FramesAll, MarksAll, Parser.Good, Parser.Place, TextsOf, TextOf, EventTexts, Carried, ChildNext;
      Fills();
      if tokens[pos].typ == KEY {
        Skip();
        if pos >= |tokens| { Fail(); return None; }
        if tokens[pos].typ !in {KEY, VALUE, BLOCK_END} {
          ev := ParseChild(ParseBlockMappingValue, true, true, [Map(true)]);
        } else {
          ev := EmptyNode(ParseBlockMappingValue, [Map(true)]);
        }
        return;
      } else if tokens[pos].typ == BLOCK_END {
        EndStep(Map(true), FramesAll(states));
        CloseCollection();
        CarriesNothing(Texts());
        return Some(MappingEnd);
      }
      FailInCollection();
      return None;
    }

    /** block_mapping, at a value */
    method BlockMappingValue() returns (ev: Opt<Event>)
      requires Good() && state == ParseBlockMappingValue
      modifies this
      ensures Emits(ev)
      ensures Took(BlockValueNext(tokens, old(M())), ev)
    {
      hide StackOk, StatesOk, Step, Fill, FramesAll, MarksAll, Parser.Good, Parser.Place, TextsOf, TextOf, EventTexts, Carried, ChildNext, NodeNext;
      ghost var rest := FramesAll(states);
      Fills();
      Facts();
      if pos >= |tokens| { Fail(); return None; }
      if tokens[pos].typ == VALUE {
        Skip();
        if pos >= |tokens| { Fail(); return None; }
        if tokens[pos].typ !in {KEY, VALUE, BLOCK_END} {
          ev := ParseChild(ParseBlockMappingKey, true, true, [Map(false)]);
          return;
        }
      }
      ev := EmptyNode(ParseBlockMappingKey, [Map(false)]);
    }

    // ---------- flow collections ----------

    /** flow_sequence ::= FLOW-SEQUENCE-START (flow_sequence_entry FLOW-ENTRY)* flow_sequence_entry? FLOW-SEQUENCE-END */
    method FlowSequenceEntry(first: bool) returns (ev: Opt<Event>)
      requires Good() && state == if first then ParseFlowSequenceFirstEntry else ParseFlowSequenceEntry
      modifies this
      ensures Emits(ev)
      ensures Took(FlowSequenceNext(tokens, if first then Skipped(old(M())) else old(M()), first), ev)
    {
      hide StackOk, StatesOk, Step, Parser.Good, Parser.Place, Parser.Inside, TextsOf, TextOf, EventTexts, Carried, FlowSequenceNext;
      NoEntry(tokens, if first then Skipped(M()) else M(), first);
      Facts();
      var ok := EnterCollection(first);
      if !ok { return None; }
      ev := FlowSequenceRest(first);
    }

    method FlowSequenceRest(first: bool) returns (ev: Opt<Event>)
      requires Inside() && pos < |tokens|
      modifies this
      ensures Continues(Seq, !first, ev)
      ensures Took(FlowSequenceNext(tokens, old(M()), first), ev)
    {
      hide StackOk, StatesOk, Step, Parser.Good, Parser.Place, Parser.Inside, TextsOf, TextOf, EventTexts, Carried, ChildNext;
      if tokens[pos].typ != FLOW_SEQUENCE_END {
        var ok := FlowSeparator(first);
        if !ok { return None; }
        if tokens[pos].typ != FLOW_SEQUENCE_END {
          ev := FlowSequenceItem();
          return;
        }
      }
      ev := FlowSequenceClose();
    }

    method FlowSequenceClose() returns (ev: Opt<Event>)
      requires Inside() && pos < |tokens| && tokens[pos].typ == FLOW_SEQUENCE_END
      modifies this
      ensures Continues(Seq, true, ev)
      ensures Took(Some(Turn(SequenceEnd, Skipped(Resumed(old(M()))))), ev)
    {
      hide StackOk, Step, Parser.Good, Parser.Place, TextsOf, TextOf, EventTexts, Carried;
      EndStep(Seq, FramesAll(states));
      CloseCollection();
      CarriesNothing(Texts());
      return Some(SequenceEnd);
    }

    method FlowSequenceItem() returns (ev: Opt<Event>)
      requires Inside() && pos < |tokens|
      modifies this
      ensures Continues(Seq, false, ev)
      ensures Took(if TypeIn(tokens, old(pos), {KEY}) then Some(Turn(MappingStart([], [], true), Skipped(Go(old(M()), ParseFlowSequenceEntryMappingKey)))) else ChildNext(tokens, old(M()), ParseFlowSequenceEntry, false, false), ev)
    {
      hide StackOk, StatesOk, Step, Fill, FramesAll, MarksAll, Parser.Good, Parser.Place, TextsOf, TextOf, EventTexts, Carried, ChildNext;
      ghost var rest := FramesAll(states);
      Fills();
      if tokens[pos].typ == KEY {
        Skip();
        Become(ParseFlowSequenceEntryMappingKey);
        ev := Some(MappingStart([], [], true));
        NodeStep([Seq], [Seq], rest);
        CarriesNothing(Texts());
        PairFrames(rest);
      } else {
        ev := ParseChild(ParseFlowSequenceEntry, false, false, [Seq]);
      }
    }

    /** flow_sequence_entry ::= KEY flow_node? ..., at the key */
    method FlowSequenceEntryMappingKey() returns (ev: Opt<Event>)
      requires Good() && state == ParseFlowSequenceEntryMappingKey
      modifies this
      ensures Emits(ev)
      ensures Took(PairKeyNext(tokens, old(M())), ev)
    {
      hide StackOk, StatesOk, Step, Fill, FramesAll, MarksAll, Parser.Good, Parser.Place, TextsOf, TextOf, EventTexts, Carried, ChildNext;
      NoToken(tokens, M());
      ghost var rest := FramesAll(states);
      Fills();
      Facts();
      if pos >= |tokens| { Fail(); return None; }
      if tokens[pos].typ !in {VALUE, FLOW_ENTRY, FLOW_SEQUENCE_END} {
        ev := ParseChild(ParseFlowSequenceEntryMappingValue, false, false, [Map(true), Seq]);
      } else {
        Skip();
        ev := EmptyNode(ParseFlowSequenceEntryMappingValue, [Map(true), Seq]);
      }
    }

    /** flow_sequence_entry ::= ... (VALUE flow_node?)?, at the value */
    method FlowSequenceEntryMappingValue() returns (ev: Opt<Event>)
      requires Good() && state == ParseFlowSequenceEntryMappingValue
      modifies this
      ensures Emits(ev)
      ensures Took(PairValueNext(tokens, old(M())), ev)
    {
      hide StackOk, StatesOk, Step, Fill, FramesAll, MarksAll, Parser.Good, Parser.Place, TextsOf, TextOf, EventTexts, Carried, ChildNext, NodeNext;
      ghost var rest := FramesAll(states);
      Fills();
      Facts();
      if pos >= |tokens| { Fail(); return None; }
      if tokens[pos].typ == VALUE {
        Skip();
        if pos >= |tokens| { Fail(); return None; }
        if tokens[pos].typ !in {FLOW_ENTRY, FLOW_SEQUENCE_END} {
          ev := ParseChild(ParseFlowSequenceEntryMappingEnd, false, false, [Map(false), Seq]);
          return;
        }
      }
      ev := EmptyNode(ParseFlowSequenceEntryMappingEnd, [Map(false), Seq]);
    }

    /** flow_sequence_entry, behind the value */
    method FlowSequenceEntryMappingEnd() returns (ev: Opt<Event>)
      requires Good() && state == ParseFlowSequenceEntryMappingEnd
      modifies this
      ensures Emits(ev)
      ensures Took(PairEndNext(tokens, old(M())), ev)
    {
      hide StackOk, StatesOk, Step, Fill, FramesAll, MarksAll, Parser.Good, Parser.Place, TextsOf, TextOf, EventTexts, Carried;
      ghost var rest := FramesAll(states);
      Fills();
      Facts();
      if pos >= |tokens| { Fail(); return None; }
      Become(ParseFlowSequenceEntry);
      EndStep(Map(true), [Seq] + rest);
      PairFrames(rest);
      CarriesNothing(Texts());
      return Some(MappingEnd);
    }

    /** flow_mapping, at a key */
    method FlowMappingKey(first: bool) returns (ev: Opt<Event>)
      requires Good() && state == if first then ParseFlowMappingFirstKey else ParseFlowMappingKey
      modifies this
      ensures Emits(ev)
      ensures Took(FlowMappingNext(tokens, if first then Skipped(old(M())) else old(M()), first), ev)
    {
      hide StackOk, StatesOk, Step, Parser.Good, Parser.Place, Parser.Inside, TextsOf, TextOf, EventTexts, Carried, FlowMappingNext;
      NoEntry(tokens, if first then Skipped(M()) else M(), first);
      Facts();
      var ok := EnterCollection(first);
      if !ok { return None; }
      ev := FlowMappingRest(first);
    }

    method FlowMappingRest(first: bool) returns (ev: Opt<Event>)
      requires Inside() && pos < |tokens|
      modifies this
      ensures Continues(Map(true), !first, ev)
      ensures Took(FlowMappingNext(tokens, old(M()), first), ev)
    {
      hide StackOk, StatesOk, Step, Parser.Good, Parser.Place, Parser.Inside, TextsOf, TextOf, EventTexts, Carried, ChildNext;
      if tokens[pos].typ != FLOW_MAPPING_END {
        var ok := FlowSeparator(first);
        if !ok { return None; }
        if tokens[pos].typ == KEY {
          ev := FlowMappingPair();
          return;
        } else if tokens[pos].typ != FLOW_MAPPING_END {
          ev := FlowMappingLoneKey();
          return;
        }
      }
      ev := FlowMappingClose();
    }

    method FlowMappingClose() returns (ev: Opt<Event>)
      requires Inside() && pos < |tokens| && tokens[pos].typ == FLOW_MAPPING_END
      modifies this
      ensures Continues(Map(true), true, ev)
      ensures Took(Some(Turn(MappingEnd, Skipped(Resumed(old(M()))))), ev)
    {
      hide StackOk, Step, Parser.Good, Parser.Place, TextsOf, TextOf, EventTexts, Carried;
      EndStep(Map(true), FramesAll(states));
      CloseCollection();
      CarriesNothing(Texts());
      return Some(MappingEnd);
    }

    /** KEY flow_node? */
    method FlowMappingPair() returns (ev: Opt<Event>)
      requires Inside() && pos < |tokens| && tokens[pos].typ == KEY
      modifies this
      ensures Continues(Map(true), true, ev)
      ensures Took(ChildOrEmpty(tokens, Skipped(old(M())), ParseFlowMappingValue, false, false, {VALUE, FLOW_ENTRY, FLOW_MAPPING_END}), ev)
    {
      hide StackOk, StatesOk, Step, Fill, FramesAll, MarksAll, Parser.Good, Parser.Place, TextsOf, TextOf, EventTexts, Carried, ChildNext;
      Fills();
      Skip();
      if pos >= |tokens| { Fail(); return None; }
      if tokens[pos].typ !in {VALUE, FLOW_ENTRY, FLOW_MAPPING_END} {
        ev := ParseChild(ParseFlowMappingValue, false, false, [Map(true)]);
      } else {
        ev := EmptyNode(ParseFlowMappingValue, [Map(true)]);
      }
    }

    /** A key without a value. */
    method FlowMappingLoneKey() returns (ev: Opt<Event>)
      requires Inside()
      modifies this
      ensures Continues(Map(true), false, ev)
      ensures Took(ChildNext(tokens, old(M()), ParseFlowMappingEmptyValue, false, false), ev)
    {
      hide StackOk, StatesOk, Step, Fill, FramesAll, MarksAll, Parser.Good, Parser.Place, TextsOf, TextOf, EventTexts, Carried, ChildNext;
      Fills();
      ev := ParseChild(ParseFlowMappingEmptyValue, false, false, [Map(true)]);
    }

    /** flow_mapping, at a value */
    method FlowMappingValue(empty: bool) returns (ev: Opt<Event>)
      requires Good() && state == if empty then ParseFlowMappingEmptyValue else ParseFlowMappingValue
      modifies this
      ensures Emits(ev)
      ensures Took(FlowValueNext(tokens, old(M()), empty), ev)
    {
      hide StackOk, StatesOk, Step, Fill, FramesAll, MarksAll, Parser.Good, Parser.Place, TextsOf, TextOf, EventTexts, Carried, ChildNext, NodeNext;
      ghost var rest := FramesAll(states);
      Fills();
      Facts();
      if pos >= |tokens| { Fail(); return None; }
      if !empty && tokens[pos].typ == VALUE {
        Skip();
        if pos >= |tokens| { Fail(); return None; }
        if tokens[pos].typ !in {FLOW_ENTRY, FLOW_MAPPING_END} {
          ev := ParseChild(ParseFlowMappingKey, false, false, [Map(false)]);
          return;
        }
      }
      ev := EmptyNode(ParseFlowMappingKey, [Map(false)]);
    }

    // ---------- documents ----------

    /** stream ::= STREAM-START ... */
    method StreamStart() returns (ev: Opt<Event>)
      requires Good() && state == ParseStreamStart
      modifies this
      ensures Emits(ev)
      ensures ev.Some? ==> pos == old(pos) + 1
      ensures ev.Some? <==> old(pos) < |tokens| && tokens[old(pos)].typ == STREAM_START
      ensures Took(StreamStartNext(tokens, old(M())), ev)
    {
      hide TextsOf, TextOf, EventTexts, Carried;
      DocumentSteps();
      CarriesNothing(Texts());
      if pos >= |tokens| { Fail(); return None; }
      if tokens[pos].typ != STREAM_START { Fail(); return None; }
      state := ParseImplicitDocumentStart;
      Skip();
      return Some(Event.StreamStart);
    }

    /** append_tag_directive: a handle may be defined once, except that the defaults give way. */
    method AppendTagDirective(d: TagDirective, allowDuplicates: bool) returns (ok: bool)
      modifies this`tagDirectives, this`failed
      ensures ok == (allowDuplicates || !HasHandle(old(tagDirectives), d.handle))
      ensures tagDirectives == if HasHandle(old(tagDirectives), d.handle) then old(tagDirectives) else old(tagDirectives) + [d]
      ensures failed == (old(failed) || !ok)
    {
      var i := 0;
      while i < |tagDirectives|
        invariant 0 <= i <= |tagDirectives| && tagDirectives == old(tagDirectives) && failed == old(failed)
        invariant HasHandle(tagDirectives, d.handle) == HasHandle(tagDirectives[i..], d.handle)
      {
        assert tagDirectives[i..][1..] == tagDirectives[i + 1..];
        if tagDirectives[i].handle == d.handle {
          if !allowDuplicates {
            Fail();
          }
          return allowDuplicates;
        }
        i := i + 1;
      }
      tagDirectives := tagDirectives + [d];
      return true;
    }

    /** process_directives: at most one %YAML, of version 1.1, and %TAG directives with distinct handles. */
    method ProcessDirectives() returns (ok: bool)
      requires pos <= |tokens| && !streamEndProduced
      modifies this`pos, this`streamEndProduced, this`tagDirectives, this`failed
      ensures !ok ==> failed
      ensures ok ==>
        && Texts() == old(Texts())
        && failed == old(failed) && !streamEndProduced && old(pos) <= pos < |tokens|
        && tokens[pos].typ !in {VERSION_DIRECTIVE, TAG_DIRECTIVE}
        && (old(pos) < |tokens| && tokens[old(pos)].typ !in {VERSION_DIRECTIVE, TAG_DIRECTIVE} ==> pos == old(pos))
      ensures DirectivesAt(tokens, old(pos), false, old(tagDirectives)) == if ok then Some(Prologue(pos, tagDirectives)) else None
    {
      hide HasHandle, WithDefaults, TextsOf, TextOf;
      if pos >= |tokens| { Fail(); return false; }
      var versionSeen := false;
      while tokens[pos].typ in {VERSION_DIRECTIVE, TAG_DIRECTIVE}
        invariant old(pos) <= pos < |tokens| && failed == old(failed) && !streamEndProduced && Texts() == old(Texts())
        invariant tokens[old(pos)].typ !in {VERSION_DIRECTIVE, TAG_DIRECTIVE} ==> pos == old(pos)
        invariant DirectivesAt(tokens, old(pos), false, old(tagDirectives)) == DirectivesAt(tokens, pos, versionSeen, tagDirectives)
        decreases |tokens| - pos
      {
        var t := tokens[pos];
        if t.typ == VERSION_DIRECTIVE {
          if versionSeen || t.major != 1 || t.minor != 1 { Fail(); return false; }
          versionSeen := true;
        } else {
          ok := AppendTagDirective(TagDirective(t.value, t.prefix), false);
          if !ok { return; }
        }
        Skip();
        if pos >= |tokens| { Fail(); return false; }
      }
      AddDefaults();
      return true;
    }

    /** The default tag directives come last, and give way to those of the document. */
    method AddDefaults()
      modifies this`tagDirectives, this`failed
      ensures failed == old(failed) && tagDirectives == WithDefaults(old(tagDirectives))
    {
      hide HasHandle;
      var i := 0;
      while i < |DEFAULT_TAG_DIRECTIVES|
        invariant failed == old(failed) && 0 <= i <= 2
        invariant tagDirectives == if i == 0 then old(tagDirectives)
          else if i == 1 then WithDefault(old(tagDirectives), DEFAULT_TAG_DIRECTIVES[0]) else WithDefaults(old(tagDirectives))
      {
        var _ := AppendTagDirective(DEFAULT_TAG_DIRECTIVES[i], true);
        i := i + 1;
      }
    }

    /** Skip the document end indicators left over from the previous document. */
    method SkipDocumentEnds() returns (ok: bool)
      requires pos < |tokens| && !streamEndProduced
      modifies this`pos, this`streamEndProduced, this`failed
      ensures !ok ==> failed
      ensures ok ==> old(pos) <= pos < |tokens| && failed == old(failed) && !streamEndProduced && Texts() == old(Texts())
      ensures if ok then pos == PastEnds(tokens, old(pos)) else PastEnds(tokens, old(pos)) >= |tokens|
    {
      while tokens[pos].typ == DOCUMENT_END
        invariant old(pos) <= pos < |tokens| && failed == old(failed) && !streamEndProduced && Texts() == old(Texts())
        invariant PastEnds(tokens, old(pos)) == PastEnds(tokens, pos)
        decreases |tokens| - pos
      {
        Skip();
        if pos >= |tokens| { Fail(); return false; }
      }
      return true;
    }

    /** Between two documents. */
    ghost predicate BetweenDocuments()
      reads this
    {
      pos <= |tokens| && states == [] && marks == [] && !streamEndProduced
    }

    /** A document opens, about to be parsed in the given state. */
    method OpenDocument(s: ParserState)
      requires BetweenDocuments() && (s == ParseBlockNode || s == ParseDocumentContent)
      modifies this`state, this`states
      ensures Good() && Place() == In([Doc(false)]) && Weight() == 7 && !streamEndProduced
      ensures M() == Machine(pos, s, old(states) + [ParseDocumentEnd], tagDirectives)
    {
      hide FramesAll, MarksAll, WeightAll, StackOk, TextsOf, TextOf, EventTexts, Carried;
      ContentFrames();
      states := states + [ParseDocumentEnd];
      state := s;
      assert states == [ParseDocumentEnd];
    }

    /** implicit_document, explicit_document or the end of the stream */
    method DocumentStart(implicit: bool) returns (ev: Opt<Event>)
      requires Good() && state == if implicit then ParseImplicitDocumentStart else ParseDocumentStart
      modifies this
      ensures Emits(ev)
      ensures Took(DocumentStartNext(tokens, old(M()), implicit), ev)
    {
      hide Step, StackOk, Parser.Good, TextsOf, TextOf, EventTexts, Carried, DirectivesAt, PastEnds, FramesAll, MarksAll, WeightAll, Place, StackOk, FramesOf, WeightOf, MarksOf;
      DocumentSteps();
      StartFacts();
      CarriesNothing(Texts());
      if pos >= |tokens| { Fail(); return None; }
      if !implicit {
        var ok := SkipDocumentEnds();
        if !ok { return None; }
      }
      if implicit && tokens[pos].typ !in {VERSION_DIRECTIVE, TAG_DIRECTIVE, DOCUMENT_START, STREAM_END} {
        var ok := ProcessDirectives();
        if !ok { return None; }
        OpenDocument(ParseBlockNode);
        ev := Some(Event.DocumentStart);
      } else if tokens[pos].typ != STREAM_END {
        ev := ExplicitDocument();
      } else {
        ev := EndStream();
      }
    }

    lemma StartFacts()
      requires Good() && (state == ParseImplicitDocumentStart || state == ParseDocumentStart)
      ensures BetweenDocuments() && Place() == In([])
      ensures state == ParseImplicitDocumentStart ==> Weight() == 10
    {
    }

    /** DIRECTIVE* DOCUMENT-START */
    method ExplicitDocument() returns (ev: Opt<Event>)
      requires BetweenDocuments() && pos < |tokens|
      modifies this
      ensures if ev.None? then failed
        else Good() && failed == old(failed) && ev.value.DocumentStart? && Place() == In([Doc(false)]) && pos > old(pos) && Texts() == old(Texts())
      ensures var p := DirectivesAt(tokens, old(pos), false, old(tagDirectives));
        Took(if p.Some? && TypeIn(tokens, p.value.pos, {DOCUMENT_START})
             then Some(Turn(Event.DocumentStart, Machine(p.value.pos + 1, ParseDocumentContent, old(states) + [ParseDocumentEnd], p.value.directives)))
             else None, ev)
    {
      hide TextsOf, TextOf, EventTexts, Carried, DirectivesAt, StackOk, StatesOk, NestOf, MarksAll, Parser.Good, Parser.Place;
      var ok := ProcessDirectives();
      if !ok { return None; }
      if tokens[pos].typ != DOCUMENT_START { Fail(); return None; }
      EnterContent();
      return Some(Event.DocumentStart);
    }

    /** Over the start indicator into an explicit document. */
    method EnterContent()
      requires BetweenDocuments() && pos < |tokens| && tokens[pos].typ == DOCUMENT_START
      modifies this`pos, this`state, this`states, this`streamEndProduced
      ensures Good() && Place() == In([Doc(false)]) && pos == old(pos) + 1 && Texts() == old(Texts())
      ensures M() == Machine(old(pos) + 1, ParseDocumentContent, old(states) + [ParseDocumentEnd], tagDirectives)
    {
      hide TextsOf, TextOf;
      OpenDocument(ParseDocumentContent);
      Skip();
    }

    method EndStream() returns (ev: Opt<Event>)
      requires BetweenDocuments() && pos < |tokens| && tokens[pos].typ == STREAM_END
      modifies this
      ensures ev == Some(StreamEnd) && Good() && failed == old(failed) && Place() == After && pos > old(pos) && Texts() == old(Texts())
      ensures M() == Skipped(Go(old(M()), ParseEnd))
    {
      state := ParseEnd;
      Skip();
      return Some(StreamEnd);
    }

    /** explicit_document, at its content */
    method DocumentContent() returns (ev: Opt<Event>)
      requires Good() && state == ParseDocumentContent
      modifies this
      ensures Emits(ev)
      ensures Took(DocumentContentNext(tokens, old(M())), ev)
    {
      hide Step, Fill, FramesAll, MarksAll, WeightAll, StackOk, Parser.Good, Parser.Place, TextsOf, TextOf, EventTexts, Carried, NodeNext;
      NoToken(tokens, M());
      ContentFacts();
      ContentFrames();
      DocumentSteps();
      if pos >= |tokens| { Fail(); return None; }
      if tokens[pos].typ in {VERSION_DIRECTIVE, TAG_DIRECTIVE, DOCUMENT_START, DOCUMENT_END, STREAM_END} {
        EndNode(false);
        CarriesNothing(Texts());
        return Some(EMPTY_SCALAR);
      }
      ev := ContentNode(true, false);
    }

    /** The content of a document, parsed as a node. */
    method ContentNode(block: bool, indentlessSequence: bool) returns (ev: Opt<Event>)
      requires Good() && AtContent(state)
      modifies this
      ensures Emits(ev)
      ensures Took(NodeNext(tokens, old(M()), block, indentlessSequence), ev)
    {
      hide Step, Fill, FramesAll, MarksAll, WeightAll, StackOk, Parser.Good, Parser.Place, TextsOf, TextOf, EventTexts, Carried, NodeNext;
      ContentFacts();
      ContentFrames();
      DocumentSteps();
      ev := ParseNode(block, indentlessSequence);
    }

    lemma ContentFacts()
      requires Good() && AtContent(state)
      ensures ReadyForNode() && states == [ParseDocumentEnd] && Place() == In([Doc(false)]) && Weight() == 7
    {
      ContentFrames();
    }

    /** DOCUMENT-END, or its absence */
    method DocumentEnd() returns (ev: Opt<Event>)
      requires Good() && state == ParseDocumentEnd
      modifies this
      ensures Emits(ev)
      ensures Took(DocumentEndNext(tokens, old(M())), ev)
    {
      hide TextsOf, TextOf, EventTexts, Carried;
      DocumentSteps();
      CarriesNothing(Texts());
      if pos >= |tokens| { Fail(); return None; }
      if tokens[pos].typ == DOCUMENT_END {
        Skip();
      }
      tagDirectives := [];
      state := ParseDocumentStart;
      return Some(Event.DocumentEnd);
    }

    // ---------- the state machine ----------

    /** state_machine: one production per state; no state is without one. */
    method StateMachine() returns (ev: Opt<Event>)
      requires Good() && !state.ParseEnd?
      modifies this
      ensures Emits(ev)
      ensures old(state).ParseStreamStart? && ev.Some? ==> pos == old(pos) + 1
      ensures old(state).ParseStreamStart? ==> (ev.Some? <==> old(pos) < |tokens| && tokens[old(pos)].typ == STREAM_START)
      ensures Took(Next(tokens, old(M())), ev)
    {
      match state
      case ParseStreamStart => ev := StreamStart();
      case ParseImplicitDocumentStart => ev := DocumentStart(true);
      case ParseDocumentStart => ev := DocumentStart(false);
      case ParseDocumentContent => ev := DocumentContent();
      case ParseDocumentEnd => ev := DocumentEnd();
      case ParseBlockNode => ev := ContentNode(true, false);
      case ParseBlockNodeOrIndentlessSequence => ev := ContentNode(true, true);
      case ParseFlowNode => ev := ContentNode(false, false);
      case ParseBlockSequenceFirstEntry => ev := BlockSequenceEntry(true);
      case ParseBlockSequenceEntry => ev := BlockSequenceEntry(false);
      case ParseIndentlessSequenceEntry => ev := IndentlessSequenceEntry();
      case ParseBlockMappingFirstKey => ev := BlockMappingKey(true);
      case ParseBlockMappingKey => ev := BlockMappingKey(false);
      case ParseBlockMappingValue => ev := BlockMappingValue();
      case ParseFlowSequenceFirstEntry => ev := FlowSequenceEntry(true);
      case ParseFlowSequenceEntry => ev := FlowSequenceEntry(false);
      case ParseFlowSequenceEntryMappingKey => ev := FlowSequenceEntryMappingKey();
      case ParseFlowSequenceEntryMappingValue => ev := FlowSequenceEntryMappingValue();
      case ParseFlowSequenceEntryMappingEnd => ev := FlowSequenceEntryMappingEnd();
      case ParseFlowMappingFirstKey => ev := FlowMappingKey(true);
      case ParseFlowMappingKey => ev := FlowMappingKey(false);
      case ParseFlowMappingValue => ev := FlowMappingValue(false);
      case ParseFlowMappingEmptyValue => ev := FlowMappingValue(true);
    }

    /** A collection starts with its start token. */
    lemma StartsOk()
      requires Good()
      ensures state in {ParseBlockSequenceFirstEntry, ParseBlockMappingFirstKey, ParseFlowSequenceFirstEntry, ParseFlowMappingFirstKey} ==>
        pos < |tokens| && tokens[pos].typ != TAG
    {
    }

    /** parse: the next event; none after the end of the stream or an error. */
    method Parse() returns (r: Parsed)
      requires failed || Sound()
      modifies this
      ensures r.Error? ==> failed && !old(failed) && emitted == old(emitted)
      ensures r.Nothing? <==> old(failed) || old(Place()) == After
      ensures r.Nothing? ==> emitted == old(emitted) && failed == old(failed)
      ensures r.Got? ==>
        && !failed && Sound() && emitted == old(emitted) + [r.event]
        && old(pos) < |tokens| && Step(old(Place()), r.event) == Some(Place()) && Moved()
        && Carried(old(Texts()), Texts(), r.event)
      ensures old(state).ParseStreamStart? && r.Got? ==> pos == old(pos) + 1
      ensures !old(failed) && old(state).ParseStreamStart? ==>
        (r.Got? <==> old(pos) < |tokens| && tokens[old(pos)].typ == STREAM_START)
      ensures !old(failed) && !old(state).ParseEnd? ==>
        match Next(tokens, old(M()))
        case None => r == Error
        case Some(turn) => r == Got(turn.event) && M() == turn.machine
      ensures r.Got? && IsNode(r.event) ==>
        r.event == Scalar([], [], [], true, false) || Announced(tokens, old(tagDirectives), old(pos), pos, r.event)
      ensures r.Error? ==> Stopped()
    {
      hide Step, Fill, StackOk, FramesOf, WeightOf, MarksOf, TextsOf, TextOf, EventTexts, Carried, Announced, Next, Goes;
      if streamEndProduced || failed || state == ParseEnd {
        return Nothing;
      }
      assert Place() != After;
      StartsOk();
      NextAnnounced(tokens, M());
      ghost var before, m := emitted, M();
      var ev := StateMachine();
      if ev.None? {
        emitted := before;
        return Error;
      }
      RunNext(before, ev.value);
      AllTextsNext(before, ev.value, Texts());
      GoesNext(tokens, START, before, m, Next(tokens, m).value);
      emitted := before + [ev.value];
      return Got(ev.value);
    }
  }

  datatype Parsed = Got(event: Event) | Nothing | Error

  /** The steps between documents and at their content. */
  lemma DocumentSteps()
    ensures Step(In([]), Event.DocumentStart) == Some(In([Doc(false)]))
    ensures Step(In([]), StreamEnd) == Some(After)
    ensures Step(In([Doc(true)]), Event.DocumentEnd) == Some(In([]))
    ensures forall e :: IsNode(e) ==> Step(In([Doc(false)]), e) == Some(In(Opened(e) + [Doc(true)]))
    ensures FramesAll([]) == [] && FramesOf(ParseDocumentStart) + FramesAll([]) == []
    ensures FramesOf(ParseImplicitDocumentStart) + FramesAll([]) == []
    ensures FramesOf(ParseDocumentEnd) + FramesAll([]) == [Doc(true)]
    ensures [] + [Doc(true)] == [Doc(true)]
  {
    assert [Doc(true)] + [Doc(false)][1..] == [Doc(true)];
  }

  /** A child node counts in the frame it appears in, whatever lies below. */
  lemma NodeStep(f: seq<Frame>, g: seq<Frame>, rest: seq<Frame>)
    requires Fill(f) == Some(g)
    ensures forall e :: IsNode(e) ==> Step(In(f + rest), e) == Some(In(Opened(e) + (g + rest)))
  {
    assert (f + rest)[0] == f[0] && (f + rest)[1..] == f[1..] + rest;
    match f[0]
    case Doc(_) => assert [Doc(true)] + (f[1..] + rest) == ([Doc(true)] + f[1..]) + rest;
    case Seq =>
    case Map(k) => assert [Map(!k)] + (f[1..] + rest) == ([Map(!k)] + f[1..]) + rest;
  }

  /** The ways a child node fills the frames of a state. */
  lemma Fills()
    ensures Fill([Seq]) == Some([Seq])
    ensures Fill([Map(true)]) == Some([Map(false)]) && Fill([Map(false)]) == Some([Map(true)])
    ensures Fill([Map(true), Seq]) == Some([Map(false), Seq]) && Fill([Map(false), Seq]) == Some([Map(true), Seq])
  {
    assert [Map(true)][1..] == [] && [Map(false)][1..] == [];
    assert [Map(true), Seq][1..] == [Seq] && [Map(false), Seq][1..] == [Seq];
    assert [Map(false)] + [] == [Map(false)] && [Map(true)] + [] == [Map(true)];
    assert [Map(false)] + [Seq] == [Map(false), Seq] && [Map(true)] + [Seq] == [Map(true), Seq];
  }

  lemma PushedOk(states: seq<ParserState>, r: ParserState)
    requires StackOk(states) && Returns(r)
    ensures StackOk(states + [r])
  {
  }

  lemma PairFrames(rest: seq<Frame>)
    ensures [Map(true)] + ([Seq] + rest) == [Map(true), Seq] + rest
  {
  }

  lemma EndStep(top: Frame, rest: seq<Frame>)
    ensures top == Seq ==> Step(In([top] + rest), SequenceEnd) == Some(In(rest))
    ensures top == Map(true) ==> Step(In([top] + rest), MappingEnd) == Some(In(rest))
  {
    assert ([top] + rest)[0] == top && ([top] + rest)[1..] == rest;
  }
}
