/** The parser's next event as a function of the tokens, the state and the states to return to. */
module YamlMachine {
  import opened Keys
  import opened Options
  import opened YamlEvents
  import opened YamlTokens

  /** Where the parser stands: the token it is at, its state, the states to return to, and the tag directives in force. */
  datatype Machine = Machine(pos: nat, state: ParserState, states: seq<ParserState>, directives: seq<TagDirective>)

  /** An event, and where the parser stands behind it. */
  datatype Turn = Turn(event: Event, machine: Machine)

  /** Where every parser begins. */
  const START: Machine := Machine(0, ParseStreamStart, [], [])

  const EMPTY_SCALAR: Event := Scalar([], [], [], true, false)

  predicate TypeIn(ts: seq<Token>, i: nat, types: set<TokenType>) {
    i < |ts| && ts[i].typ in types
  }

  function Go(m: Machine, state: ParserState): Machine {
    m.(state := state)
  }

  function Skipped(m: Machine): Machine {
    m.(pos := m.pos + 1)
  }

  /** Back to the state on top of the stack. */
  function Resumed(m: Machine): Machine {
    if m.states == [] then m else m.(state := m.states[|m.states| - 1], states := m.states[..|m.states| - 1])
  }

  // ---------- nodes ----------

  datatype Properties = Properties(anchor: Bytes, tag: Opt<Token>, pos: nat)

  /** properties ::= TAG ANCHOR? | ANCHOR TAG?, with a token behind them */
  function PropertiesAt(ts: seq<Token>, i: nat): Opt<Properties> {
    if i >= |ts| then None
    else if ts[i].typ == ANCHOR then
      if i + 1 >= |ts| then None
      else if ts[i + 1].typ == TAG then (if i + 2 >= |ts| then None else Some(Properties(ts[i].value, Some(ts[i + 1]), i + 2)))
      else Some(Properties(ts[i].value, None, i + 1))
    else if ts[i].typ == TAG then
      if i + 1 >= |ts| then None
      else if ts[i + 1].typ == ANCHOR then (if i + 2 >= |ts| then None else Some(Properties(ts[i + 1].value, Some(ts[i]), i + 2)))
      else Some(Properties([], Some(ts[i]), i + 1))
    else Some(Properties([], None, i))
  }

  /** The prefix of the first directive for a handle; empty if there is none. */
  function PrefixFor(directives: seq<TagDirective>, handle: Bytes): Bytes {
    if directives == [] then [] else if directives[0].handle == handle then directives[0].prefix else PrefixFor(directives[1..], handle)
  }

  predicate HasHandle(directives: seq<TagDirective>, handle: Bytes) {
    directives != [] && (directives[0].handle == handle || HasHandle(directives[1..], handle))
  }

  /** The full tag: the suffix alone, or the prefix its handle stands for with the suffix; none for an undefined handle. */
  function Resolved(directives: seq<TagDirective>, t: Token): Opt<Bytes> {
    if |t.value| == 0 then Some(t.suffix)
    else
      var tag := PrefixFor(directives, t.value) + if HasHandle(directives, t.value) then t.suffix else [];
      if |tag| > 0 then Some(tag) else None
  }

  function TagOf(directives: seq<TagDirective>, t: Opt<Token>): Opt<Bytes> {
    if t.None? then Some([]) else Resolved(directives, t.value)
  }

  /** A node behind its properties. */
  function ContentNext(ts: seq<Token>, m: Machine, block: bool, indentlessSequence: bool, anchor: Bytes, tag: Bytes): Opt<Turn>
    requires m.pos < |ts|
  {
    var t, implicit := ts[m.pos], |tag| == 0;
    if indentlessSequence && t.typ == BLOCK_ENTRY then
      Some(Turn(SequenceStart(anchor, tag, implicit), Go(m, ParseIndentlessSequenceEntry)))
    else if t.typ == SCALAR then
      var plainImplicit := (|tag| == 0 && t.plain) || tag == BANG;
      Some(Turn(Scalar(anchor, tag, t.value, plainImplicit, !plainImplicit && |tag| == 0), Skipped(Resumed(m))))
    else if t.typ == FLOW_SEQUENCE_START then Some(Turn(SequenceStart(anchor, tag, implicit), Go(m, ParseFlowSequenceFirstEntry)))
    else if t.typ == FLOW_MAPPING_START then Some(Turn(MappingStart(anchor, tag, implicit), Go(m, ParseFlowMappingFirstKey)))
    else if block && t.typ == BLOCK_SEQUENCE_START then
      Some(Turn(SequenceStart(anchor, tag, implicit), Go(m, ParseBlockSequenceFirstEntry)))
    else if block && t.typ == BLOCK_MAPPING_START then
      Some(Turn(MappingStart(anchor, tag, implicit), Go(m, ParseBlockMappingFirstKey)))
    else if |anchor| > 0 || |tag| > 0 then Some(Turn(Scalar(anchor, tag, [], implicit, false), Resumed(m)))
    else None
  }

  function NodeNext(ts: seq<Token>, m: Machine, block: bool, indentlessSequence: bool): Opt<Turn> {
    if TypeIn(ts, m.pos, {ALIAS}) then Some(Turn(Alias(ts[m.pos].value), Skipped(Resumed(m))))
    else
      match PropertiesAt(ts, m.pos)
      case None => None
      case Some(p) =>
        match TagOf(m.directives, p.tag)
        case None => None
        case Some(tag) => if p.pos < |ts| then ContentNext(ts, m.(pos := p.pos), block, indentlessSequence, p.anchor, tag) else None
  }

  /** A node, with a state to return to behind it. */
  function ChildNext(ts: seq<Token>, m: Machine, r: ParserState, block: bool, indentlessSequence: bool): Opt<Turn> {
    NodeNext(ts, m.(states := m.states + [r]), block, indentlessSequence)
  }

  lemma NoToken(ts: seq<Token>, m: Machine)
    ensures m.pos >= |ts| ==> PropertiesAt(ts, m.pos).None?
    ensures m.pos >= |ts| ==> forall block, indentlessSequence :: NodeNext(ts, m, block, indentlessSequence).None?
    ensures m.pos >= |ts| ==> forall r, block, indentlessSequence :: ChildNext(ts, m, r, block, indentlessSequence).None?
  {
  }

  /** A child node, unless one of these tokens says that it is missing. */
  function ChildOrEmpty(ts: seq<Token>, m: Machine, r: ParserState, block: bool, indentlessSequence: bool, ends: set<TokenType>): Opt<Turn> {
    if m.pos >= |ts| then None
    else if ts[m.pos].typ in ends then Some(Turn(EMPTY_SCALAR, Go(m, r)))
    else ChildNext(ts, m, r, block, indentlessSequence)
  }

  // ---------- block collections ----------

  function BlockSequenceNext(ts: seq<Token>, m: Machine): Opt<Turn> {
    if TypeIn(ts, m.pos, {BLOCK_ENTRY}) then
      ChildOrEmpty(ts, Skipped(m), ParseBlockSequenceEntry, true, false, {BLOCK_ENTRY, BLOCK_END})
    else if TypeIn(ts, m.pos, {BLOCK_END}) then Some(Turn(SequenceEnd, Skipped(Resumed(m))))
    else None
  }

  function IndentlessSequenceNext(ts: seq<Token>, m: Machine): Opt<Turn> {
    if TypeIn(ts, m.pos, {BLOCK_ENTRY}) then
      ChildOrEmpty(ts, Skipped(m), ParseIndentlessSequenceEntry, true, false, {BLOCK_ENTRY, KEY, VALUE, BLOCK_END})
    else if m.pos < |ts| then Some(Turn(SequenceEnd, Resumed(m)))
    else None
  }

  function BlockMappingNext(ts: seq<Token>, m: Machine): Opt<Turn> {
    if TypeIn(ts, m.pos, {KEY}) then ChildOrEmpty(ts, Skipped(m), ParseBlockMappingValue, true, true, {KEY, VALUE, BLOCK_END})
    else if TypeIn(ts, m.pos, {BLOCK_END}) then Some(Turn(MappingEnd, Skipped(Resumed(m))))
    else None
  }

  function BlockValueNext(ts: seq<Token>, m: Machine): Opt<Turn> {
    if TypeIn(ts, m.pos, {VALUE}) then ChildOrEmpty(ts, Skipped(m), ParseBlockMappingKey, true, true, {KEY, VALUE, BLOCK_END})
    else if m.pos < |ts| then Some(Turn(EMPTY_SCALAR, Go(m, ParseBlockMappingKey)))
    else None
  }

  // ---------- flow collections ----------

  /** Behind the comma that separates an entry from the one before; none if it is missing. */
  function Separated(ts: seq<Token>, m: Machine, first: bool): Opt<Machine> {
    if first then Some(m)
    else if TypeIn(ts, m.pos, {FLOW_ENTRY}) && m.pos + 1 < |ts| then Some(Skipped(m))
    else None
  }

  function FlowSequenceNext(ts: seq<Token>, m: Machine, first: bool): Opt<Turn> {
    if TypeIn(ts, m.pos, {FLOW_SEQUENCE_END}) then Some(Turn(SequenceEnd, Skipped(Resumed(m))))
    else
      match Separated(ts, m, first)
      case None => None
      case Some(n) => FlowEntryNext(ts, n)
  }

  /** An entry of a flow sequence, or its end. */
  function FlowEntryNext(ts: seq<Token>, m: Machine): Opt<Turn> {
    if TypeIn(ts, m.pos, {KEY}) then Some(Turn(MappingStart([], [], true), Skipped(Go(m, ParseFlowSequenceEntryMappingKey))))
    else if TypeIn(ts, m.pos, {FLOW_SEQUENCE_END}) then Some(Turn(SequenceEnd, Skipped(Resumed(m))))
    else ChildNext(ts, m, ParseFlowSequenceEntry, false, false)
  }

  lemma NoEntry(ts: seq<Token>, m: Machine, first: bool)
    ensures m.pos >= |ts| ==> BlockSequenceNext(ts, m).None? && BlockMappingNext(ts, m).None?
    ensures m.pos >= |ts| ==> FlowSequenceNext(ts, m, first).None? && FlowMappingNext(ts, m, first).None?
  {
    NoToken(ts, m);
  }

  /** The token that shows the key to be missing is consumed, whatever it is. */
  function PairKeyNext(ts: seq<Token>, m: Machine): Opt<Turn> {
    if TypeIn(ts, m.pos, {VALUE, FLOW_ENTRY, FLOW_SEQUENCE_END}) then
      Some(Turn(EMPTY_SCALAR, Skipped(Go(m, ParseFlowSequenceEntryMappingValue))))
    else ChildNext(ts, m, ParseFlowSequenceEntryMappingValue, false, false)
  }

  function PairValueNext(ts: seq<Token>, m: Machine): Opt<Turn> {
    if TypeIn(ts, m.pos, {VALUE}) then
      ChildOrEmpty(ts, Skipped(m), ParseFlowSequenceEntryMappingEnd, false, false, {FLOW_ENTRY, FLOW_SEQUENCE_END})
    else if m.pos < |ts| then Some(Turn(EMPTY_SCALAR, Go(m, ParseFlowSequenceEntryMappingEnd)))
    else None
  }

  function PairEndNext(ts: seq<Token>, m: Machine): Opt<Turn> {
    if m.pos < |ts| then Some(Turn(MappingEnd, Go(m, ParseFlowSequenceEntry))) else None
  }

  function FlowMappingNext(ts: seq<Token>, m: Machine, first: bool): Opt<Turn> {
    if TypeIn(ts, m.pos, {FLOW_MAPPING_END}) then Some(Turn(MappingEnd, Skipped(Resumed(m))))
    else
      match Separated(ts, m, first)
      case None => None
      case Some(n) => FlowPairNext(ts, n)
  }

  /** An entry of a flow mapping, or its end. */
  function FlowPairNext(ts: seq<Token>, m: Machine): Opt<Turn> {
    if TypeIn(ts, m.pos, {KEY}) then
      ChildOrEmpty(ts, Skipped(m), ParseFlowMappingValue, false, false, {VALUE, FLOW_ENTRY, FLOW_MAPPING_END})
    else if TypeIn(ts, m.pos, {FLOW_MAPPING_END}) then Some(Turn(MappingEnd, Skipped(Resumed(m))))
    else ChildNext(ts, m, ParseFlowMappingEmptyValue, false, false)
  }

  function FlowValueNext(ts: seq<Token>, m: Machine, empty: bool): Opt<Turn> {
    if !empty && TypeIn(ts, m.pos, {VALUE}) then
      ChildOrEmpty(ts, Skipped(m), ParseFlowMappingKey, false, false, {FLOW_ENTRY, FLOW_MAPPING_END})
    else if m.pos < |ts| then Some(Turn(EMPTY_SCALAR, Go(m, ParseFlowMappingKey)))
    else None
  }

  // ---------- documents ----------

  /** Past the document end indicators at i. */
  function PastEnds(ts: seq<Token>, i: nat): nat
    decreases |ts| - i
  {
    if TypeIn(ts, i, {DOCUMENT_END}) then PastEnds(ts, i + 1) else i
  }

  datatype Prologue = Prologue(pos: nat, directives: seq<TagDirective>)

  /** The directives at i, with a token behind them: at most one version, 1.1, and no handle defined twice. */
  function DirectivesAt(ts: seq<Token>, i: nat, versionSeen: bool, directives: seq<TagDirective>): Opt<Prologue>
    decreases |ts| - i
  {
    if i >= |ts| then None
    else if ts[i].typ == VERSION_DIRECTIVE then
      if versionSeen || ts[i].major != 1 || ts[i].minor != 1 then None else DirectivesAt(ts, i + 1, true, directives)
    else if ts[i].typ == TAG_DIRECTIVE then
      if HasHandle(directives, ts[i].value) then None
      else DirectivesAt(ts, i + 1, versionSeen, directives + [TagDirective(ts[i].value, ts[i].prefix)])
    else Some(Prologue(i, WithDefaults(directives)))
  }

  /** A default counts unless its handle has been defined. */
  function WithDefault(directives: seq<TagDirective>, d: TagDirective): seq<TagDirective> {
    if HasHandle(directives, d.handle) then directives else directives + [d]
  }

  function WithDefaults(directives: seq<TagDirective>): seq<TagDirective> {
    WithDefault(WithDefault(directives, DEFAULT_TAG_DIRECTIVES[0]), DEFAULT_TAG_DIRECTIVES[1])
  }

  function DocumentStartNext(ts: seq<Token>, m: Machine, implicit: bool): Opt<Turn> {
    var n := if implicit then m else m.(pos := PastEnds(ts, m.pos));
    if m.pos >= |ts| || n.pos >= |ts| then None
    else if implicit && ts[n.pos].typ !in {VERSION_DIRECTIVE, TAG_DIRECTIVE, DOCUMENT_START, STREAM_END} then
      match DirectivesAt(ts, n.pos, false, n.directives)
      case None => None
      case Some(p) => Some(Turn(DocumentStart, Machine(p.pos, ParseBlockNode, n.states + [ParseDocumentEnd], p.directives)))
    else if ts[n.pos].typ != STREAM_END then
      match DirectivesAt(ts, n.pos, false, n.directives)
      case None => None
      case Some(p) =>
        if TypeIn(ts, p.pos, {DOCUMENT_START}) then
          Some(Turn(DocumentStart, Machine(p.pos + 1, ParseDocumentContent, n.states + [ParseDocumentEnd], p.directives)))
        else None
    else Some(Turn(StreamEnd, Skipped(Go(n, ParseEnd))))
  }

  function DocumentContentNext(ts: seq<Token>, m: Machine): Opt<Turn> {
    if TypeIn(ts, m.pos, {VERSION_DIRECTIVE, TAG_DIRECTIVE, DOCUMENT_START, DOCUMENT_END, STREAM_END}) then
      Some(Turn(EMPTY_SCALAR, Resumed(m)))
    else NodeNext(ts, m, true, false)
  }

  function DocumentEndNext(ts: seq<Token>, m: Machine): Opt<Turn> {
    if m.pos >= |ts| then None
    else
      var n := if ts[m.pos].typ == DOCUMENT_END then Skipped(m) else m;
      Some(Turn(DocumentEnd, Go(n, ParseDocumentStart).(directives := [])))
  }

  function StreamStartNext(ts: seq<Token>, m: Machine): Opt<Turn> {
    if TypeIn(ts, m.pos, {STREAM_START}) then Some(Turn(StreamStart, Skipped(Go(m, ParseImplicitDocumentStart)))) else None
  }

  /** The next event, and where it leaves the parser; none where the tokens do not go on as they should. */
  function Next(ts: seq<Token>, m: Machine): Opt<Turn>
    requires !m.state.ParseEnd?
  {
    match m.state
    case ParseStreamStart => StreamStartNext(ts, m)
    case ParseImplicitDocumentStart => DocumentStartNext(ts, m, true)
    case ParseDocumentStart => DocumentStartNext(ts, m, false)
    case ParseDocumentContent => DocumentContentNext(ts, m)
    case ParseDocumentEnd => DocumentEndNext(ts, m)
    case ParseBlockNode => NodeNext(ts, m, true, false)
    case ParseBlockNodeOrIndentlessSequence => NodeNext(ts, m, true, true)
    case ParseFlowNode => NodeNext(ts, m, false, false)
    case ParseBlockSequenceFirstEntry => BlockSequenceNext(ts, Skipped(m))
    case ParseBlockSequenceEntry => BlockSequenceNext(ts, m)
    case ParseIndentlessSequenceEntry => IndentlessSequenceNext(ts, m)
    case ParseBlockMappingFirstKey => BlockMappingNext(ts, Skipped(m))
    case ParseBlockMappingKey => BlockMappingNext(ts, m)
    case ParseBlockMappingValue => BlockValueNext(ts, m)
    case ParseFlowSequenceFirstEntry => FlowSequenceNext(ts, Skipped(m), true)
    case ParseFlowSequenceEntry => FlowSequenceNext(ts, m, false)
    case ParseFlowSequenceEntryMappingKey => PairKeyNext(ts, m)
    case ParseFlowSequenceEntryMappingValue => PairValueNext(ts, m)
    case ParseFlowSequenceEntryMappingEnd => PairEndNext(ts, m)
    case ParseFlowMappingFirstKey => FlowMappingNext(ts, Skipped(m), true)
    case ParseFlowMappingKey => FlowMappingNext(ts, m, false)
    case ParseFlowMappingValue => FlowValueNext(ts, m, false)
    case ParseFlowMappingEmptyValue => FlowValueNext(ts, m, true)
  }

  // ---------- runs of the machine ----------

  /** From here the machine gives exactly these events and then stands there. */
  ghost predicate Goes(ts: seq<Token>, m: Machine, events: seq<Event>, end: Machine)
    decreases |events|
  {
    if events == [] then m == end else !m.state.ParseEnd? && Does(ts, Next(ts, m), events, end)
  }

  ghost predicate Does(ts: seq<Token>, turn: Opt<Turn>, events: seq<Event>, end: Machine)
    requires events != []
    decreases |events|, 0
  {
    turn.Some? && turn.value.event == events[0] && Goes(ts, turn.value.machine, events[1..], end)
  }

  lemma {:induction false} GoesOn(ts: seq<Token>, m: Machine, a: seq<Event>, mid: Machine, b: seq<Event>, end: Machine)
    requires Goes(ts, m, a, mid) && Goes(ts, mid, b, end)
    ensures Goes(ts, m, a + b, end)
    decreases |a|
  {
    hide Next;
    if a == [] {
      assert a + b == b;
    } else {
      GoesOn(ts, Next(ts, m).value.machine, a[1..], mid, b, end);
      assert (a + b)[1..] == a[1..] + b;
    }
  }

  lemma DoesOn(ts: seq<Token>, turn: Opt<Turn>, a: seq<Event>, mid: Machine, b: seq<Event>, end: Machine)
    requires a != [] && Does(ts, turn, a, mid) && Goes(ts, mid, b, end)
    ensures Does(ts, turn, a + b, end)
  {
    hide Next, Goes;
    GoesOn(ts, turn.value.machine, a[1..], mid, b, end);
    assert (a + b)[1..] == a[1..] + b;
  }

  /** One event, and then others. */
  lemma DoesFirst(ts: seq<Token>, turn: Turn, b: seq<Event>, end: Machine)
    requires Goes(ts, turn.machine, b, end)
    ensures Does(ts, Some(turn), [turn.event] + b, end)
  {
    hide Next, Goes;
    assert ([turn.event] + b)[1..] == b;
  }

  lemma DoesLast(ts: seq<Token>, turn: Turn)
    ensures Does(ts, Some(turn), [turn.event], turn.machine)
  {
    assert [turn.event][1..] == [];
  }

  /** A run of the machine is determined by where it begins and how many events it gives. */
  lemma {:induction false} GoesOneWay(ts: seq<Token>, m: Machine, a: seq<Event>, end: Machine, b: seq<Event>, end': Machine)
    requires Goes(ts, m, a, end) && Goes(ts, m, b, end') && |a| <= |b|
    ensures a == b[..|a|] && (|a| == |b| ==> end == end')
    decreases |a|
  {
    hide Next;
    if a != [] {
      GoesOneWay(ts, Next(ts, m).value.machine, a[1..], end, b[1..], end');
      assert a == [a[0]] + a[1..] && b[..|a|] == [b[0]] + b[1..][..|a| - 1];
    }
  }

  lemma GoesNext(ts: seq<Token>, m: Machine, events: seq<Event>, mid: Machine, turn: Turn)
    requires Goes(ts, m, events, mid) && !mid.state.ParseEnd? && Next(ts, mid) == Some(turn)
    ensures Goes(ts, m, events + [turn.event], turn.machine)
  {
    hide Next;
    DoesLast(ts, turn);
    GoesOn(ts, m, events, mid, [turn.event], turn.machine);
  }

  /** A run that can go no further has not yet come to where another one ends. */
  lemma {:induction false} NeverStuck(ts: seq<Token>, m: Machine, a: seq<Event>, mid: Machine, b: seq<Event>, end: Machine)
    requires Goes(ts, m, a, mid) && Goes(ts, m, b, end) && end.state.ParseEnd?
    ensures |a| <= |b| && (if |a| == |b| then mid == end else !mid.state.ParseEnd? && Next(ts, mid).Some?)
    decreases |a|
  {
    hide Next;
    if a != [] && b != [] {
      NeverStuck(ts, Next(ts, m).value.machine, a[1..], mid, b[1..], end);
    }
  }

  // ---------- what announces an event ----------

  /** The token a node's event comes from gives it its kind, its text and, with the tag, its flags. */
  ghost predicate Announces(t: Token, e: Event) {
    match e
    case Alias(name) => t.typ == ALIAS && name == t.value
    case Scalar(_, tag, value, implicit, quotedImplicit) =>
      if t.typ == SCALAR then
        && value == t.value
        && (implicit <==> (t.plain && tag == []) || tag == [0x21]) && (quotedImplicit <==> !t.plain && tag == [])
      else value == [] && (implicit <==> tag == []) && !quotedImplicit
    case SequenceStart(_, tag, implicit) => t.typ in {FLOW_SEQUENCE_START, BLOCK_SEQUENCE_START, BLOCK_ENTRY} && (implicit <==> tag == [])
    case MappingStart(_, tag, implicit) => t.typ in {FLOW_MAPPING_START, BLOCK_MAPPING_START, KEY} && (implicit <==> tag == [])
    case _ => false
  }

  function TagIn(e: Event): Bytes {
    if e.Scalar? || e.SequenceStart? || e.MappingStart? then e.tag else []
  }

  /** The tag of the event is that of the tag token between i and k, and empty if there is none. */
  ghost predicate Tagged(ts: seq<Token>, directives: seq<TagDirective>, i: nat, k: nat, e: Event)
    requires k <= |ts|
  {
    && (forall j :: i <= j < k && ts[j].typ == TAG ==> Resolved(directives, ts[j]) == Some(TagIn(e)))
    && ((forall j :: i <= j < k ==> ts[j].typ != TAG) ==> TagIn(e) == [])
  }

  /** Between i and end there is a token that announces the event, behind its tag. */
  ghost predicate Announced(ts: seq<Token>, directives: seq<TagDirective>, i: nat, end: nat, e: Event) {
    exists k :: i <= k < |ts| && k <= end && Announces(ts[k], e) && Tagged(ts, directives, i, k, e)
  }

  lemma ContentAnnounced(ts: seq<Token>, m: Machine, block: bool, indentlessSequence: bool, anchor: Bytes, tag: Bytes)
    requires m.pos < |ts|
    ensures ContentNext(ts, m, block, indentlessSequence, anchor, tag).Some? ==>
      var turn := ContentNext(ts, m, block, indentlessSequence, anchor, tag).value;
      Announces(ts[m.pos], turn.event) && TagIn(turn.event) == tag && turn.machine.pos >= m.pos
  {
  }

  lemma PropertiesTagged(ts: seq<Token>, i: nat)
    requires PropertiesAt(ts, i).Some?
    ensures var p := PropertiesAt(ts, i).value;
      && i <= p.pos <= i + 2 && p.pos < |ts|
      && (forall j :: i <= j < p.pos && ts[j].typ == TAG ==> p.tag == Some(ts[j]))
      && (p.tag.Some? ==> exists j :: i <= j < p.pos && ts[j].typ == TAG)
  {
    var p := PropertiesAt(ts, i).value;
    if p.tag.Some? {
      assert (p.pos > i && ts[i].typ == TAG) || (p.pos > i + 1 && ts[i + 1].typ == TAG);
    }
  }

  /** A node's event is announced by the token behind its properties. */
  lemma NodeAnnounced(ts: seq<Token>, m: Machine, block: bool, indentlessSequence: bool)
    ensures NodeNext(ts, m, block, indentlessSequence).Some? ==>
      var turn := NodeNext(ts, m, block, indentlessSequence).value;
      Announced(ts, m.directives, m.pos, turn.machine.pos, turn.event)
  {
    hide ContentNext, Resolved, PropertiesAt, Announces;
    var turn := NodeNext(ts, m, block, indentlessSequence);
    if turn.Some? {
      if TypeIn(ts, m.pos, {ALIAS}) {
        AliasAnnounced(ts[m.pos]);
        assert Tagged(ts, m.directives, m.pos, m.pos, turn.value.event);
      } else {
        var p := PropertiesAt(ts, m.pos).value;
        PropertiesTagged(ts, m.pos);
        ContentAnnounced(ts, m.(pos := p.pos), block, indentlessSequence, p.anchor, TagOf(m.directives, p.tag).value);
        assert Tagged(ts, m.directives, m.pos, p.pos, turn.value.event);
      }
    }
  }

  lemma AliasAnnounced(t: Token)
    ensures t.typ == ALIAS ==> Announces(t, Alias(t.value))
  {
  }

  /** Tokens that are no tags may come first. */
  lemma AnnouncedBehind(ts: seq<Token>, directives: seq<TagDirective>, i: nat, i': nat, end: nat, e: Event)
    requires Announced(ts, directives, i', end, e) && i <= i' && forall j :: i <= j < i' && j < |ts| ==> ts[j].typ != TAG
    ensures Announced(ts, directives, i, end, e)
  {
    hide Announces;
    var k :| i' <= k < |ts| && k <= end && Announces(ts[k], e) && Tagged(ts, directives, i', k, e);
    assert Tagged(ts, directives, i, k, e);
  }

  /** A child node that starts at most two tokens from i on, none of them a tag. */
  lemma ChildAnnounced(ts: seq<Token>, i: nat, m: Machine, r: ParserState, block: bool, indentlessSequence: bool)
    requires i <= m.pos && forall j :: i <= j < m.pos && j < |ts| ==> ts[j].typ != TAG
    ensures ChildNext(ts, m, r, block, indentlessSequence).Some? ==>
      var turn := ChildNext(ts, m, r, block, indentlessSequence).value;
      Announced(ts, m.directives, i, turn.machine.pos, turn.event)
  {
    hide NodeNext, Announced;
    NodeAnnounced(ts, m.(states := m.states + [r]), block, indentlessSequence);
    var turn := ChildNext(ts, m, r, block, indentlessSequence);
    if turn.Some? {
      AnnouncedBehind(ts, m.directives, i, m.pos, turn.value.machine.pos, turn.value.event);
    }
  }

  /** The event of every turn that is a node is announced by its token, or stands for a missing node. */
  ghost predicate TurnAnnounced(ts: seq<Token>, m: Machine, turn: Opt<Turn>) {
    turn.Some? && IsNode(turn.value.event) ==>
      turn.value.event == Scalar([], [], [], true, false) || Announced(ts, m.directives, m.pos, turn.value.machine.pos, turn.value.event)
  }

  lemma OrEmptyAnnounced(ts: seq<Token>, m: Machine, n: Machine, r: ParserState, block: bool, indentlessSequence: bool, ends: set<TokenType>)
    requires m.pos <= n.pos && n.directives == m.directives && forall j :: m.pos <= j < n.pos && j < |ts| ==> ts[j].typ != TAG
    ensures TurnAnnounced(ts, m, ChildOrEmpty(ts, n, r, block, indentlessSequence, ends))
    ensures TurnAnnounced(ts, m, ChildNext(ts, n, r, block, indentlessSequence))
  {
    hide ChildNext, Announced;
    ChildAnnounced(ts, m.pos, n, r, block, indentlessSequence);
  }

  lemma BlockAnnounced(ts: seq<Token>, m: Machine)
    ensures TurnAnnounced(ts, m, BlockSequenceNext(ts, m)) && TurnAnnounced(ts, m, IndentlessSequenceNext(ts, m))
    ensures TurnAnnounced(ts, m, BlockMappingNext(ts, m)) && TurnAnnounced(ts, m, BlockValueNext(ts, m))
  {
    hide ChildOrEmpty, Announced;
    if m.pos < |ts| && ts[m.pos].typ != TAG {
      OrEmptyAnnounced(ts, m, Skipped(m), ParseBlockSequenceEntry, true, false, {BLOCK_ENTRY, BLOCK_END});
      OrEmptyAnnounced(ts, m, Skipped(m), ParseIndentlessSequenceEntry, true, false, {BLOCK_ENTRY, KEY, VALUE, BLOCK_END});
      OrEmptyAnnounced(ts, m, Skipped(m), ParseBlockMappingValue, true, true, {KEY, VALUE, BLOCK_END});
      OrEmptyAnnounced(ts, m, Skipped(m), ParseBlockMappingKey, true, true, {KEY, VALUE, BLOCK_END});
    }
  }

  lemma FlowEntryAnnounced(ts: seq<Token>, m: Machine, n: Machine)
    requires m.pos <= n.pos && n.directives == m.directives && forall j :: m.pos <= j < n.pos && j < |ts| ==> ts[j].typ != TAG
    ensures TurnAnnounced(ts, m, FlowEntryNext(ts, n)) && TurnAnnounced(ts, m, FlowPairNext(ts, n))
  {
    hide ChildOrEmpty, ChildNext, Announced;
    OrEmptyAnnounced(ts, m, n, ParseFlowSequenceEntry, false, false, {});
    OrEmptyAnnounced(ts, m, n, ParseFlowMappingEmptyValue, false, false, {});
    if TypeIn(ts, n.pos, {KEY}) {
      OrEmptyAnnounced(ts, m, Skipped(n), ParseFlowMappingValue, false, false, {VALUE, FLOW_ENTRY, FLOW_MAPPING_END});
      PairAnnounced(ts, m, n.pos, n.pos + 1);
    }
  }

  lemma PairAnnounced(ts: seq<Token>, m: Machine, k: nat, end: nat)
    requires m.pos <= k <= end && TypeIn(ts, k, {KEY}) && forall j :: m.pos <= j < k ==> ts[j].typ != TAG
    ensures Announced(ts, m.directives, m.pos, end, MappingStart([], [], true))
  {
    assert Announces(ts[k], MappingStart([], [], true)) && Tagged(ts, m.directives, m.pos, k, MappingStart([], [], true));
  }

  lemma FlowAnnounced(ts: seq<Token>, m: Machine, first: bool)
    ensures TurnAnnounced(ts, m, FlowSequenceNext(ts, m, first)) && TurnAnnounced(ts, m, FlowMappingNext(ts, m, first))
    ensures TurnAnnounced(ts, m, FlowValueNext(ts, m, first))
    ensures TurnAnnounced(ts, m, PairKeyNext(ts, m)) && TurnAnnounced(ts, m, PairValueNext(ts, m)) && TurnAnnounced(ts, m, PairEndNext(ts, m))
  {
    hide ChildOrEmpty, ChildNext, Announced, FlowEntryNext, FlowPairNext;
    FlowEntryAnnounced(ts, m, m);
    OrEmptyAnnounced(ts, m, m, ParseFlowSequenceEntryMappingValue, false, false, {});
    if m.pos < |ts| && ts[m.pos].typ != TAG {
      FlowEntryAnnounced(ts, m, Skipped(m));
      OrEmptyAnnounced(ts, m, Skipped(m), ParseFlowSequenceEntryMappingEnd, false, false, {FLOW_ENTRY, FLOW_SEQUENCE_END});
      OrEmptyAnnounced(ts, m, Skipped(m), ParseFlowMappingKey, false, false, {FLOW_ENTRY, FLOW_MAPPING_END});
    }
  }

  lemma DocumentAnnounced(ts: seq<Token>, m: Machine, implicit: bool)
    ensures TurnAnnounced(ts, m, DocumentStartNext(ts, m, implicit)) && TurnAnnounced(ts, m, DocumentEndNext(ts, m))
    ensures TurnAnnounced(ts, m, StreamStartNext(ts, m)) && TurnAnnounced(ts, m, DocumentContentNext(ts, m))
  {
    hide NodeNext, Announced, DirectivesAt, PastEnds;
    NodeAnnounced(ts, m, true, false);
  }

  /** Whatever the tokens: the next event, if it is a node and none is missing, is what its token and its tag make it. */
  lemma NextAnnounced(ts: seq<Token>, m: Machine)
    requires !m.state.ParseEnd? && (m.state in {ParseBlockSequenceFirstEntry, ParseBlockMappingFirstKey, ParseFlowSequenceFirstEntry, ParseFlowMappingFirstKey} ==> m.pos < |ts| && ts[m.pos].typ != TAG)
    ensures TurnAnnounced(ts, m, Next(ts, m))
  {
    hide Announced, NodeNext, BlockSequenceNext, IndentlessSequenceNext, BlockMappingNext, BlockValueNext, FlowSequenceNext, FlowMappingNext,
      FlowValueNext, PairKeyNext, PairValueNext, PairEndNext, DocumentStartNext, DocumentEndNext, DocumentContentNext, StreamStartNext;
    if m.state in {ParseBlockSequenceFirstEntry, ParseBlockMappingFirstKey, ParseFlowSequenceFirstEntry, ParseFlowMappingFirstKey} {
      BlockAnnounced(ts, Skipped(m));
      FlowAnnounced(ts, Skipped(m), true);
      StartAnnounced(ts, m, Next(ts, m));
    } else {
      BlockAnnounced(ts, m);
      FlowAnnounced(ts, m, true);
      FlowAnnounced(ts, m, false);
      DocumentAnnounced(ts, m, true);
      DocumentAnnounced(ts, m, false);
      NodeAnnounced(ts, m, true, false);
      NodeAnnounced(ts, m, true, true);
      NodeAnnounced(ts, m, false, false);
    }
  }

  lemma StartAnnounced(ts: seq<Token>, m: Machine, turn: Opt<Turn>)
    requires TurnAnnounced(ts, Skipped(m), turn) && m.pos < |ts| && ts[m.pos].typ != TAG
    ensures TurnAnnounced(ts, m, turn)
  {
    hide Announced;
    if turn.Some? && Announced(ts, m.directives, m.pos + 1, turn.value.machine.pos, turn.value.event) {
      AnnouncedBehind(ts, m.directives, m.pos, m.pos + 1, turn.value.machine.pos, turn.value.event);
    }
  }

  // ---------- tags ----------

  /** A handle defined once stands for its prefix. */
  lemma {:induction false} ResolvedMeans(directives: seq<TagDirective>, i: nat, t: Token)
    requires i < |directives| && t.value == directives[i].handle != [] && forall j :: 0 <= j < i ==> directives[j].handle != t.value
    ensures Resolved(directives, t) == if directives[i].prefix + t.suffix == [] then None else Some(directives[i].prefix + t.suffix)
    decreases i
  {
    if i > 0 {
      ResolvedMeans(directives[1..], i - 1, t);
    }
  }

  /** Without a definition of its own "!" stands for itself, and "!!" for "tag:yaml.org,2002:". */
  lemma DefaultTags(suffix: Bytes, t: Token)
    requires t.suffix == suffix
    ensures t.value == [0x21] ==> Resolved(WithDefaults([]), t) == Some([0x21] + suffix)
    ensures t.value == [0x21, 0x21] ==>
      Resolved(WithDefaults([]), t) == Some([0x74, 0x61, 0x67, 0x3A, 0x79, 0x61, 0x6D, 0x6C, 0x2E, 0x6F, 0x72, 0x67, 0x2C, 0x32, 0x30, 0x30, 0x32, 0x3A] + suffix)
    ensures t.value == [] ==> Resolved(WithDefaults([]), t) == Some(suffix)
  {
    var ds := WithDefaults([]);
    assert ds == DEFAULT_TAG_DIRECTIVES;
    if t.value == [0x21] {
      ResolvedMeans(ds, 0, t);
    } else if t.value == [0x21, 0x21] {
      ResolvedMeans(ds, 1, t);
    }
  }
}
