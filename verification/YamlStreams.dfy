/** Parsing a whole stream, call by call. */
module YamlStreams {
  import opened Options
  import opened YamlEvents
  import opened YamlTokens
  import opened YamlMachine
  import opened YamlGrammar
  import opened YamlAcceptance
  import opened YamlParsing

  /** Calls of parse until it has no more events: a stream that follows the grammar gives exactly the events of its documents. */
  method ParseStream(tokens: seq<Token>, ghost docs: seq<Document>) returns (events: seq<Event>, error: bool)
    requires Laid(tokens, 0, StreamTokens(docs)) && DocumentsFit(docs, true)
    ensures !error && events == StreamEvents(docs)
  {
    hide Next, Laid, Goes, Parser.Good, Announced, Carried, StreamTokens, StreamEvents, DocumentsFit;
    StreamRuns(tokens, docs);
    var p := new Parser(tokens);
    ghost var end := Machine(|StreamTokens(docs)|, ParseEnd, [], []);
    ghost var rest := StreamEvents(docs);
    events := [];
    while true
      invariant fresh(p) && p.tokens == tokens && !p.failed && p.Sound()
      invariant Goes(tokens, p.M(), rest, end) && events + rest == StreamEvents(docs)
      decreases |rest|
    {
      GoesStep(tokens, p.M(), rest, end);
      var r := p.Parse();
      match r
      case Nothing =>
        return events, false;
      case Error =>
        return events, true;
      case Got(e) =>
        events := events + [e];
        rest := rest[1..];
    }
  }

  /** A run that is not over goes on with its first event; one that is over stands at the end. */
  lemma GoesStep(ts: seq<Token>, m: Machine, events: seq<Event>, end: Machine)
    requires Goes(ts, m, events, end) && end.state.ParseEnd?
    ensures events == [] <==> m.state.ParseEnd?
    ensures events != [] ==>
      && Next(ts, m).Some? && Next(ts, m).value.event == events[0] && Goes(ts, Next(ts, m).value.machine, events[1..], end)
      && events == [events[0]] + events[1..]
  {
  }

  /** A flow sequence with a pair that has a value but no key: the parser fails in the middle of it. */
  method KeylessStream(b: Token) returns (events: seq<Event>, error: bool)
    requires b.typ == SCALAR
    ensures error && |events| == 7 && events[|events| - 1] == MappingEnd
  {
    hide Announced, Carried, Parser.Sound, Parser.Place, Parser.Moved, Next, KeylessAt, Tok, Step;
    var ts := [Tok(STREAM_START), Tok(FLOW_SEQUENCE_START), Tok(KEY), Tok(VALUE), b, Tok(FLOW_SEQUENCE_END), Tok(STREAM_END)];
    var p := new Parser(ts);
    events, error := [], false;
    KeylessStart();
    while |events| < 7
      invariant fresh(p) && p.tokens == ts && !p.failed && p.Sound() && |events| <= 7
      invariant p.M() == KeylessAt(|events|)
      invariant |events| == 7 ==> events[6] == MappingEnd
      decreases 7 - |events|
    {
      KeylessTurns(ts, b, |events|);
      var r := p.Parse();
      assert r.Got?;
      events := events + [r.event];
    }
    KeylessTurns(ts, b, 7);
    var r := p.Parse();
    error := r.Error?;
  }

  ghost function KeylessAt(n: nat): Machine {
    var all := [ParseDocumentEnd];
    match n
    case 0 => START
    case 1 => Machine(1, ParseImplicitDocumentStart, [], [])
    case 2 => Machine(1, ParseBlockNode, all, WithDefaults([]))
    case 3 => Machine(1, ParseFlowSequenceFirstEntry, all, WithDefaults([]))
    case 4 => Machine(3, ParseFlowSequenceEntryMappingKey, all, WithDefaults([]))
    case 5 => Machine(4, ParseFlowSequenceEntryMappingValue, all, WithDefaults([]))
    case 6 => Machine(4, ParseFlowSequenceEntryMappingEnd, all, WithDefaults([]))
    case _ => Machine(4, ParseFlowSequenceEntry, all, WithDefaults([]))
  }

  lemma KeylessStart()
    ensures KeylessAt(0) == START
  {
  }

  lemma KeylessTurns(ts: seq<Token>, b: Token, n: nat)
    requires b.typ == SCALAR && n <= 7
    requires ts == [Tok(STREAM_START), Tok(FLOW_SEQUENCE_START), Tok(KEY), Tok(VALUE), b, Tok(FLOW_SEQUENCE_END), Tok(STREAM_END)]
    ensures n < 7 ==> Next(ts, KeylessAt(n)).Some? && Next(ts, KeylessAt(n)).value.machine == KeylessAt(n + 1)
    ensures n == 6 ==> Next(ts, KeylessAt(n)).value.event == MappingEnd
    ensures n == 7 ==> Next(ts, KeylessAt(n)).None?
    ensures !KeylessAt(n).state.ParseEnd?
  {
    hide WithDefaults;
    if n == 1 {
      assert DirectivesAt(ts, 1, false, []) == Some(Prologue(1, WithDefaults([])));
    }
  }
}
