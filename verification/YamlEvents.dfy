/** Events of the YAML parser and the nesting they must follow. */
module YamlEvents {
  import opened Keys
  import opened Options

  datatype Event =
    | StreamStart
    | StreamEnd
    | DocumentStart
    | DocumentEnd
    | Alias(anchor: Bytes)
    | Scalar(anchor: Bytes, tag: Bytes, value: Bytes, implicit: bool, quotedImplicit: bool)
    | SequenceStart(anchor: Bytes, tag: Bytes, implicit: bool)
    | SequenceEnd
    | MappingStart(anchor: Bytes, tag: Bytes, implicit: bool)
    | MappingEnd

  /** What is open: a document with or without its content, a sequence, or a mapping expecting a key or a value. */
  datatype Frame = Doc(full: bool) | Seq | Map(atKey: bool)

  /** How far a stream has got; the innermost frame comes first. */
  datatype Nest = Before | In(frames: seq<Frame>) | After

  predicate IsNode(e: Event) {
    e.Alias? || e.Scalar? || e.SequenceStart? || e.MappingStart?
  }

  /** The frames once the innermost one has got another child node, if it may have one. */
  function Fill(frames: seq<Frame>): Opt<seq<Frame>> {
    if frames == [] then None
    else match frames[0]
         case Doc(full) => if full then None else Some([Doc(true)] + frames[1..])
         case Seq => Some(frames)
         case Map(atKey) => Some([Map(!atKey)] + frames[1..])
  }

  /** The grammar of event streams, one event at a time; a collection counts as a child when it starts. */
  function Step(n: Nest, e: Event): Opt<Nest> {
    match n
    case Before => if e.StreamStart? then Some(In([])) else None
    case After => None
    case In(frames) =>
      match e
      case StreamStart => None
      case StreamEnd => if frames == [] then Some(After) else None
      case DocumentStart => if frames == [] then Some(In([Doc(false)])) else None
      case DocumentEnd => if frames == [Doc(true)] then Some(In([])) else None
      case SequenceEnd => if frames != [] && frames[0] == Seq then Some(In(frames[1..])) else None
      case MappingEnd => if frames != [] && frames[0] == Map(true) then Some(In(frames[1..])) else None
      case _ =>
        match Fill(frames)
        case None => None
        case Some(filled) => Some(In(Opened(e) + filled))
  }

  /** The frame a node event opens, if any. */
  function Opened(e: Event): seq<Frame> {
    if e.SequenceStart? then [Seq] else if e.MappingStart? then [Map(true)] else []
  }

  /** Where a prefix of a well-nested stream ends; None if it is not one. */
  function Run(events: seq<Event>): Opt<Nest> {
    if events == [] then Some(Before)
    else match Run(events[..|events| - 1])
         case None => None
         case Some(n) => Step(n, events[|events| - 1])
  }

  lemma RunNext(events: seq<Event>, e: Event)
    ensures Run(events + [e]) == if Run(events).Some? then Step(Run(events).value, e) else None
  {
    assert (events + [e])[..|events|] == events;
  }

  // ---------- what the grammar comes to ----------

  /** How many events of a list start, or end, a sequence, a mapping or a document. */
  function Starts(events: seq<Event>, frame: Frame): nat {
    if events == [] then 0
    else (if Begins(events[|events| - 1], frame) then 1 else 0) + Starts(events[..|events| - 1], frame)
  }

  function Ends(events: seq<Event>, frame: Frame): nat {
    if events == [] then 0
    else (if Finishes(events[|events| - 1], frame) then 1 else 0) + Ends(events[..|events| - 1], frame)
  }

  predicate Begins(e: Event, frame: Frame) {
    match frame
    case Doc(_) => e.DocumentStart?
    case Seq => e.SequenceStart?
    case Map(_) => e.MappingStart?
  }

  predicate Finishes(e: Event, frame: Frame) {
    match frame
    case Doc(_) => e.DocumentEnd?
    case Seq => e.SequenceEnd?
    case Map(_) => e.MappingEnd?
  }

  predicate SameKind(a: Frame, b: Frame) {
    a.Doc? == b.Doc? && a.Seq? == b.Seq?
  }

  /** How many frames of a kind are open. */
  function Open(frames: seq<Frame>, frame: Frame): nat {
    if frames == [] then 0 else (if SameKind(frames[0], frame) then 1 else 0) + Open(frames[1..], frame)
  }

  function OpenIn(n: Nest, frame: Frame): nat {
    if n.In? then Open(n.frames, frame) else 0
  }

  lemma OpenCons(x: Frame, rest: seq<Frame>, frame: Frame)
    ensures Open([x] + rest, frame) == (if SameKind(x, frame) then 1 else 0) + Open(rest, frame)
  {
    assert ([x] + rest)[1..] == rest;
  }

  /** A node fills a place, which changes no kind of frame, and may open a frame of its own. */
  lemma NodeOpens(frames: seq<Frame>, e: Event, frame: Frame)
    requires IsNode(e) && Fill(frames).Some?
    ensures Open(Opened(e) + Fill(frames).value, frame) == Open(frames, frame) + (if Begins(e, frame) then 1 else 0)
  {
    hide Open;
    var filled := Fill(frames).value;
    assert filled == [filled[0]] + frames[1..] && frames == [frames[0]] + frames[1..];
    OpenCons(filled[0], frames[1..], frame);
    OpenCons(frames[0], frames[1..], frame);
    if Opened(e) == [] {
      assert Opened(e) + filled == filled;
    } else {
      OpenCons(Opened(e)[0], filled, frame);
      assert [Opened(e)[0]] + filled == Opened(e) + filled;
    }
  }

  lemma StepOpens(n: Nest, e: Event, frame: Frame)
    requires Step(n, e).Some?
    ensures OpenIn(Step(n, e).value, frame) + (if Finishes(e, frame) then 1 else 0) == OpenIn(n, frame) + (if Begins(e, frame) then 1 else 0)
  {
    hide Fill;
    OpenCons(Doc(false), [], frame);
    OpenCons(Doc(true), [], frame);
    assert [Doc(false)] + [] == [Doc(false)] && [Doc(true)] + [] == [Doc(true)];
    if n.In? && IsNode(e) {
      NodeOpens(n.frames, e, frame);
    }
  }

  /** In a prefix of a well-nested stream what has started has ended, but for what is still open. */
  lemma {:induction false} Balance(events: seq<Event>, frame: Frame)
    requires Run(events).Some?
    ensures Starts(events, frame) == Ends(events, frame) + OpenIn(Run(events).value, frame)
    decreases |events|
  {
    hide Step;
    if events == [] {
    } else {
      var before := events[..|events| - 1];
      Balance(before, frame);
      StepOpens(Run(before).value, events[|events| - 1], frame);
    }
  }

  /** A stream that has ended has as many ends as starts of every kind. */
  lemma EndedIsBalanced(events: seq<Event>, frame: Frame)
    requires Run(events) == Some(After)
    ensures Starts(events, frame) == Ends(events, frame)
  {
    Balance(events, frame);
  }
}
