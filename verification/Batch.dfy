/** DB.Batch: concurrent calls gathered into shared transactions, as a protocol of its atomic steps. */
module Batching {
  import opened Options

  /** A batch: open to new calls until it is started, which happens once; then it runs until it is done. */
  datatype Phase = Open | Running | Done

  datatype Batch = Batch(calls: seq<nat>, phase: Phase)

  /** What run sends to a call: success, an internal error, or the advice to retry alone. */
  datatype Reply = Success | InternalError | TrySolo

  datatype Message = Message(call: nat, reply: Reply)

  /** How one shared transaction goes: begin fails, the i-th function fails or panics, commit fails, or all is committed. */
  datatype Outcome = BeginFails | FailsAt(index: nat) | CommitFails | Commits

  /** How the transaction of a call retried alone goes. */
  datatype SoloOutcome = SoloFails | SoloCommits

  /**
   * The batches ever made, the one open for joining (db.batch), the calls made, the messages sent in order, what Batch
   * has returned to callers (true for nil), and the committed transactions, each with the calls whose functions ran in it.
   */
  datatype State = State(
    batches: seq<Batch>,
    current: Opt<nat>,
    submitted: set<nat>,
    messages: seq<Message>,
    returned: map<nat, bool>,
    committed: seq<seq<nat>>)

  datatype Action =
    | Submit(call: nat)
    | Start(batch: nat)
    | RunTx(batch: nat, outcome: Outcome)
    | Finish(batch: nat)
    | RunSolo(call: nat, solo: SoloOutcome)

  function Init(): State {
    State([], None, {}, [], map[], [])
  }

  /** A new call opens a batch of its own if there is none to join or the one there is is full. */
  predicate NeedsBatch(s: State, maxBatchSize: int) {
    s.current.None? || s.current.value >= |s.batches| || |s.batches[s.current.value].calls| >= maxBatchSize
  }

  /** Swap the call with the last one and drop it. */
  function TakeOut(calls: seq<nat>, i: nat): seq<nat>
    requires i < |calls|
  {
    calls[i := calls[|calls| - 1]][..|calls| - 1]
  }

  function ReplyAll(calls: seq<nat>, r: Reply): seq<Message> {
    if calls == [] then [] else [Message(calls[0], r)] + ReplyAll(calls[1..], r)
  }

  function ReturnAll(returned: map<nat, bool>, calls: seq<nat>, ok: bool): map<nat, bool>
    decreases |calls|
  {
    if calls == [] then returned else ReturnAll(returned[calls[0] := ok], calls[1..], ok)
  }

  predicate Enabled(s: State, a: Action) {
    match a
    case Submit(c) => c !in s.submitted
    case Start(b) => b < |s.batches| && s.batches[b].phase.Open?
    case RunTx(b, o) =>
      b < |s.batches| && s.batches[b].phase.Running? && |s.batches[b].calls| > 0
      && (o.FailsAt? ==> o.index < |s.batches[b].calls|)
    case Finish(b) => b < |s.batches| && s.batches[b].phase.Running? && s.batches[b].calls == []
    case RunSolo(c, _) => Message(c, TrySolo) in s.messages && c !in s.returned
  }

  function Apply(s: State, a: Action, maxBatchSize: int): State
    requires Enabled(s, a)
  {
    match a
    case Submit(c) =>
      if NeedsBatch(s, maxBatchSize) then
        s.(batches := s.batches + [Batch([c], Open)], current := Some(|s.batches|), submitted := s.submitted + {c})
      else
        var b := s.current.value;
        s.(batches := s.batches[b := s.batches[b].(calls := s.batches[b].calls + [c])], submitted := s.submitted + {c})
    case Start(b) =>
      s.(batches := s.batches[b := s.batches[b].(phase := Running)],
         current := if s.current == Some(b) then None else s.current)
    case RunTx(b, o) =>
      var calls := s.batches[b].calls;
      (match o
       case FailsAt(i) =>
         s.(batches := s.batches[b := Batch(TakeOut(calls, i), Running)], messages := s.messages + [Message(calls[i], TrySolo)])
       case Commits =>
         s.(batches := s.batches[b := Batch([], Done)], messages := s.messages + ReplyAll(calls, Success),
            returned := ReturnAll(s.returned, calls, true), committed := s.committed + [calls])
       case _ =>
         s.(batches := s.batches[b := Batch([], Done)], messages := s.messages + ReplyAll(calls, InternalError),
            returned := ReturnAll(s.returned, calls, false)))
    case Finish(b) => s.(batches := s.batches[b := s.batches[b].(phase := Done)])
    case RunSolo(c, o) =>
      s.(returned := s.returned[c := o.SoloCommits?], committed := if o.SoloCommits? then s.committed + [[c]] else s.committed)
  }

  // ---------- counting ----------

  /** How often a call waits in the batches. */
  ghost function Waiting(batches: seq<Batch>, c: nat): nat {
    if batches == [] then 0 else multiset(batches[|batches| - 1].calls)[c] + Waiting(batches[..|batches| - 1], c)
  }

  /** How many messages a call has got. */
  ghost function Answers(messages: seq<Message>, c: nat): nat {
    if messages == [] then 0
    else (if messages[|messages| - 1].call == c then 1 else 0) + Answers(messages[..|messages| - 1], c)
  }

  /** How many messages of one kind a call has got. */
  ghost function AnswersOf(messages: seq<Message>, c: nat, r: Reply): nat {
    if messages == [] then 0
    else (if messages[|messages| - 1] == Message(c, r) then 1 else 0) + AnswersOf(messages[..|messages| - 1], c, r)
  }

  /** How often a call's function ran in a committed transaction. */
  ghost function Effects(committed: seq<seq<nat>>, c: nat): nat {
    if committed == [] then 0 else multiset(committed[|committed| - 1])[c] + Effects(committed[..|committed| - 1], c)
  }

  lemma {:induction false} WaitingUpdate(batches: seq<Batch>, b: nat, x: Batch, c: nat)
    requires b < |batches|
    ensures Waiting(batches[b := x], c) + multiset(batches[b].calls)[c] == Waiting(batches, c) + multiset(x.calls)[c]
    decreases |batches|
  {
    var r := batches[..|batches| - 1];
    if b < |r| {
      WaitingUpdate(r, b, x, c);
      assert batches[b := x][..|batches| - 1] == r[b := x];
    } else {
      assert batches[b := x][..|batches| - 1] == r;
    }
  }

  lemma {:induction false} WaitingIn(batches: seq<Batch>, b: nat, c: nat)
    requires b < |batches|
    ensures multiset(batches[b].calls)[c] <= Waiting(batches, c)
    decreases |batches|
  {
    if b < |batches| - 1 {
      WaitingIn(batches[..|batches| - 1], b, c);
    }
  }

  lemma TakeOutCount(calls: seq<nat>, i: nat, c: nat)
    requires i < |calls|
    ensures multiset(TakeOut(calls, i))[c] + (if calls[i] == c then 1 else 0) == multiset(calls)[c]
  {
    hide TakeOut;
    var n := |calls| - 1;
    TakeOutIs(calls, i);
    CountAround(calls[..i], calls[i], calls[i + 1..], c);
    if i < n {
      CountAround(calls[i + 1..n], calls[n], [], c);
      CountAround(calls[..i], calls[n], calls[i + 1..n], c);
    }
    CountIn([], c);
  }

  lemma TakeOutIs(calls: seq<nat>, i: nat)
    requires i < |calls|
    ensures var n := |calls| - 1;
      && calls == calls[..i] + [calls[i]] + calls[i + 1..]
      && (i < n ==> calls[i + 1..] == calls[i + 1..n] + [calls[n]] + [] && TakeOut(calls, i) == calls[..i] + [calls[n]] + calls[i + 1..n])
      && (i == n ==> TakeOut(calls, i) == calls[..i] && calls[i + 1..] == [])
  {
  }

  lemma CountAround(a: seq<nat>, x: nat, b: seq<nat>, c: nat)
    ensures multiset(a + [x] + b)[c] == multiset(a)[c] + (if x == c then 1 else 0) + multiset(b)[c]
  {
    assert multiset(a + [x] + b) == multiset(a) + multiset{x} + multiset(b);
  }

  lemma {:induction false} AnswersConcat(a: seq<Message>, b: seq<Message>, c: nat, r: Reply)
    ensures Answers(a + b, c) == Answers(a, c) + Answers(b, c)
    ensures AnswersOf(a + b, c, r) == AnswersOf(a, c, r) + AnswersOf(b, c, r)
    decreases |b|
  {
    if b == [] {
      assert a + b == a;
    } else {
      AnswersConcat(a, b[..|b| - 1], c, r);
      assert (a + b)[..|a + b| - 1] == a + b[..|b| - 1];
    }
  }

  lemma {:induction false} ReplyAllCount(calls: seq<nat>, r: Reply, c: nat, r': Reply)
    ensures Answers(ReplyAll(calls, r), c) == multiset(calls)[c]
    ensures AnswersOf(ReplyAll(calls, r), c, r') == if r == r' then multiset(calls)[c] else 0
    decreases |calls|
  {
    if calls == [] {
    } else {
      ReplyAllCount(calls[1..], r, c, r');
      assert calls == [calls[0]] + calls[1..];
      AnswersConcat([Message(calls[0], r)], ReplyAll(calls[1..], r), c, r');
      OneAnswer(Message(calls[0], r), c, r');
    }
  }

  lemma OneAnswer(m: Message, c: nat, r: Reply)
    ensures Answers([m], c) == if m.call == c then 1 else 0
    ensures AnswersOf([m], c, r) == if m == Message(c, r) then 1 else 0
  {
    assert [m][..0] == [];
  }

  lemma {:induction false} AnswersIn(messages: seq<Message>, c: nat, r: Reply)
    ensures AnswersOf(messages, c, r) <= Answers(messages, c)
    ensures Message(c, r) in messages <==> AnswersOf(messages, c, r) > 0
    decreases |messages|
  {
    if messages == [] {
    } else {
      AnswersIn(messages[..|messages| - 1], c, r);
      assert messages == messages[..|messages| - 1] + [messages[|messages| - 1]];
    }
  }

  lemma {:induction false} ReturnAllIs(returned: map<nat, bool>, calls: seq<nat>, ok: bool, c: nat)
    ensures c in calls ==> c in ReturnAll(returned, calls, ok) && ReturnAll(returned, calls, ok)[c] == ok
    ensures c !in calls ==> (c in ReturnAll(returned, calls, ok) <==> c in returned)
    ensures c !in calls && c in returned ==> ReturnAll(returned, calls, ok)[c] == returned[c]
    decreases |calls|
  {
    if calls == [] {
    } else {
      ReturnAllIs(returned[calls[0] := ok], calls[1..], ok, c);
      assert calls == [calls[0]] + calls[1..];
    }
  }

  // ---------- the invariant ----------

  /**
   * One call's life: not made; waiting in exactly one batch; or answered exactly once. It has returned unless it was
   * told to retry alone and has not done so yet, and its function is in exactly one committed transaction if it
   * returned nil, in none otherwise.
   */
  ghost predicate CallOk(s: State, c: nat) {
    && Waiting(s.batches, c) + Answers(s.messages, c) == (if c in s.submitted then 1 else 0)
    && Effects(s.committed, c) == (if c in s.returned && s.returned[c] then 1 else 0)
    && (c in s.returned ==> Answers(s.messages, c) == 1)
    && (AnswersOf(s.messages, c, Success) > 0 ==> c in s.returned && s.returned[c])
    && (AnswersOf(s.messages, c, InternalError) > 0 ==> c in s.returned && !s.returned[c])
    && Answers(s.messages, c)
       == AnswersOf(s.messages, c, Success) + AnswersOf(s.messages, c, InternalError) + AnswersOf(s.messages, c, TrySolo)
  }

  /** The batch new calls may join is one that has not started. */
  ghost predicate CurrentOk(s: State) {
    s.current.Some? ==> s.current.value < |s.batches| && s.batches[s.current.value].phase.Open?
  }

  /** No batch is larger than it may be, and a batch that is done holds no calls. */
  ghost predicate SizesOk(s: State, maxBatchSize: int) {
    forall b :: 0 <= b < |s.batches| ==>
      && |s.batches[b].calls| <= (if maxBatchSize < 1 then 1 else maxBatchSize)
      && (s.batches[b].phase.Done? ==> s.batches[b].calls == [])
  }

  ghost predicate Inv(s: State, maxBatchSize: int) {
    CurrentOk(s) && SizesOk(s, maxBatchSize) && forall c :: CallOk(s, c)
  }

  lemma InitInv(maxBatchSize: int)
    ensures Inv(Init(), maxBatchSize)
  {
  }

  lemma AppendBatch(batches: seq<Batch>, x: Batch, c: nat)
    ensures Waiting(batches + [x], c) == Waiting(batches, c) + multiset(x.calls)[c]
  {
    assert (batches + [x])[..|batches|] == batches;
  }

  lemma AppendCommitted(committed: seq<seq<nat>>, x: seq<nat>, c: nat)
    ensures Effects(committed + [x], c) == Effects(committed, c) + multiset(x)[c]
  {
    assert (committed + [x])[..|committed|] == committed;
  }

  lemma SubmitCall(s: State, call: nat, maxBatchSize: int, c: nat)
    requires Inv(s, maxBatchSize) && Enabled(s, Submit(call))
    ensures CallOk(Apply(s, Submit(call), maxBatchSize), c)
  {
    assert CallOk(s, c);
    if NeedsBatch(s, maxBatchSize) {
      AppendBatch(s.batches, Batch([call], Open), c);
    } else {
      var b := s.current.value;
      WaitingUpdate(s.batches, b, s.batches[b].(calls := s.batches[b].calls + [call]), c);
    }
  }

  lemma RunTxCall(s: State, b: nat, o: Outcome, maxBatchSize: int, c: nat)
    requires Inv(s, maxBatchSize) && Enabled(s, RunTx(b, o))
    ensures CallOk(Apply(s, RunTx(b, o), maxBatchSize), c)
  {
    hide CallOk, TakeOut, ReplyAll, ReturnAll;
    assert CallOk(s, c);
    if o.FailsAt? {
      FailedCall(s, b, o.index, Apply(s, RunTx(b, o), maxBatchSize), c);
    } else {
      AnsweredCall(s, b, o.Commits?, Apply(s, RunTx(b, o), maxBatchSize), c);
    }
  }

  /** The call whose function failed leaves the batch and is told to retry alone. */
  lemma FailedCall(s: State, b: nat, i: nat, s': State, c: nat)
    requires CallOk(s, c) && b < |s.batches| && i < |s.batches[b].calls|
    requires s' == s.(batches := s.batches[b := Batch(TakeOut(s.batches[b].calls, i), Running)],
                      messages := s.messages + [Message(s.batches[b].calls[i], TrySolo)])
    ensures CallOk(s', c)
  {
    hide Waiting, Answers, AnswersOf, Effects, TakeOut;
    var calls := s.batches[b].calls;
    var m := Message(calls[i], TrySolo);
    WaitingUpdate(s.batches, b, s'.batches[b], c);
    WaitingIn(s.batches, b, c);
    TakeOutCount(calls, i, c);
    MessagesAdded(s.messages, [m], c);
    OneAnswer(m, c, Success);
    OneAnswer(m, c, InternalError);
    OneAnswer(m, c, TrySolo);
  }

  /** All calls of the batch get the same answer: success if their transaction was committed, else an error. */
  lemma AnsweredCall(s: State, b: nat, ok: bool, s': State, c: nat)
    requires CallOk(s, c) && b < |s.batches|
    requires var calls := s.batches[b].calls;
      s' == s.(batches := s.batches[b := Batch([], Done)],
               messages := s.messages + ReplyAll(calls, if ok then Success else InternalError),
               returned := ReturnAll(s.returned, calls, ok),
               committed := if ok then s.committed + [calls] else s.committed)
    ensures CallOk(s', c)
  {
    hide Waiting, Answers, AnswersOf, Effects, ReplyAll, ReturnAll;
    var calls := s.batches[b].calls;
    var r := if ok then Success else InternalError;
    WaitingUpdate(s.batches, b, Batch([], Done), c);
    WaitingIn(s.batches, b, c);
    MessagesAdded(s.messages, ReplyAll(calls, r), c);
    ReplyAllCount(calls, r, c, Success);
    ReplyAllCount(calls, r, c, InternalError);
    ReplyAllCount(calls, r, c, TrySolo);
    ReturnAllIs(s.returned, calls, ok, c);
    AppendCommitted(s.committed, calls, c);
    CountIn(calls, c);
    CountIn([], c);
  }

  lemma CountIn(calls: seq<nat>, c: nat)
    ensures c in calls <==> multiset(calls)[c] > 0
  {
  }

  lemma MessagesAdded(messages: seq<Message>, more: seq<Message>, c: nat)
    ensures Answers(messages + more, c) == Answers(messages, c) + Answers(more, c)
    ensures forall r :: AnswersOf(messages + more, c, r) == AnswersOf(messages, c, r) + AnswersOf(more, c, r)
  {
    forall r ensures AnswersOf(messages + more, c, r) == AnswersOf(messages, c, r) + AnswersOf(more, c, r) {
      AnswersConcat(messages, more, c, r);
    }
    AnswersConcat(messages, more, c, Success);
  }

  lemma RunSoloCall(s: State, call: nat, o: SoloOutcome, maxBatchSize: int, c: nat)
    requires Inv(s, maxBatchSize) && Enabled(s, RunSolo(call, o))
    ensures CallOk(Apply(s, RunSolo(call, o), maxBatchSize), c)
  {
    assert CallOk(s, c);
    AppendCommitted(s.committed, [call], c);
    AnswersIn(s.messages, c, TrySolo);
    AnswersIn(s.messages, c, Success);
    AnswersIn(s.messages, c, InternalError);
  }

  lemma PhaseCall(s: State, b: nat, phase: Phase, maxBatchSize: int, s': State, c: nat)
    requires Inv(s, maxBatchSize) && b < |s.batches|
    requires s' == s.(batches := s.batches[b := s.batches[b].(phase := phase)], current := s'.current)
    ensures CallOk(s', c)
  {
    assert CallOk(s, c);
    WaitingUpdate(s.batches, b, s.batches[b].(phase := phase), c);
  }

  /** Every step keeps the invariant. */
  lemma StepKeeps(s: State, a: Action, maxBatchSize: int)
    requires Inv(s, maxBatchSize) && Enabled(s, a)
    ensures Inv(Apply(s, a, maxBatchSize), maxBatchSize)
  {
    hide CallOk;
    var s' := Apply(s, a, maxBatchSize);
    forall c ensures CallOk(s', c) {
      match a
      case Submit(call) => SubmitCall(s, call, maxBatchSize, c);
      case Start(b) => PhaseCall(s, b, Running, maxBatchSize, s', c);
      case RunTx(b, o) => RunTxCall(s, b, o, maxBatchSize, c);
      case Finish(b) => PhaseCall(s, b, Done, maxBatchSize, s', c);
      case RunSolo(call, o) => RunSoloCall(s, call, o, maxBatchSize, c);
    }
  }

  // ---------- what every run guarantees ----------

  ghost predicate IsRun(states: seq<State>, actions: seq<Action>, maxBatchSize: int) {
    && |states| == |actions| + 1 && states[0] == Init()
    && forall i {:trigger actions[i]} :: 0 <= i < |actions| ==>
         Enabled(states[i], actions[i]) && states[i + 1] == Apply(states[i], actions[i], maxBatchSize)
  }

  lemma {:induction false} RunInv(states: seq<State>, actions: seq<Action>, maxBatchSize: int, i: nat)
    requires IsRun(states, actions, maxBatchSize) && i < |states|
    ensures Inv(states[i], maxBatchSize)
  {
    hide Inv, Apply, Enabled, Init;
    if i == 0 {
      InitInv(maxBatchSize);
    } else {
      RunInv(states, actions, maxBatchSize, i - 1);
      assert Enabled(states[i - 1], actions[i - 1]);
      StepKeeps(states[i - 1], actions[i - 1], maxBatchSize);
    }
  }

  /** Every call made is waiting in one batch or has got exactly one message, and no other call has got any. */
  lemma ExactlyOneReply(states: seq<State>, actions: seq<Action>, maxBatchSize: int, i: nat, c: nat)
    requires IsRun(states, actions, maxBatchSize) && i < |states|
    ensures var s := states[i];
      && Answers(s.messages, c) <= 1
      && (c in s.submitted <==> Waiting(s.batches, c) + Answers(s.messages, c) == 1)
      && (c in s.returned ==> Answers(s.messages, c) == 1)
  {
    hide Inv, Apply, Enabled, Init, IsRun;
    RunInv(states, actions, maxBatchSize, i);
    InvCall(states[i], maxBatchSize, c);
  }

  lemma InvCall(s: State, maxBatchSize: int, c: nat)
    requires Inv(s, maxBatchSize)
    ensures CallOk(s, c)
  {
  }

  /**
   * Batch returns nil exactly when the call's function ran without error in the one transaction of it that committed;
   * when it returns an error, or has not returned, no committed transaction holds the function's effects. In
   * particular a success message means the function ran in the batch's transaction.
   */
  lemma NilMeansCommittedOnce(states: seq<State>, actions: seq<Action>, maxBatchSize: int, i: nat, c: nat)
    requires IsRun(states, actions, maxBatchSize) && i < |states|
    ensures var s := states[i];
      && Effects(s.committed, c) == (if c in s.returned && s.returned[c] then 1 else 0)
      && (Message(c, Success) in s.messages ==> c in s.returned && s.returned[c])
      && (Message(c, InternalError) in s.messages ==> c in s.returned && !s.returned[c])
  {
    hide Inv, Apply, Enabled, Init, IsRun;
    RunInv(states, actions, maxBatchSize, i);
    InvCall(states[i], maxBatchSize, c);
    AnswersIn(states[i].messages, c, Success);
    AnswersIn(states[i].messages, c, InternalError);
  }

  /** When no batch is left to run and no solo retry is left to make, every call has returned. */
  lemma AllReturn(s: State, maxBatchSize: int, c: nat)
    requires Inv(s, maxBatchSize) && c in s.submitted
    requires forall b :: 0 <= b < |s.batches| ==> s.batches[b].phase.Done?
    requires forall d, o :: !Enabled(s, RunSolo(d, o))
    ensures c in s.returned
  {
    InvCall(s, maxBatchSize, c);
    NoneWaiting(s.batches, c);
    AnswersIn(s.messages, c, TrySolo);
    assert !Enabled(s, RunSolo(c, SoloFails));
  }

  lemma {:induction false} NoneWaiting(batches: seq<Batch>, c: nat)
    requires forall b :: 0 <= b < |batches| ==> batches[b].calls == []
    ensures Waiting(batches, c) == 0
    decreases |batches|
  {
    if batches == [] {
    } else {
      NoneWaiting(batches[..|batches| - 1], c);
      CountIn([], c);
    }
  }

  /** What is left to do for a batch once it has started. */
  ghost function Left(b: Batch): nat {
    if b.phase.Done? then 0 else |b.calls| + 1
  }

  /**
   * Once a batch has been detached no call joins it: no step makes it longer, every transaction it runs leaves it
   * with less to do, and while it is not done such a step, or its end, is possible.
   */
  lemma StartedBatchEnds(s: State, a: Action, maxBatchSize: int, b: nat)
    requires Inv(s, maxBatchSize) && Enabled(s, a) && b < |s.batches| && !s.batches[b].phase.Open?
    ensures var s' := Apply(s, a, maxBatchSize);
      && b < |s'.batches| && !s'.batches[b].phase.Open?
      && Left(s'.batches[b]) <= Left(s.batches[b])
      && (forall c :: multiset(s'.batches[b].calls)[c] <= multiset(s.batches[b].calls)[c])
      && ((a.RunTx? && a.batch == b) || a == Finish(b) ==> Left(s'.batches[b]) < Left(s.batches[b]))
    ensures s.batches[b].phase.Running? ==>
      Enabled(s, Finish(b)) || forall o: Outcome :: (o.FailsAt? ==> o.index < |s.batches[b].calls|) ==> Enabled(s, RunTx(b, o))
  {
    hide CallOk, SizesOk, Waiting, Answers, Effects;
    var s' := Apply(s, a, maxBatchSize);
    if a.RunTx? && a.batch == b && a.outcome.FailsAt? {
      forall c ensures multiset(s'.batches[b].calls)[c] <= multiset(s.batches[b].calls)[c] {
        TakeOutCount(s.batches[b].calls, a.outcome.index, c);
      }
    }
  }

  /** A call joins the current batch only while there is room; otherwise it opens a new one and leaves the old alone. */
  lemma JoinOrOpen(s: State, call: nat, maxBatchSize: int)
    requires Inv(s, maxBatchSize) && Enabled(s, Submit(call))
    ensures var s' := Apply(s, Submit(call), maxBatchSize);
      && s'.current.Some? && s'.current.value < |s'.batches|
      && s'.batches[s'.current.value].phase.Open? && call in s'.batches[s'.current.value].calls
      && (|s'.batches| > |s.batches| <==>
            s.current.None? || |s.batches[s.current.value].calls| >= maxBatchSize)
  {
    hide CallOk, SizesOk;
  }

  /**
   * Over every run: a call that is made waits in a batch that has not started and is not too large, and in no other; the
   * batches that have started are left alone.
   */
  lemma JoinsOpenBatch(states: seq<State>, actions: seq<Action>, maxBatchSize: int, i: nat, c: nat)
    requires IsRun(states, actions, maxBatchSize) && i < |actions| && actions[i] == Submit(c)
    ensures i + 1 < |states| && states[i + 1].current.Some?
    ensures var s, b := states[i + 1], states[i + 1].current.value;
      && b < |s.batches| && s.batches[b].phase.Open? && c in s.batches[b].calls
      && |s.batches[b].calls| <= (if maxBatchSize < 1 then 1 else maxBatchSize)
      && (forall d :: 0 <= d < |s.batches| && d != b ==> c !in s.batches[d].calls)
      && (forall d :: 0 <= d < |states[i].batches| && !states[i].batches[d].phase.Open? ==> s.batches[d] == states[i].batches[d])
  {
    hide CallOk, Waiting, Answers, Inv;
    RunInv(states, actions, maxBatchSize, i);
    RunInv(states, actions, maxBatchSize, i + 1);
    JoinOrOpen(states[i], c, maxBatchSize);
    ExactlyOneReply(states, actions, maxBatchSize, i + 1, c);
    InvSizes(states[i], maxBatchSize);
    InvSizes(states[i + 1], maxBatchSize);
    var s, b := states[i + 1], states[i + 1].current.value;
    forall d | 0 <= d < |s.batches| && d != b ensures c !in s.batches[d].calls {
      OnlyOnce(s.batches, b, d, c);
    }
  }

  lemma InvSizes(s: State, maxBatchSize: int)
    requires Inv(s, maxBatchSize)
    ensures CurrentOk(s) && SizesOk(s, maxBatchSize)
  {
  }

  /** A call that waits at most once is in no two batches. */
  lemma {:induction false} OnlyOnce(batches: seq<Batch>, b: nat, d: nat, c: nat)
    requires b < |batches| && d < |batches| && b != d && c in batches[b].calls && Waiting(batches, c) <= 1
    ensures c !in batches[d].calls
    decreases |batches|
  {
    var last := |batches| - 1;
    if b == last {
      WaitingIn(batches[..last], d, c);
    } else if d == last {
      WaitingIn(batches[..last], b, c);
    } else {
      OnlyOnce(batches[..last], b, d, c);
    }
  }

  /** Over every run: from the moment a batch is detached on, no call joins it, and there is never more left to do. */
  lemma {:induction false} DetachedStays(states: seq<State>, actions: seq<Action>, maxBatchSize: int, i: nat, j: nat, b: nat)
    requires IsRun(states, actions, maxBatchSize) && i <= j < |states|
    requires b < |states[i].batches| && !states[i].batches[b].phase.Open?
    ensures b < |states[j].batches| && !states[j].batches[b].phase.Open?
    ensures Left(states[j].batches[b]) <= Left(states[i].batches[b])
    ensures forall c :: multiset(states[j].batches[b].calls)[c] <= multiset(states[i].batches[b].calls)[c]
    decreases j
  {
    hide Inv, Apply, Enabled, Init, Left;
    if i == j {
    } else {
      DetachedStays(states, actions, maxBatchSize, i, j - 1, b);
      RunInv(states, actions, maxBatchSize, j - 1);
      assert Enabled(states[j - 1], actions[j - 1]);
      StartedBatchEnds(states[j - 1], actions[j - 1], maxBatchSize, b);
    }
  }

  // ---------- run ----------

  /**
   * What the shared transactions of one run meet: whether one over these calls can begin, whether a function fails or
   * panics after those of other calls have run in the same transaction, and whether a transaction can be committed.
   */
  datatype World = World(begins: seq<nat> -> bool, fails: (seq<nat>, nat) -> bool, commits: seq<nat> -> bool)

  /** The function at i is the first of the transaction to fail. */
  ghost predicate FirstToFail(w: World, calls: seq<nat>, i: nat) {
    && i < |calls| && w.begins(calls) && w.fails(calls[..i], calls[i])
    && forall j :: 0 <= j < i ==> !w.fails(calls[..j], calls[j])
  }

  /** No function of the transaction fails, or it cannot even begin. */
  ghost predicate NoneFails(w: World, calls: seq<nat>) {
    w.begins(calls) ==> forall j :: 0 <= j < |calls| ==> !w.fails(calls[..j], calls[j])
  }

  /** Update over all calls of the batch, in order: the first function to fail ends it. */
  method Transact(calls: seq<nat>, w: World) returns (o: Outcome)
    ensures o.BeginFails? <==> !w.begins(calls)
    ensures o.FailsAt? ==> FirstToFail(w, calls, o.index)
    ensures !o.FailsAt? ==> NoneFails(w, calls)
    ensures o.Commits? ==> w.begins(calls) && w.commits(calls)
    ensures o.CommitFails? ==> !w.commits(calls)
  {
    if !w.begins(calls) {
      return BeginFails;
    }
    for i := 0 to |calls|
      invariant forall j :: 0 <= j < i ==> !w.fails(calls[..j], calls[j])
    {
      if w.fails(calls[..i], calls[i]) {
        return FailsAt(i);
      }
    }
    o := if w.commits(calls) then Commits else CommitFails;
  }

  /** The call at i left out, the last one in its place. */
  ghost predicate Without(calls: seq<nat>, i: nat, rest: seq<nat>) {
    && i < |calls| == |rest| + 1
    && forall j :: 0 <= j < |rest| ==> rest[j] == if j == i then calls[|rest|] else calls[j]
  }

  /** A transaction that failed: the call at fault is told to retry alone, and the rest are left. */
  ghost predicate TxFailed(w: World, calls: seq<nat>, i: nat, m: Message, rest: seq<nat>) {
    FirstToFail(w, calls, i) && m == Message(calls[i], TrySolo) && Without(calls, i, rest)
  }

  /** The steps of the protocol that a run consists of. */
  ghost predicate Steps(s: State, b: nat, states: seq<State>, actions: seq<Action>, maxBatchSize: int) {
    && |states| == |actions| + 1 && states[0] == s
    && forall k {:trigger actions[k]} :: 0 <= k < |actions| ==>
         && (actions[k] == Finish(b) || (actions[k].RunTx? && actions[k].batch == b))
         && Enabled(states[k], actions[k]) && states[k + 1] == Apply(states[k], actions[k], maxBatchSize)
  }

  lemma OneStep(s: State, b: nat, states: seq<State>, actions: seq<Action>, maxBatchSize: int, a: Action)
    requires Steps(s, b, states, actions, maxBatchSize) && Enabled(states[|actions|], a)
    requires a == Finish(b) || (a.RunTx? && a.batch == b)
    ensures Steps(s, b, states + [Apply(states[|actions|], a, maxBatchSize)], actions + [a], maxBatchSize)
  {
    hide Enabled, Apply;
    var states', actions' := states + [Apply(states[|actions|], a, maxBatchSize)], actions + [a];
    forall k {:trigger actions'[k]} | 0 <= k < |actions'|
      ensures (actions'[k] == Finish(b) || (actions'[k].RunTx? && actions'[k].batch == b))
        && Enabled(states'[k], actions'[k]) && states'[k + 1] == Apply(states'[k], actions'[k], maxBatchSize)
    {
      assert k < |actions| ==> actions'[k] == actions[k];
    }
  }

  /** The batch is still running, with these calls and messages, and nothing has been committed or returned. */
  ghost predicate StillRunning(s: State, b: nat, now: State, calls: seq<nat>, messages: seq<Message>) {
    && b < |s.batches| == |now.batches| && now.batches[b] == Batch(calls, Running)
    && now.messages == s.messages + messages && now.committed == s.committed
  }

  /** The batch is done; its messages are out, and what it committed is. */
  ghost predicate RunOver(s: State, b: nat, now: State, messages: seq<Message>, committed: Opt<seq<nat>>) {
    && b < |now.batches| && now.batches[b] == Batch([], Done) && now.messages == s.messages + messages
    && now.committed == if committed.Some? then s.committed + [committed.value] else s.committed
  }

  lemma FailedStep(s: State, b: nat, now: State, calls: seq<nat>, messages: seq<Message>, i: nat, maxBatchSize: int)
    requires StillRunning(s, b, now, calls, messages) && i < |calls|
    ensures Enabled(now, RunTx(b, FailsAt(i)))
    ensures StillRunning(s, b, Apply(now, RunTx(b, FailsAt(i)), maxBatchSize), TakeOut(calls, i), messages + [Message(calls[i], TrySolo)])
  {
    assert s.messages + (messages + [Message(calls[i], TrySolo)]) == now.messages + [Message(calls[i], TrySolo)];
  }

  lemma LastStep(s: State, b: nat, now: State, calls: seq<nat>, messages: seq<Message>, o: Outcome, maxBatchSize: int)
    requires StillRunning(s, b, now, calls, messages) && |calls| > 0 && !o.FailsAt?
    ensures Enabled(now, RunTx(b, o))
    ensures RunOver(s, b, Apply(now, RunTx(b, o), maxBatchSize),
                    messages + ReplyAll(calls, if o.Commits? then Success else InternalError), if o.Commits? then Some(calls) else None)
  {
    hide ReplyAll, ReturnAll, TakeOut;
    var more := ReplyAll(calls, if o.Commits? then Success else InternalError);
    assert s.messages + (messages + more) == now.messages + more;
  }

  lemma NothingLeft(s: State, b: nat, now: State, messages: seq<Message>, maxBatchSize: int)
    requires StillRunning(s, b, now, [], messages)
    ensures Enabled(now, Finish(b)) && RunOver(s, b, Apply(now, Finish(b), maxBatchSize), messages, None)
  {
  }

  lemma {:induction false} ReplyAllAt(calls: seq<nat>, r: Reply)
    ensures |ReplyAll(calls, r)| == |calls| && forall j :: 0 <= j < |calls| ==> ReplyAll(calls, r)[j] == Message(calls[j], r)
  {
    if calls == [] {
    } else {
      ReplyAllAt(calls[1..], r);
    }
  }

  /**
   * run: shared transactions until one gets through or fails for a reason of its own. Of each that fails, the call
   * whose function is the first to fail is told to retry alone and taken out; the others go into the next, in their
   * order but for the last, which takes its place. The calls of the last transaction get success if it is committed, and
   * an internal error if it can not begin or be committed. So each call gets one message, and the whole is a
   * run of the batch's steps in the protocol, up to its end.
   */
  method Run(start: seq<nat>, w: World, ghost s: State, ghost b: nat, ghost maxBatchSize: int)
    returns (messages: seq<Message>, committed: Opt<seq<nat>>, ghost txs: seq<seq<nat>>, ghost failed: seq<nat>,
             ghost states: seq<State>, ghost actions: seq<Action>)
    requires b < |s.batches| && s.batches[b] == Batch(start, Running)
    ensures |txs| == |failed| + 1 && txs[0] == start
    ensures forall k {:trigger failed[k]} :: 0 <= k < |failed| ==> k < |messages| && TxFailed(w, txs[k], failed[k], messages[k], txs[k + 1])
    ensures NoneFails(w, txs[|failed|]) && |messages| == |failed| + |txs[|failed|]|
    ensures forall j {:trigger txs[|failed|][j]} :: 0 <= j < |txs[|failed|]| ==>
      messages[|failed| + j] == Message(txs[|failed|][j], if w.begins(txs[|failed|]) && w.commits(txs[|failed|]) then Success else InternalError)
    ensures committed == if txs[|failed|] != [] && w.begins(txs[|failed|]) && w.commits(txs[|failed|]) then Some(txs[|failed|]) else None
    ensures forall c :: Answers(messages, c) == multiset(start)[c]
    ensures forall c :: AnswersOf(messages, c, Success) == if committed.Some? then multiset(committed.value)[c] else 0
    ensures Steps(s, b, states, actions, maxBatchSize) && RunOver(s, b, states[|actions|], messages, committed)
  {
    hide TakeOut, ReplyAll, Answers, AnswersOf, Steps, StillRunning, RunOver, Enabled, Apply, FirstToFail, NoneFails, Without;
    var calls := start;
    messages, committed := [], None;
    txs, failed, states, actions := [start], [], [s], [];
    NoAnswers();
    NoSteps(s, b, start, maxBatchSize);
    while |calls| > 0
      invariant committed.None? && |txs| == |failed| + 1 == |messages| + 1 && txs[0] == start && txs[|failed|] == calls
      invariant forall k :: 0 <= k < |failed| ==> TxFailed(w, txs[k], failed[k], messages[k], txs[k + 1])
      invariant forall c :: Answers(messages, c) + multiset(calls)[c] == multiset(start)[c]
      invariant forall c :: AnswersOf(messages, c, Success) == 0
      invariant |states| == |actions| + 1 && Steps(s, b, states, actions, maxBatchSize)
      invariant StillRunning(s, b, states[|actions|], calls, messages)
      decreases |calls|
    {
      var o := Transact(calls, w);
      ghost var before := messages;
      if o.FailsAt? {
        FirstIn(w, calls, o.index);
        FailedStep(s, b, states[|actions|], calls, messages, o.index, maxBatchSize);
        OneStep(s, b, states, actions, maxBatchSize, RunTx(b, o));
        states, actions := states + [Apply(states[|actions|], RunTx(b, o), maxBatchSize)], actions + [RunTx(b, o)];
        AfterFailure(before, calls, o.index);
        TakeOutLeaves(calls, o.index);
        var c := calls[o.index];
        messages := messages + [Message(c, TrySolo)];
        calls := TakenOut(calls, o.index);
        txs, failed := txs + [calls], failed + [o.index];
      } else {
        var r := if o.Commits? then Success else InternalError;
        LastStep(s, b, states[|actions|], calls, messages, o, maxBatchSize);
        OneStep(s, b, states, actions, maxBatchSize, RunTx(b, o));
        states, actions := states + [Apply(states[|actions|], RunTx(b, o), maxBatchSize)], actions + [RunTx(b, o)];
        ReplyAllAt(calls, r);
        messages := messages + ReplyAll(calls, r);
        AfterReply(before, calls, r);
        committed := if o.Commits? then Some(calls) else None;
        return;
      }
    }
    forall c ensures multiset(calls)[c] == 0 {
      CountIn(calls, c);
    }
    NoneToFail(w, calls);
    NothingLeft(s, b, states[|actions|], messages, maxBatchSize);
    OneStep(s, b, states, actions, maxBatchSize, Finish(b));
    states, actions := states + [Apply(states[|actions|], Finish(b), maxBatchSize)], actions + [Finish(b)];
  }

  lemma NoSteps(s: State, b: nat, start: seq<nat>, maxBatchSize: int)
    requires b < |s.batches| && s.batches[b] == Batch(start, Running)
    ensures Steps(s, b, [s], [], maxBatchSize) && StillRunning(s, b, s, start, [])
  {
    assert s.messages + [] == s.messages;
  }

  lemma FirstIn(w: World, calls: seq<nat>, i: nat)
    requires FirstToFail(w, calls, i)
    ensures i < |calls|
  {
  }

  lemma NoneToFail(w: World, calls: seq<nat>)
    requires |calls| == 0
    ensures NoneFails(w, calls)
  {
  }

  lemma TakeOutLeaves(calls: seq<nat>, i: nat)
    requires i < |calls|
    ensures Without(calls, i, TakeOut(calls, i))
  {
  }

  function TakenOut(calls: seq<nat>, i: nat): (r: seq<nat>)
    requires i < |calls|
    ensures r == TakeOut(calls, i) && |r| < |calls|
  {
    TakeOut(calls, i)
  }

  lemma NoAnswers()
    ensures forall c :: Answers([], c) == 0
    ensures forall c, r :: AnswersOf([], c, r) == 0
  {
  }

  lemma AfterFailure(messages: seq<Message>, calls: seq<nat>, i: nat)
    requires i < |calls|
    ensures var more := messages + [Message(calls[i], TrySolo)];
      forall c ::
        && Answers(more, c) + multiset(TakeOut(calls, i))[c] == Answers(messages, c) + multiset(calls)[c]
        && AnswersOf(more, c, Success) == AnswersOf(messages, c, Success)
  {
    hide TakeOut, Answers, AnswersOf;
    var m := Message(calls[i], TrySolo);
    forall c ensures
      && Answers(messages + [m], c) + multiset(TakeOut(calls, i))[c] == Answers(messages, c) + multiset(calls)[c]
      && AnswersOf(messages + [m], c, Success) == AnswersOf(messages, c, Success)
    {
      MessagesAdded(messages, [m], c);
      OneAnswer(m, c, Success);
      TakeOutCount(calls, i, c);
    }
  }

  lemma AfterReply(messages: seq<Message>, calls: seq<nat>, r: Reply)
    ensures var more := messages + ReplyAll(calls, r);
      forall c ::
        && Answers(more, c) == Answers(messages, c) + multiset(calls)[c]
        && AnswersOf(more, c, Success) == AnswersOf(messages, c, Success) + if r.Success? then multiset(calls)[c] else 0
  {
    hide ReplyAll, Answers, AnswersOf;
    forall c ensures
      && Answers(messages + ReplyAll(calls, r), c) == Answers(messages, c) + multiset(calls)[c]
      && AnswersOf(messages + ReplyAll(calls, r), c, Success) == AnswersOf(messages, c, Success) + if r.Success? then multiset(calls)[c] else 0
    {
      MessagesAdded(messages, ReplyAll(calls, r), c);
      ReplyAllCount(calls, r, c, Success);
    }
  }
}
