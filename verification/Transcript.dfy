/** The canonical transcript and its closure after a restart (agent/runtime/conversation.py). */
module Transcript {
  import opened Common

  type CallId = string

  datatype ToolCall = ToolCall(id: CallId, name: string, arguments: string)

  /** The error codes Runtime itself puts on results, and those of the tools. */
  datatype ErrorCode =
    | APPROVAL_TIMEOUT | LIMIT_REACHED | CANCELLED | INTERNAL_ERROR | POLICY_DENIED | RUNTIME_RESTARTED
    | ToolError(code: string)

  /** What a result says: the output of a tool, or one of the fixed sentences of Runtime. */
  datatype Content =
    | Output(text: string)
    | ToolApprovalTimedOut | ToolCancelledAtDeadline | ToolCancelledWithTurn | ToolCoordinationFailed
    | ToolDenied | ToolBudgetReached | RepeatedFailureReached | TurnDeadlineReached | TurnCancelled
    | InterruptedByRestart

  datatype ToolResult = ToolResult(content: Content, error: Option<ErrorCode>)

  datatype Message =
    | System(text: string)
    | User(text: string)
    | Assistant(text: string, calls: seq<ToolCall>)
    | Answer(callId: CallId, result: ToolResult)

  const INTERRUPTED := ToolResult(InterruptedByRestart, Some(RUNTIME_RESTARTED))

  function Ids(calls: seq<ToolCall>): (ids: seq<CallId>)
    ensures |ids| == |calls| && forall i :: 0 <= i < |calls| ==> ids[i] == calls[i].id
  {
    seq(|calls|, i requires 0 <= i < |calls| => calls[i].id)
  }

  /** Calls still waiting for their result, or None once the provider protocol is broken: a result must
      answer the next waiting call, and nothing else may come while calls wait. */
  function Waiting(messages: seq<Message>): Option<seq<CallId>> {
    if messages == [] then Some([])
    else Next(Waiting(messages[..|messages| - 1]), messages[|messages| - 1])
  }

  function Next(waiting: Option<seq<CallId>>, message: Message): Option<seq<CallId>> {
    match waiting
    case None => None
    case Some(ids) => AfterMessage(ids, message)
  }

  function AfterMessage(waiting: seq<CallId>, message: Message): Option<seq<CallId>> {
    match message
    case Answer(id, _) => if waiting != [] && waiting[0] == id then Some(waiting[1..]) else None
    case Assistant(_, calls) => if waiting == [] then Some(Ids(calls)) else None
    case _ => if waiting == [] then Some([]) else None
  }

  predicate Legal(messages: seq<Message>) { Waiting(messages).Some? }
  predicate Closed(messages: seq<Message>) { Waiting(messages) == Some([]) }

  /** All call ids of the transcript, in order. */
  function CallIds(messages: seq<Message>): seq<CallId> {
    if messages == [] then []
    else
      var last := messages[|messages| - 1];
      CallIds(messages[..|messages| - 1]) + if last.Assistant? then Ids(last.calls) else []
  }

  function AnsweredIds(messages: seq<Message>): set<CallId> {
    if messages == [] then {}
    else
      var last := messages[|messages| - 1];
      AnsweredIds(messages[..|messages| - 1]) + if last.Answer? then {last.callId} else {}
  }

  lemma WaitingAfter(messages: seq<Message>, message: Message)
    ensures Waiting(messages + [message]) == Next(Waiting(messages), message)
    ensures CallIds(messages + [message]) == CallIds(messages) + if message.Assistant? then Ids(message.calls) else []
    ensures AnsweredIds(messages + [message]) == AnsweredIds(messages) + if message.Answer? then {message.callId} else {}
  {
    assert (messages + [message])[..|messages|] == messages;
  }

  // ---------------------------------------------------------------- what legality means, in plain terms

  /** The message at `i + 1 + k` answers the k-th call of the assistant message at `i`, if the
      transcript reaches that far; the calls beyond the end are the waiting ones. */
  ghost predicate AnsweredInPlace(messages: seq<Message>, i: nat, waiting: seq<CallId>)
    requires i < |messages| && messages[i].Assistant?
  {
    var calls := messages[i].calls;
    && (forall j :: i < j < |messages| && j <= i + |calls| ==>
          messages[j].Answer? && messages[j].callId == calls[j - i - 1].id)
    && (|messages| <= i + |calls| ==> waiting != [] && waiting == Ids(calls)[|messages| - i - 1..])
  }

  lemma OneFewerWaiting(ids: seq<CallId>, k: nat)
    requires k < |ids|
    ensures ids[k..] != [] && ids[k..][0] == ids[k] && ids[k..][1..] == ids[k + 1..]
  {
  }

  lemma AnsweredInPlaceStep(before: seq<Message>, message: Message, i: nat, waiting: seq<CallId>)
    requires i < |before| && before[i].Assistant? && AnsweredInPlace(before, i, waiting)
    requires AfterMessage(waiting, message).Some?
    ensures AnsweredInPlace(before + [message], i, AfterMessage(waiting, message).value)
  {
    var ids := Ids(before[i].calls);
    if |before| <= i + |ids| {
      OneFewerWaiting(ids, |before| - i - 1);
    }
  }

  lemma {:induction false} LegalMeansAnsweredInPlace(messages: seq<Message>, i: nat)
    requires Legal(messages) && i < |messages| && messages[i].Assistant?
    ensures AnsweredInPlace(messages, i, Waiting(messages).value)
  {
    var n := |messages| - 1;
    if i < n {
      LegalMeansAnsweredInPlace(messages[..n], i);
      AnsweredInPlaceStep(messages[..n], messages[n], i, Waiting(messages[..n]).value);
      assert messages == messages[..n] + [messages[n]];
    } else {
      assert Ids(messages[i].calls)[0..] == Ids(messages[i].calls);
    }
  }

  /** In a closed transcript every call of every assistant message has its result right behind that
      message, in call order, before anything else is said. */
  lemma ClosedMeansEveryCallAnswered(messages: seq<Message>, i: nat, k: nat)
    requires Closed(messages) && i < |messages| && messages[i].Assistant? && k < |messages[i].calls|
    ensures i + 1 + k < |messages|
    ensures messages[i + 1 + k].Answer? && messages[i + 1 + k].callId == messages[i].calls[k].id
  {
    LegalMeansAnsweredInPlace(messages, i);
  }

  /** Every result answers a call of an earlier assistant message, from its own place behind it. */
  lemma {:induction false} EveryAnswerHasItsCall(messages: seq<Message>, j: nat) returns (i: nat, k: nat)
    requires Legal(messages) && j < |messages| && messages[j].Answer?
    ensures i + 1 + k == j && messages[i].Assistant? && k < |messages[i].calls|
    ensures messages[i].calls[k].id == messages[j].callId
  {
    LegalPrefix(messages, j);
    LegalPrefix(messages, j + 1);
    var before := messages[..j];
    assert messages[..j + 1] == before + [messages[j]];
    WaitingAfter(before, messages[j]);
    i := LastAssistant(before);
    LegalMeansAnsweredInPlace(before, i);
    k := j - i - 1;
    assert Ids(before[i].calls)[k..][0] == before[i].calls[k].id;
  }

  lemma {:induction false} LegalPrefix(messages: seq<Message>, n: nat)
    requires Legal(messages) && n <= |messages|
    ensures Legal(messages[..n])
  {
    if n < |messages| {
      LegalPrefix(messages[..|messages| - 1], n);
      assert messages[..|messages| - 1][..n] == messages[..n];
    } else {
      assert messages[..n] == messages;
    }
  }

  /** When calls wait, the assistant message they belong to is the last one. */
  lemma {:induction false} LastAssistant(messages: seq<Message>) returns (i: nat)
    requires Legal(messages) && Waiting(messages).value != []
    ensures i < |messages| && messages[i].Assistant? && |messages| <= i + |messages[i].calls|
  {
    var n := |messages| - 1;
    if messages[n].Assistant? {
      i := n;
    } else {
      i := LastAssistant(messages[..n]);
      LegalMeansAnsweredInPlace(messages[..n], i);
      assert messages[..n][i] == messages[i];
    }
  }

  function OffsetOf(messages: seq<Message>, i: nat): nat
    requires i <= |messages|
  {
    |CallIds(messages[..i])|
  }

  lemma {:induction false} CallIdAt(messages: seq<Message>, i: nat, k: nat)
    requires i < |messages| && messages[i].Assistant? && k < |messages[i].calls|
    ensures OffsetOf(messages, i) + k < |CallIds(messages)|
    ensures CallIds(messages)[OffsetOf(messages, i) + k] == messages[i].calls[k].id
  {
    var n := |messages| - 1;
    if i < n {
      CallIdAt(messages[..n], i, k);
      assert messages[..n][..i] == messages[..i];
    }
  }

  lemma {:induction false} OffsetsGrow(messages: seq<Message>, i: nat, j: nat)
    requires i < j <= |messages|
    ensures OffsetOf(messages, j) >= OffsetOf(messages, i) + if messages[i].Assistant? then |messages[i].calls| else 0
  {
    assert messages[..j][..j - 1] == messages[..j - 1];
    if i < j - 1 {
      OffsetsGrow(messages, i, j - 1);
    }
  }

  /** With call ids unique across the history, each call has exactly one result. */
  lemma ClosedMeansExactlyOneAnswer(messages: seq<Message>, i: nat, k: nat, j: nat)
    requires Closed(messages) && Distinct(CallIds(messages))
    requires i < |messages| && messages[i].Assistant? && k < |messages[i].calls|
    requires j < |messages| && messages[j].Answer? && messages[j].callId == messages[i].calls[k].id
    ensures j == i + 1 + k
  {
    var i', k' := EveryAnswerHasItsCall(messages, j);
    CallIdAt(messages, i, k);
    CallIdAt(messages, i', k');
    if i < i' {
      OffsetsGrow(messages, i, i');
    } else if i' < i {
      OffsetsGrow(messages, i', i);
    }
  }

  // ---------------------------------------------------------------- closing an interrupted transcript

  /** The unanswered call ids, as the recovery code collects them: all ids minus all answered ids. */
  function Unanswered(ids: seq<CallId>, answered: set<CallId>): seq<CallId> {
    if ids == [] then []
    else (if ids[0] in answered then [] else [ids[0]]) + Unanswered(ids[1..], answered)
  }

  lemma {:induction false} UnansweredConcat(a: seq<CallId>, b: seq<CallId>, answered: set<CallId>)
    ensures Unanswered(a + b, answered) == Unanswered(a, answered) + Unanswered(b, answered)
  {
    if a == [] {
      assert a + b == b;
    } else {
      assert (a + b)[1..] == a[1..] + b;
      UnansweredConcat(a[1..], b, answered);
    }
  }

  lemma {:induction false} UnansweredOfAnswered(ids: seq<CallId>, answered: set<CallId>)
    requires forall i :: 0 <= i < |ids| ==> ids[i] in answered
    ensures Unanswered(ids, answered) == []
  {
    if ids != [] {
      UnansweredOfAnswered(ids[1..], answered);
    }
  }

  lemma {:induction false} UnansweredOfWaiting(ids: seq<CallId>, answered: set<CallId>)
    requires forall i :: 0 <= i < |ids| ==> ids[i] !in answered
    ensures Unanswered(ids, answered) == ids
  {
    if ids != [] {
      UnansweredOfWaiting(ids[1..], answered);
      assert ids == [ids[0]] + ids[1..];
    }
  }

  /** The answered ids are exactly the ids before the waiting ones. */
  lemma {:induction false} WaitingIsTheEnd(messages: seq<Message>) returns (answeredFirst: seq<CallId>)
    requires Legal(messages)
    ensures CallIds(messages) == answeredFirst + Waiting(messages).value
    ensures forall id :: id in answeredFirst <==> id in AnsweredIds(messages)
  {
    if messages == [] {
      answeredFirst := [];
    } else {
      var n := |messages| - 1;
      var first := WaitingIsTheEnd(messages[..n]);
      var waiting := Waiting(messages[..n]).value;
      if messages[n].Answer? {
        answeredFirst := first + [waiting[0]];
        assert waiting == [waiting[0]] + waiting[1..];
        assert first + waiting == answeredFirst + waiting[1..];
      } else {
        answeredFirst := first;
      }
    }
  }

  /** With unique ids, what the recovery collects are the waiting calls. */
  lemma UnansweredAreWaiting(messages: seq<Message>)
    requires Legal(messages) && Distinct(CallIds(messages))
    ensures Unanswered(CallIds(messages), AnsweredIds(messages)) == Waiting(messages).value
  {
    var first := WaitingIsTheEnd(messages);
    var waiting := Waiting(messages).value;
    forall j | 0 <= j < |waiting| ensures waiting[j] !in AnsweredIds(messages) {
      assert CallIds(messages)[|first| + j] == waiting[j];
      assert forall i :: 0 <= i < |first| ==> first[i] == CallIds(messages)[i];
    }
    UnansweredConcat(first, waiting, AnsweredIds(messages));
    UnansweredOfAnswered(first, AnsweredIds(messages));
    UnansweredOfWaiting(waiting, AnsweredIds(messages));
  }

  function Interruptions(ids: seq<CallId>): (answers: seq<Message>)
    ensures |answers| == |ids| && forall i :: 0 <= i < |ids| ==> answers[i] == Answer(ids[i], INTERRUPTED)
  {
    seq(|ids|, i requires 0 <= i < |ids| => Answer(ids[i], INTERRUPTED))
  }

  /** Answering the first waiting calls in order leaves the rest waiting. */
  lemma {:induction false} AnswersConsumeWaiting(messages: seq<Message>, answers: seq<Message>)
    requires Legal(messages) && |answers| <= |Waiting(messages).value|
    requires forall i :: 0 <= i < |answers| ==> answers[i].Answer? && answers[i].callId == Waiting(messages).value[i]
    ensures Waiting(messages + answers) == Some(Waiting(messages).value[|answers|..])
    ensures CallIds(messages + answers) == CallIds(messages)
  {
    if answers == [] {
      assert messages + answers == messages;
    } else {
      var n := |answers| - 1;
      AnswersConsumeWaiting(messages, answers[..n]);
      WaitingAfter(messages + answers[..n], answers[n]);
      assert messages + answers == (messages + answers[..n]) + [answers[n]];
    }
  }

  /** The transcript after recovery: the waiting calls answered as interrupted. */
  function Recovered(messages: seq<Message>): seq<Message> {
    messages + Interruptions(Unanswered(CallIds(messages), AnsweredIds(messages)))
  }

  /** Recovery closes whatever legal transcript a crash left behind, with results that say so, and changes a closed
      one not at all. */
  lemma RecoveryCloses(messages: seq<Message>)
    requires Legal(messages) && Distinct(CallIds(messages))
    ensures Closed(Recovered(messages))
    ensures forall i :: |messages| <= i < |Recovered(messages)| ==>
      Recovered(messages)[i].Answer? && Recovered(messages)[i].result == ToolResult(InterruptedByRestart, Some(RUNTIME_RESTARTED))
    ensures CallIds(Recovered(messages)) == CallIds(messages)
    ensures messages <= Recovered(messages)
    ensures Closed(messages) ==> Recovered(messages) == messages
  {
    var waiting := Waiting(messages).value;
    var answers := Interruptions(waiting);
    UnansweredAreWaiting(messages);
    AnswersConsumeWaiting(messages, answers);
    assert waiting[|answers|..] == [];
    assert waiting == [] ==> messages + answers == messages;
  }

  // ---------------------------------------------------------------- the conversation object

  class Conversation {
    var messages: seq<Message>

    constructor (systemPrompt: string)
      ensures messages == [System(systemPrompt)] && Closed(messages)
    {
      messages := [System(systemPrompt)];
      new;
      WaitingAfter([], System(systemPrompt));
      assert [] + [System(systemPrompt)] == messages;
    }

    constructor OfMessages(stored: seq<Message>)
      ensures messages == stored
    {
      messages := stored;
    }

    /** Refuses a stored history that does not begin with the system prompt. */
    static method FromMessages(stored: seq<Message>) returns (restored: Option<Conversation>)
      ensures restored.Some? <==> stored != [] && stored[0].System?
      ensures restored.Some? ==> fresh(restored.value) && restored.value.messages == stored
    {
      if stored == [] || !stored[0].System? {
        return None;
      }
      var conversation := new Conversation.OfMessages(stored);
      restored := Some(conversation);
    }

    /** Appending keeps the transcript legal exactly when the protocol allows the message next. */
    method AppendUser(text: string)
      modifies this
      ensures messages == old(messages) + [User(text)]
      ensures Legal(messages) <==> Closed(old(messages))
      ensures Closed(old(messages)) ==> Closed(messages)
    {
      WaitingAfter(messages, User(text));
      messages := messages + [User(text)];
    }

    method AppendAssistant(text: string, calls: seq<ToolCall>)
      modifies this
      ensures messages == old(messages) + [Assistant(text, calls)]
      ensures Legal(messages) <==> Closed(old(messages))
      ensures Closed(old(messages)) ==> Waiting(messages) == Some(Ids(calls))
    {
      WaitingAfter(messages, Assistant(text, calls));
      messages := messages + [Assistant(text, calls)];
    }

    method AppendToolResult(id: CallId, result: ToolResult)
      modifies this
      ensures messages == old(messages) + [Answer(id, result)]
      ensures Legal(messages) <==>
        Legal(old(messages)) && Waiting(old(messages)).value != [] && Waiting(old(messages)).value[0] == id
      ensures Legal(messages) ==> Waiting(messages) == Some(Waiting(old(messages)).value[1..])
    {
      WaitingAfter(messages, Answer(id, result));
      messages := messages + [Answer(id, result)];
    }

    /** Collects the calls without a result over the whole history and answers them as interrupted. */
    method AppendInterruptedToolResults() returns (pending: seq<CallId>)
      modifies this
      ensures messages == Recovered(old(messages))
      ensures Legal(old(messages)) && Distinct(CallIds(old(messages))) ==>
        Closed(messages) && pending == Waiting(old(messages)).value
    {
      pending := [];
      var completed: set<CallId> := {};
      var next := 0;
      while next < |messages|
        invariant 0 <= next <= |messages| && messages == old(messages)
        invariant pending == CallIds(messages[..next]) && completed == AnsweredIds(messages[..next])
      {
        WaitingAfter(messages[..next], messages[next]);
        assert messages[..next + 1] == messages[..next] + [messages[next]];
        match messages[next] {
          case Assistant(_, calls) => pending := pending + Ids(calls);
          case Answer(id, _) => completed := completed + {id};
          case _ =>
        }
        next := next + 1;
      }
      assert messages[..next] == messages;
      if Legal(messages) && Distinct(CallIds(messages)) {
        RecoveryCloses(messages);
        UnansweredAreWaiting(messages);
      }
      pending := Unanswered(pending, completed);
      messages := messages + Interruptions(pending);
    }
  }
}
