/** Executing the tool calls of one assistant message: every call gets exactly one result, whichever
    way the batch ends (agent/runtime/tool_coordinator.py). */
module ToolBatch {
  import opened Common
  import opened Transcript
  import opened RunBudget

  datatype Resolution = Granted | Declined | Expired | Withdrawn

  datatype Event =
    | Requested(id: CallId)
    | ApprovalRequested(id: CallId)
    | ApprovalResolved(id: CallId, resolution: Resolution)
    | Started(id: CallId)
    | Finished(id: CallId, result: ToolResult)

  datatype Decision = Allow | Deny(reason: string) | RequireApproval(reason: string) | PolicyFails

  /** How the wait for the approval ends. */
  datatype Reply = Approved | Refused | TimedOut | Interrupted

  /** How the wait for the tool ends; a result may also settle after a cancellation. */
  datatype Execution = Returned(result: ToolResult) | DeadlineReached | Aborted | Crashed

  /** Everything about one call that is decided outside the coordinator: Policy, user, tool, the clock
      at each reading, and whether Turn.cancel arrives during one of the two waits. */
  datatype Script = Script(
    decision: Decision, reply: Reply, cancelledInApproval: bool,
    conflict: Option<ToolResult>, execution: Execution, cancelledInExecution: bool, bookkeepingFails: bool,
    beginAt: real, pauseAt: real, resumeAt: real, waitAt: real, recordAt: real)
  {
    /** Policy allows the call, or asks and the user approves. */
    predicate Permitted() { decision.Allow? || (decision.RequireApproval? && reply.Approved?) }
  }

  const APPROVAL_TIMED_OUT := ToolResult(ToolApprovalTimedOut, Some(APPROVAL_TIMEOUT))
  const DEADLINE := ToolResult(ToolCancelledAtDeadline, Some(LIMIT_REACHED))
  const CANCELLED_CALL := ToolResult(ToolCancelledWithTurn, Some(ErrorCode.CANCELLED))
  const FAILED := ToolResult(ToolCoordinationFailed, Some(INTERNAL_ERROR))
  const DENIED := ToolResult(ToolDenied, Some(POLICY_DENIED))

  const OVER_BUDGET := ToolResult(ToolBudgetReached, Some(LIMIT_REACHED))

  /** When a batch ended early: before the call ran, while it ran, or after its result was recorded. */
  datatype Moment = BeforeCall | DuringCall | AfterCall

  /** The result of a call that was carried through. */
  function OwnResult(script: Script): ToolResult {
    if !script.Permitted() then DENIED
    else if script.conflict.Some? then script.conflict.value
    else if script.execution.Returned? then script.execution.result
    else FAILED
  }

  /** The result of the call during which the batch ends. */
  function AbortResult(exit: Exit): ToolResult {
    match exit
    case ApprovalTimeout => APPROVAL_TIMED_OUT
    case Limit(_) => DEADLINE
    case Cancelled => CANCELLED_CALL
    case _ => FAILED
  }

  /** The result of every call behind the one at which the batch ends. */
  function SkippedResult(exit: Exit, moment: Moment): ToolResult {
    match exit
    case ApprovalTimeout => APPROVAL_TIMED_OUT
    case Limit(reason) =>
      if moment.BeforeCall? then OVER_BUDGET
      else if moment.AfterCall? && reason.RepeatedToolFailure? then ToolResult(RepeatedFailureReached, Some(LIMIT_REACHED))
      else ToolResult(TurnDeadlineReached, Some(LIMIT_REACHED))
    case Cancelled => ToolResult(TurnCancelled, Some(ErrorCode.CANCELLED))
    case _ => FAILED
  }

  /** The result of the k-th call of a batch that ended with `exit` at call `last`. */
  function ResultAt(script: nat -> Script, exit: Exit, moment: Moment, last: nat, k: nat): ToolResult {
    if exit.Completed? || k < last then OwnResult(script(k))
    else if k > last || moment.BeforeCall? then SkippedResult(exit, moment)
    else if moment.DuringCall? then AbortResult(exit)
    else OwnResult(script(k))
  }

  // ---------------------------------------------------------------- how a call and a batch end

  /** What carrying out one call comes to: how it ends, whether the tool was started, whether an approval is
      left marked as pending, and the controller's books. */
  datatype Course = Course(exit: Exit, ran: bool, pending: bool, books: Books)

  function CourseOf(books: Books, script: Script): Course {
    if script.decision.PolicyFails? then Course(InternalError, false, false, books)
    else if script.decision.Deny? then Course(Completed, false, false, books)
    else if script.decision.Allow? then ToolCourse(books, script)
    else ApprovalCourse(books, script)
  }

  function ApprovalCourse(books: Books, script: Script): Course {
    if books.CheckpointAt(script.pauseAt) != Completed then Course(books.CheckpointAt(script.pauseAt), false, true, books)
    else
      var after := books.AfterPause(script.pauseAt, script.resumeAt, script.cancelledInApproval);
      if script.reply.Approved? then ToolCourse(after, script) else Course(ReplyExit(script.reply), false, false, after)
  }

  function ReplyExit(reply: Reply): Exit {
    match reply case TimedOut => ApprovalTimeout case Interrupted => Exit.Cancelled case _ => Completed
  }

  function ReplyResolution(reply: Reply): Resolution {
    match reply case Approved => Granted case Refused => Declined case TimedOut => Expired case Interrupted => Withdrawn
  }

  function ToolCourse(books: Books, script: Script): Course {
    if script.conflict.Some? then Course(Completed, false, false, books)
    else if books.CheckpointAt(script.waitAt) != Completed then Course(books.CheckpointAt(script.waitAt), false, false, books)
    else Course(ExecutionExit(script), true, false, books.(cancelled := books.cancelled || script.cancelledInExecution))
  }

  function ExecutionExit(script: Script): Exit {
    match script.execution
    case Returned(_) => if script.bookkeepingFails then InternalError else Completed
    case DeadlineReached => Limit(ExecutionTimeout)
    case Aborted => Exit.Cancelled
    case Crashed => InternalError
  }

  /** How the call ends the batch, or that it does not. */
  datatype CallEnd = CallEnd(exit: Exit, moment: Moment, ran: bool, pending: bool, books: Books)

  function CallEndOf(books: Books, call: ToolCall, script: Script): CallEnd {
    if books.ToolAt(script.beginAt) != Completed then CallEnd(books.ToolAt(script.beginAt), BeforeCall, false, false, books)
    else BegunEndOf(books.(toolCalls := books.toolCalls + 1), call, script)
  }

  function BegunEndOf(books: Books, call: ToolCall, script: Script): CallEnd {
    var course := CourseOf(books, script);
    if course.exit != Completed then CallEnd(course.exit, DuringCall, course.ran, course.pending, course.books)
    else
      var recorded := course.books.WithOutcome(call, OwnResult(script));
      CallEnd(AfterRecording(recorded, script.recordAt), AfterCall, course.ran, false, recorded)
  }

  function AfterRecording(books: Books, now: real): Exit {
    if Repeating(books.outcomes) then Limit(RepeatedToolFailure) else books.CheckpointAt(now)
  }

  /** How a batch ends, at which call, and the calls whose tools were started. */
  datatype BatchEnd = BatchEnd(exit: Exit, last: nat, moment: Moment, pending: bool, ran: seq<nat>, books: Books)

  function BatchEndOf(books: Books, calls: seq<ToolCall>, script: nat -> Script, index: nat): (end: BatchEnd)
    requires index <= |calls|
    ensures index <= end.last <= |calls| && (end.exit == Completed <==> end.last == |calls|)
    decreases |calls| - index
  {
    if index == |calls| then BatchEnd(Completed, index, AfterCall, false, [], books)
    else
      var end := CallEndOf(books, calls[index], script(index));
      if end.exit != Completed then BatchEnd(end.exit, index, end.moment, end.pending, RanAt(end, index), end.books)
      else
        var rest := BatchEndOf(end.books, calls, script, index + 1);
        rest.(ran := RanAt(end, index) + rest.ran)
  }

  function RanAt(end: CallEnd, index: nat): seq<nat> { if end.ran then [index] else [] }

  // ---------------------------------------------------------------- why a batch ends

  /** Whether the call gets as far as the tool: it begins, it is permitted, an approval does not come too
      late, nothing is in conflict and the Turn still lives. */
  predicate Reaches(books: Books, script: Script) {
    && books.ToolAt(script.beginAt) == Completed && script.Permitted() && script.conflict.None?
    && var begun := books.(toolCalls := books.toolCalls + 1);
    && (script.decision.RequireApproval? ==> begun.CheckpointAt(script.pauseAt) == Completed)
    && BeforeTool(begun, script).CheckpointAt(script.waitAt) == Completed
  }

  /** The books when the tool would start. */
  function BeforeTool(books: Books, script: Script): Books {
    if script.decision.RequireApproval? then books.AfterPause(script.pauseAt, script.resumeAt, script.cancelledInApproval)
    else books
  }

  /** The tool is started exactly when the call gets that far. */
  lemma ToolStartsIff(books: Books, call: ToolCall, script: Script)
    ensures CallEndOf(books, call, script).ran <==> Reaches(books, script)
  {
  }

  /** A batch fails internally exactly because of the Policy, the tool, or the bookkeeping behind it. */
  lemma InternalErrorIff(books: Books, call: ToolCall, script: Script)
    ensures CallEndOf(books, call, script).exit == InternalError <==>
      || (books.ToolAt(script.beginAt) == Completed && script.decision.PolicyFails?)
      || (Reaches(books, script) && (script.execution.Crashed? || (script.execution.Returned? && script.bookkeepingFails)))
  {
  }

  lemma ApprovalTimeoutIff(books: Books, call: ToolCall, script: Script)
    ensures CallEndOf(books, call, script).exit == ApprovalTimeout <==>
      && books.ToolAt(script.beginAt) == Completed && script.decision.RequireApproval? && script.reply.TimedOut?
      && books.CheckpointAt(script.pauseAt) == Completed
  {
  }

  /** An approval is left marked as pending exactly when the deadline has passed as it is asked for. */
  lemma LeftPendingIff(books: Books, call: ToolCall, script: Script)
    ensures CallEndOf(books, call, script).pending <==>
      && books.ToolAt(script.beginAt) == Completed && script.decision.RequireApproval?
      && books.CheckpointAt(script.pauseAt) == Limit(ExecutionTimeout)
    ensures CallEndOf(books, call, script).pending ==> CallEndOf(books, call, script).exit == Limit(ExecutionTimeout)
  {
  }

  /** A deadline of one second, with a call that begins in time and asks for approval too late. */
  lemma ApprovalCanBeLeftPending(call: ToolCall, script: Script)
    requires script.decision.RequireApproval? && script.beginAt == 0.5 && script.pauseAt == 1.5
    ensures CallEndOf(Books(Limits(1, 1, 1.0), text => text, 0.0, 0.0, false, 1, 0, []), call, script).pending
  {
  }

  /** The books before the k-th call of a batch whose earlier calls were carried through. */
  function BooksAt(books: Books, calls: seq<ToolCall>, script: nat -> Script, k: nat): Books
    requires k <= |calls|
    decreases k, 0
  {
    if k == 0 then books else CallAt(books, calls, script, k - 1).books
  }

  /** The end of the k-th call in such a batch. */
  function CallAt(books: Books, calls: seq<ToolCall>, script: nat -> Script, k: nat): CallEnd
    requires k < |calls|
    decreases k, 1
  {
    CallEndOf(BooksAt(books, calls, script, k), calls[k], script(k))
  }

  /** The calls before the last one do not end the batch, and the last one ends it as the batch ends. */
  ghost predicate EndsWithFirst(books: Books, calls: seq<ToolCall>, script: nat -> Script, index: nat, end: BatchEnd) {
    && end.last <= |calls|
    && (forall k :: index <= k < end.last ==> CallAt(books, calls, script, k).exit == Completed)
    && (end.last < |calls| ==> EndsLike(CallAt(books, calls, script, end.last), end))
    && (end.last == |calls| ==> end.exit == Completed && end.books == BooksAt(books, calls, script, |calls|))
  }

  ghost predicate EndsLike(call: CallEnd, end: BatchEnd) {
    call.exit == end.exit != Completed && call.moment == end.moment && call.pending == end.pending && call.books == end.books
  }

  lemma {:induction false} BatchEndsWithFirst(books: Books, calls: seq<ToolCall>, script: nat -> Script, index: nat, now: Books)
    requires index <= |calls| && now == BooksAt(books, calls, script, index)
    ensures EndsWithFirst(books, calls, script, index, BatchEndOf(now, calls, script, index))
    decreases |calls| - index
  {
    if index < |calls| {
      var call := FirstCall(now, calls, script, index);
      if call.exit == Completed {
        BatchEndsWithFirst(books, calls, script, index + 1, call.books);
        var rest := BatchEndOf(call.books, calls, script, index + 1);
        FirstCallGoesOn(books, calls, script, index, call, rest, rest.(ran := RanAt(call, index) + rest.ran));
      }
    }
  }

  lemma FirstCallGoesOn(books: Books, calls: seq<ToolCall>, script: nat -> Script, index: nat, call: CallEnd, rest: BatchEnd, all: BatchEnd)
    requires index < |calls| && call == CallAt(books, calls, script, index) && call.exit == Completed
    requires EndsWithFirst(books, calls, script, index + 1, rest)
    requires all == rest.(ran := all.ran)
    ensures EndsWithFirst(books, calls, script, index, all)
  {
  }

  /** One call of the batch, and the rest of it. */
  lemma BatchEndNext(now: Books, calls: seq<ToolCall>, script: nat -> Script, index: nat, call: CallEnd)
    requires index < |calls| && call == CallEndOf(now, calls[index], script(index))
    ensures call.exit != Completed ==>
      BatchEndOf(now, calls, script, index) == BatchEnd(call.exit, index, call.moment, call.pending, RanAt(call, index), call.books)
    ensures call.exit == Completed ==>
      var rest := BatchEndOf(call.books, calls, script, index + 1);
      BatchEndOf(now, calls, script, index) == rest.(ran := RanAt(call, index) + rest.ran)
  {
  }

  /** The permitted calls without a conflict, in order. */
  function Runnable(calls: seq<ToolCall>, script: nat -> Script, index: nat): seq<nat>
    requires index <= |calls|
    decreases |calls| - index
  {
    if index == |calls| then []
    else (if MayRun(script(index)) then [index] else []) + Runnable(calls, script, index + 1)
  }

  predicate MayRun(script: Script) { script.Permitted() && script.conflict.None? }

  /** A tool is started only if it may run, and when the call is carried through, exactly then. */
  lemma StartedIffMayRun(books: Books, call: ToolCall, script: Script)
    ensures var end := CallEndOf(books, call, script);
      (end.ran ==> MayRun(script)) && (end.exit == Completed ==> (end.ran <==> MayRun(script)))
  {
  }

  lemma FirstCall(books: Books, calls: seq<ToolCall>, script: nat -> Script, index: nat) returns (call: CallEnd)
    requires index < |calls|
    ensures call == CallEndOf(books, calls[index], script(index))
    ensures call.books.limits == books.limits && call.books.iterations == books.iterations
    ensures call.ran ==> MayRun(script(index))
    ensures call.exit == Completed ==> (call.ran <==> MayRun(script(index)))
    ensures call.exit != Completed ==>
      BatchEndOf(books, calls, script, index) == BatchEnd(call.exit, index, call.moment, call.pending, RanAt(call, index), call.books)
    ensures call.exit == Completed ==>
      var rest := BatchEndOf(call.books, calls, script, index + 1);
      BatchEndOf(books, calls, script, index) == rest.(ran := RanAt(call, index) + rest.ran)
  {
    call := CallEndOf(books, calls[index], script(index));
    StartedIffMayRun(books, calls[index], script(index));
    BatchEndNext(books, calls, script, index, call);
  }

  /** A batch that completes has started exactly the permitted calls without a conflict. */
  lemma {:induction false} CompletedBatchRanAll(books: Books, calls: seq<ToolCall>, script: nat -> Script, index: nat)
    requires index <= |calls| && BatchEndOf(books, calls, script, index).exit == Completed
    ensures BatchEndOf(books, calls, script, index).ran == Runnable(calls, script, index)
    decreases |calls| - index
  {
    if index < |calls| {
      var call := FirstCall(books, calls, script, index);
      CompletedBatchRanAll(call.books, calls, script, index + 1);
    }
  }

  // ---------------------------------------------------------------- what each call is answered with

  /** The result of the call at `k` of a batch that ended with `exit` at `last`, said case by case: its own outcome
      when it was carried through, the reason of the end when it was open or behind. */
  ghost predicate IsAnswer(script: Script, exit: Exit, moment: Moment, last: nat, k: nat, result: ToolResult) {
    if exit == Completed || k < last || (k == last && moment == AfterCall) then
      match script.decision
      case Deny(_) => result == ToolResult(ToolDenied, Some(POLICY_DENIED))
      case RequireApproval(_) =>
        if script.reply == Refused then result == ToolResult(ToolDenied, Some(POLICY_DENIED))
        else script.reply == Approved && IsOutcome(script, result)
      case Allow => IsOutcome(script, result)
      case PolicyFails => false
    else if k == last && moment == DuringCall then
      match exit
      case ApprovalTimeout => result == ToolResult(ToolApprovalTimedOut, Some(APPROVAL_TIMEOUT))
      case Limit(_) => result == ToolResult(ToolCancelledAtDeadline, Some(LIMIT_REACHED))
      case Cancelled => result == ToolResult(ToolCancelledWithTurn, Some(ErrorCode.CANCELLED))
      case _ => result == ToolResult(ToolCoordinationFailed, Some(INTERNAL_ERROR))
    else
      match exit
      case ApprovalTimeout => result == ToolResult(ToolApprovalTimedOut, Some(APPROVAL_TIMEOUT))
      case Limit(RepeatedToolFailure) => result == ToolResult(RepeatedFailureReached, Some(LIMIT_REACHED))
      case Limit(_) =>
        result == ToolResult(if moment == BeforeCall then ToolBudgetReached else TurnDeadlineReached, Some(LIMIT_REACHED))
      case Cancelled => result == ToolResult(TurnCancelled, Some(ErrorCode.CANCELLED))
      case _ => result == ToolResult(ToolCoordinationFailed, Some(INTERNAL_ERROR))
  }

  /** The conflict that kept a permitted tool from running, or exactly what the tool returned. */
  ghost predicate IsOutcome(script: Script, result: ToolResult) {
    match script.conflict
    case Some(conflict) => result == conflict
    case None => script.execution == Returned(result)
  }

  /** One answer for every call, under its own id, with its own result. */
  ghost predicate AnswersAll(calls: seq<ToolCall>, script: nat -> Script, exit: Exit, moment: Moment, last: nat, answers: seq<Message>) {
    |answers| == |calls| && forall k :: 0 <= k < |calls| ==>
      answers[k].Answer? && answers[k].callId == calls[k].id && IsAnswer(script(k), exit, moment, last, k, answers[k].result)
  }

  /** A call that is carried through has an outcome of its own, and a repeated failure ends a batch behind a call. */
  lemma CarriedThrough(books: Books, call: ToolCall, script: Script)
    ensures var end := CallEndOf(books, call, script);
      && (end.exit == Completed || end.moment == AfterCall ==> IsAnswer(script, Completed, AfterCall, 0, 0, OwnResult(script)))
      && (end.exit != Completed && end.moment != AfterCall ==> end.exit != Limit(RepeatedToolFailure))
  {
  }

  lemma EndedCallIsAnswered(books: Books, call: ToolCall, script: Script, k: nat)
    requires CallEndOf(books, call, script).exit != Completed
    ensures var end := CallEndOf(books, call, script);
      && (end.moment == AfterCall ==> IsAnswer(script, end.exit, end.moment, k, k, OwnResult(script)))
      && (end.moment == DuringCall ==> IsAnswer(script, end.exit, end.moment, k, k, AbortResult(end.exit)))
      && (end.moment == BeforeCall ==> IsAnswer(script, end.exit, end.moment, k, k, SkippedResult(end.exit, end.moment)))
  {
    CarriedThrough(books, call, script);
  }

  lemma CallBehindIsAnswered(books: Books, call: ToolCall, script: Script, behind: Script, last: nat, k: nat)
    requires CallEndOf(books, call, script).exit != Completed && k > last
    ensures var end := CallEndOf(books, call, script);
      IsAnswer(behind, end.exit, end.moment, last, k, SkippedResult(end.exit, end.moment))
  {
    CarriedThrough(books, call, script);
  }

  /** Every call from `index` on has the result that goes with how and where the batch ends. */
  lemma {:induction false} EveryCallIsAnswered(books: Books, calls: seq<ToolCall>, script: nat -> Script, index: nat, k: nat)
    requires index <= k < |calls|
    ensures var end := BatchEndOf(books, calls, script, index);
      IsAnswer(script(k), end.exit, end.moment, end.last, k, ResultAt(script, end.exit, end.moment, end.last, k))
    decreases |calls| - index
  {
    var call := FirstCall(books, calls, script, index);
    if call.exit != Completed {
      if k == index {
        EndedCallIsAnswered(books, calls[index], script(index), k);
      } else {
        CallBehindIsAnswered(books, calls[index], script(index), script(k), index, k);
      }
    } else if k == index {
      CarriedThrough(books, calls[index], script(index));
    } else {
      EveryCallIsAnswered(call.books, calls, script, index + 1, k);
    }
  }

  lemma BatchIsAnswered(books: Books, calls: seq<ToolCall>, script: nat -> Script, answers: seq<Message>)
    requires |answers| == |calls|
    requires var end := BatchEndOf(books, calls, script, 0);
      forall k :: 0 <= k < |calls| ==> answers[k] == Answer(calls[k].id, ResultAt(script, end.exit, end.moment, end.last, k))
    ensures var end := BatchEndOf(books, calls, script, 0);
      AnswersAll(calls, script, end.exit, end.moment, end.last, answers)
  {
    forall k | 0 <= k < |calls|
      ensures var end := BatchEndOf(books, calls, script, 0);
        IsAnswer(script(k), end.exit, end.moment, end.last, k, answers[k].result)
    {
      EveryCallIsAnswered(books, calls, script, 0, k);
    }
  }

  /** Tools ran for permitted calls without a conflict between `from` and `to` only, each once, in order. */
  ghost predicate OnlyPermitted(script: nat -> Script, ran: seq<nat>, from: nat, to: nat) {
    && (forall i, j :: 0 <= i < j < |ran| ==> ran[i] < ran[j])
    && (forall i :: 0 <= i < |ran| ==> from <= ran[i] < to && MayRun(script(ran[i])))
  }

  /** Whatever ends the batch, tools ran only for permitted calls up to the last one. */
  lemma {:induction false} OnlyPermittedRan(books: Books, calls: seq<ToolCall>, script: nat -> Script, index: nat)
    requires index <= |calls|
    ensures var end := BatchEndOf(books, calls, script, index); OnlyPermitted(script, end.ran, index, end.last + 1)
    decreases |calls| - index
  {
    if index < |calls| {
      var call := FirstCall(books, calls, script, index);
      if call.exit == Completed {
        OnlyPermittedRan(call.books, calls, script, index + 1);
        var rest := BatchEndOf(call.books, calls, script, index + 1);
        OneMoreRan(script, call, index, rest.ran, rest.last + 1);
      } else {
        OneMoreRan(script, call, index, [], index + 1);
        assert RanAt(call, index) + [] == RanAt(call, index);
      }
    }
  }

  lemma OneMoreRan(script: nat -> Script, call: CallEnd, index: nat, ran: seq<nat>, to: nat)
    requires (call.ran ==> MayRun(script(index))) && index < to && OnlyPermitted(script, ran, index + 1, to)
    ensures OnlyPermitted(script, RanAt(call, index) + ran, index, to)
  {
  }

  // ---------------------------------------------------------------- the event protocol of a batch

  /** The transcript messages the finished calls stand for. */
  function Answers(events: seq<Event>): seq<Message> {
    if events == [] then []
    else
      var last := events[|events| - 1];
      Answers(events[..|events| - 1]) + if last.Finished? then [Answer(last.id, last.result)] else []
  }

  /** Where a batch stands: the calls still to be requested, and the one being worked on. */
  datatype Progress = Idle(todo: seq<CallId>) | Busy(id: CallId, todo: seq<CallId>) | OutOfOrder

  function Advance(progress: Progress, event: Event): Progress {
    match progress
    case Idle(todo) =>
      if event.Requested? && todo != [] && todo[0] == event.id then Busy(event.id, todo[1..]) else OutOfOrder
    case Busy(id, todo) =>
      if event.id != id || event.Requested? then OutOfOrder
      else if event.Finished? then Idle(todo)
      else progress
    case OutOfOrder => OutOfOrder
  }

  function Track(progress: Progress, events: seq<Event>): Progress {
    if events == [] then progress
    else Advance(Track(progress, events[..|events| - 1]), events[|events| - 1])
  }

  lemma Tracked(progress: Progress, events: seq<Event>, event: Event)
    ensures Track(progress, events + [event]) == Advance(Track(progress, events), event)
    ensures Answers(events + [event]) == Answers(events) + if event.Finished? then [Answer(event.id, event.result)] else []
  {
    assert (events + [event])[..|events|] == events;
  }

  function DoneIn(progress: Progress): nat {
    match progress case Idle(todo) => |todo| case Busy(_, todo) => |todo| + 1 case OutOfOrder => 0
  }

  /** The answers given so far, and what remains of the batch. */
  ghost predicate Split(ids: seq<CallId>, answers: seq<Message>, progress: Progress) {
    && DoneIn(progress) + |answers| == |ids|
    && (forall k :: 0 <= k < |answers| ==> answers[k].Answer? && answers[k].callId == ids[k])
    && Remaining(progress) == ids[|answers|..]
  }

  lemma SplitAdvances(ids: seq<CallId>, answers: seq<Message>, progress: Progress, event: Event)
    requires Split(ids, answers, progress) && Advance(progress, event) != OutOfOrder
    ensures Split(ids, answers + if event.Finished? then [Answer(event.id, event.result)] else [], Advance(progress, event))
  {
    if event.Finished? {
      assert ids[|answers|..][0] == event.id;
      assert ids[|answers|..][1..] == ids[|answers| + 1..];
    } else {
      assert answers + [] == answers;
    }
  }

  /** Events in protocol order finish the calls in order, one result each. */
  lemma {:induction false} FinishedInOrder(ids: seq<CallId>, events: seq<Event>)
    requires Track(Idle(ids), events) != OutOfOrder
    ensures Split(ids, Answers(events), Track(Idle(ids), events))
  {
    if events != [] {
      var before := events[..|events| - 1];
      FinishedInOrder(ids, before);
      SplitAdvances(ids, Answers(before), Track(Idle(ids), before), events[|events| - 1]);
    }
  }

  function Remaining(progress: Progress): seq<CallId> {
    match progress case Idle(todo) => todo case Busy(id, todo) => [id] + todo case OutOfOrder => []
  }

  /** A batch that ran to its end in protocol order answers all its calls and closes the transcript. */
  lemma BatchClosesTranscript(messages: seq<Message>, ids: seq<CallId>, events: seq<Event>)
    requires Waiting(messages) == Some(ids) && Track(Idle(ids), events) == Idle([])
    ensures Closed(messages + Answers(events)) && |Answers(events)| == |ids|
    ensures CallIds(messages + Answers(events)) == CallIds(messages)
  {
    FinishedInOrder(ids, events);
    AnswersConsumeWaiting(messages, Answers(events));
    assert ids[|ids|..] == [];
  }

  /** An approval is shown as asked for, and then as what the reply made of it. */
  function Asked(id: CallId, reply: Reply): (shown: seq<Event>)
    ensures |shown| == 2 && shown[0] == ApprovalRequested(id)
    ensures shown[1] == ApprovalResolved(id, Granted) <==> reply == Approved
    ensures shown[1] == ApprovalResolved(id, Declined) <==> reply == Refused
    ensures shown[1] == ApprovalResolved(id, Expired) <==> reply == TimedOut
    ensures shown[1] == ApprovalResolved(id, Withdrawn) <==> reply == Interrupted
  {
    [ApprovalRequested(id), ApprovalResolved(id, ReplyResolution(reply))]
  }

  /** Events of a call between its request and its result. */
  ghost predicate Between(events: seq<Event>, id: CallId) {
    forall i :: 0 <= i < |events| ==> events[i].id == id && !events[i].Requested? && !events[i].Finished?
  }

  lemma {:induction false} BetweenKeepsProgress(progress: Progress, events: seq<Event>, middle: seq<Event>)
    requires Track(progress, events).Busy? && Between(middle, Track(progress, events).id)
    ensures Track(progress, events + middle) == Track(progress, events)
    ensures Answers(events + middle) == Answers(events)
  {
    if middle == [] {
      assert events + middle == events;
    } else {
      var n := |middle| - 1;
      BetweenKeepsProgress(progress, events, middle[..n]);
      Tracked(progress, events + middle[..n], middle[n]);
      assert events + middle == events + middle[..n] + [middle[n]];
    }
  }

  // ---------------------------------------------------------------- the coordinator

  /** What a batch starts from. */
  datatype Base = Base(events: seq<Event>, messages: seq<Message>, executed: seq<CallId>)

  class ToolCoordinator {
    const conversation: Conversation
    const controller: RunController
    var events: seq<Event>
    var pendingApproval: Option<CallId>
    var waiting: bool
    var executed: seq<CallId>   // handed to the tool registry, in order

    constructor (conversation: Conversation, controller: RunController)
      ensures this.conversation == conversation && this.controller == controller
      ensures events == [] && pendingApproval == None && !waiting && executed == []
    {
      this.conversation, this.controller := conversation, controller;
      events, pendingApproval, waiting, executed := [], None, false, [];
    }

    method Emit(event: Event)
      modifies this`events
      ensures events == old(events) + [event]
    {
      events := events + [event];
    }

    /** Puts the result into the transcript and reports it. */
    method Record(call: ToolCall, result: ToolResult)
      modifies this`events, conversation
      ensures conversation.messages == old(conversation.messages) + [Answer(call.id, result)]
      ensures events == old(events) + [Finished(call.id, result)]
    {
      conversation.AppendToolResult(call.id, result);
      Emit(Finished(call.id, result));
    }

    /** Asks the user, with the clock stopped while the answer is awaited. A deadline that has already
        passed ends the request before it is shown, and leaves it marked as pending. */
    method RequestApproval(call: ToolCall, script: Script) returns (exit: Exit, approved: bool)
      requires controller.Valid() && controller.pausedAt == None && !waiting && pendingApproval == None
      modifies this`events, this`pendingApproval, this`waiting
      modifies controller`pausedAt, controller`pausedSeconds, controller`marks, controller`cancelRequested
      ensures controller.Valid() && controller.pausedAt == None && !waiting
      ensures old(events) <= events && Between(events[|old(events)|..], call.id)
      ensures var late := old(controller.Now()).CheckpointAt(script.pauseAt);
        if late != Completed then
          exit == late && pendingApproval == Some(call.id) && events == old(events) && controller.Now() == old(controller.Now())
        else
          && pendingApproval == None
          && controller.Now() == old(controller.Now()).AfterPause(script.pauseAt, script.resumeAt, script.cancelledInApproval)
          && exit == ReplyExit(script.reply) && events == old(events) + Asked(call.id, script.reply)
      ensures exit == Completed ==> approved == script.reply.Approved?
    {
      approved := false;
      pendingApproval := Some(call.id);
      exit := controller.PauseDeadline(script.pauseAt);
      if exit == Completed {
        exit, approved := AwaitApproval(call, script);
      }
    }

    /** The wait for the answer, with the clock stopped. */
    method AwaitApproval(call: ToolCall, script: Script) returns (exit: Exit, approved: bool)
      requires controller.Valid() && controller.pausedAt == Some(script.pauseAt)
      modifies this`events, this`pendingApproval, this`waiting
      modifies controller`pausedAt, controller`pausedSeconds, controller`marks, controller`cancelRequested
      ensures controller.Valid() && controller.pausedAt == None && !waiting && pendingApproval == None
      ensures old(events) <= events && Between(events[|old(events)|..], call.id)
      ensures controller.Now() == old(controller.Now()).AfterPause(script.pauseAt, script.resumeAt, script.cancelledInApproval)
      ensures exit == ReplyExit(script.reply) && events == old(events) + Asked(call.id, script.reply)
      ensures approved == script.reply.Approved?
    {
      exit, approved := ReplyExit(script.reply), script.reply.Approved?;
      waiting := true;
      Emit(ApprovalRequested(call.id));
      if script.cancelledInApproval {
        var _ := controller.Cancel();
      }
      pendingApproval := None;
      waiting := false;
      var _ := controller.ResumeDeadline(script.resumeAt);
      Emit(ApprovalResolved(call.id, ReplyResolution(script.reply)));
    }

    /** Decides, asks, executes. A tool runs only with permission, and never once the Turn is over. */
    method ExecuteOne(call: ToolCall, script: Script) returns (exit: Exit, result: ToolResult)
      requires controller.Valid() && controller.pausedAt == None && !waiting && pendingApproval == None
      modifies this`events, this`pendingApproval, this`waiting, this`executed
      modifies controller`pausedAt, controller`pausedSeconds, controller`marks, controller`cancelRequested
      ensures controller.Valid() && controller.pausedAt == None && !waiting
      ensures old(events) <= events && Between(events[|old(events)|..], call.id)
      ensures var course := CourseOf(old(controller.Now()), script);
        && exit == course.exit && controller.Now() == course.books
        && executed == old(executed) + (if course.ran then [call.id] else [])
        && pendingApproval == if course.pending then Some(call.id) else None
      ensures exit == Completed ==> result == OwnResult(script)
      ensures var late := old(controller.Now()).CheckpointAt(script.pauseAt) != Completed;
        events == old(events)
          + (if script.decision.RequireApproval? && !late then Asked(call.id, script.reply) else [])
          + (if script.Permitted() && (script.decision.RequireApproval? ==> !late) then [Started(call.id)] else [])
    {
      exit, result := Completed, DENIED;
      if script.decision.PolicyFails? {
        exit := InternalError;
        return;
      }
      if script.decision.Deny? {
        return;
      }
      if script.decision.RequireApproval? {
        var approved;
        exit, approved := RequestApproval(call, script);
        if exit != Completed || !approved {
          return;
        }
      }
      exit, result := RunTool(call, script);
    }

    /** Starts the tool unless something is in conflict or the Turn is over. */
    method RunTool(call: ToolCall, script: Script) returns (exit: Exit, result: ToolResult)
      requires controller.Valid() && controller.pausedAt == None
      modifies this`events, this`executed, controller`cancelRequested
      ensures controller.Valid()
      ensures events == old(events) + [Started(call.id)]
      ensures var course := ToolCourse(old(controller.Now()), script);
        && exit == course.exit && controller.Now() == course.books && !course.pending
        && executed == old(executed) + (if course.ran then [call.id] else [])
      ensures exit == Completed && script.Permitted() ==> result == OwnResult(script)
    {
      exit, result := Completed, DENIED;
      Emit(Started(call.id));
      if script.conflict.Some? {
        result := script.conflict.value;
        return;
      }
      exit := controller.Checkpoint(script.waitAt);
      if exit != Completed {
        return;
      }
      executed := executed + [call.id];
      if script.cancelledInExecution {
        var _ := controller.Cancel();
      }
      match script.execution {
        case Returned(value) => result := value;
        case DeadlineReached => exit := Limit(ExecutionTimeout);
        case Aborted => exit := Cancelled;
        case Crashed => exit := InternalError;
      }
      if exit == Completed && script.bookkeepingFails {
        exit := InternalError;
      }
    }

    /** The batch so far: `added` on top of the events and the transcript the batch started from. */
    ghost predicate Logged(base: Base, added: seq<Event>)
      reads this, conversation
    {
      events == base.events + added && conversation.messages == base.messages + Answers(added)
    }

    /** Gives every call the same result without running it. */
    method AppendSkipped(calls: seq<ToolCall>, result: ToolResult, firstRequested: bool,
        ghost start: Progress, ghost base: Base, ghost done: seq<Event>)
      returns (ghost all: seq<Event>)
      requires Logged(base, done) && Track(start, done) == AtSkipped(calls, 0, firstRequested)
      modifies this`events, conversation
      ensures Logged(base, all) && Track(start, all) == Idle([])
      ensures Answers(all) == Answers(done) + Skipped(calls, result)
    {
      var index := 0;
      all := done;
      while index < |calls|
        invariant 0 <= index <= |calls|
        invariant Logged(base, all) && SkippedUpTo(start, done, all, calls, index, result, firstRequested)
      {
        SkippedStep(start, done, all, calls, index, result, firstRequested);
        all := SkipOne(calls[index], result, index > 0 || !firstRequested, base, all);
        index := index + 1;
      }
      assert calls[..index] == calls && calls[index..] == [];
    }

    method SkipOne(call: ToolCall, result: ToolResult, request: bool, ghost base: Base, ghost added: seq<Event>)
      returns (ghost all: seq<Event>)
      requires Logged(base, added)
      modifies this`events, conversation
      ensures all == added + SkipEvents(call.id, result, request) && Logged(base, all)
    {
      SkipAnswers(added, call.id, result, request);
      SkipLogged(base.events, added, call.id, result, request);
      Regroup(base.messages, Answers(added), [Answer(call.id, result)]);
      if request {
        Emit(Requested(call.id));
      }
      Record(call, result);
      all := added + SkipEvents(call.id, result, request);
    }

    /** The calls from `index` on get no chance to run: the budget or the deadline is reached. */
    method SkipFrom(calls: seq<ToolCall>, index: nat, ghost script: nat -> Script, ghost exit: Exit,
        ghost base: Base, ghost added: seq<Event>)
      returns (ghost all: seq<Event>)
      requires index < |calls| && exit.Limit?
      requires Logged(base, added) && CallOpen(calls, script, added, index)
      modifies this`events, conversation
      ensures Logged(base, all) && Ended(calls, script, all, exit, BeforeCall, index)
    {
      SkippedFromOpen(calls, index);
      all := AppendSkipped(calls[index..], OVER_BUDGET, true, Idle(Ids(calls)), base, added);
      EndedBefore(calls, script, added, all, exit, index);
    }

    /** The open call and all behind it are closed with the results of an abnormal end. */
    method AbortBatch(calls: seq<ToolCall>, index: nat, exit: Exit, ghost script: nat -> Script,
        ghost base: Base, ghost added: seq<Event>)
      returns (ghost all: seq<Event>)
      requires index < |calls| && exit != Completed
      requires Logged(base, added) && CallOpen(calls, script, added, index)
      modifies this`events, conversation
      ensures Logged(base, all) && Ended(calls, script, all, exit, DuringCall, index)
    {
      var result := AbortResult(exit);
      ghost var done := added + [Finished(calls[index].id, result)];
      CallFinished(calls, script, added, index, result);
      Record(calls[index], result);
      SkippedFromIdle(calls[index + 1..]);
      all := AppendSkipped(calls[index + 1..], SkippedResult(exit, DuringCall), false, Idle(Ids(calls)), base, done);
      EndedAfter(calls, script, done, all, exit, DuringCall, index);
    }

    /** The call at `index` has its result; the ones behind it are skipped. */
    method SkipBehind(calls: seq<ToolCall>, index: nat, exit: Exit, ghost script: nat -> Script,
        ghost base: Base, ghost added: seq<Event>)
      returns (ghost all: seq<Event>)
      requires index < |calls| && exit != Completed
      requires Logged(base, added) && CallAnswered(calls, script, added, index, OwnResult(script(index)))
      modifies this`events, conversation
      ensures Logged(base, all) && Ended(calls, script, all, exit, AfterCall, index)
    {
      SkippedFromIdle(calls[index + 1..]);
      all := AppendSkipped(calls[index + 1..], SkippedResult(exit, AfterCall), false, Idle(Ids(calls)), base, added);
      EndedAfter(calls, script, added, all, exit, AfterCall, index);
    }

    /** Runs the open call; its events come between its request and its result. */
    method RunOpenCall(calls: seq<ToolCall>, index: nat, script: nat -> Script, ghost base: Base, ghost added: seq<Event>)
      returns (exit: Exit, result: ToolResult, ghost all: seq<Event>)
      requires index < |calls| && controller.Valid() && controller.pausedAt == None && !waiting && pendingApproval == None
      requires Logged(base, added) && CallOpen(calls, script, added, index)
      modifies this`events, this`pendingApproval, this`waiting, this`executed
      modifies controller`pausedAt, controller`pausedSeconds, controller`marks, controller`cancelRequested
      ensures controller.Valid() && controller.pausedAt == None && !waiting
      ensures Logged(base, all) && CallOpen(calls, script, all, index)
      ensures FollowsCourse(old(executed), calls[index].id, CourseOf(old(controller.Now()), script(index)), exit)
      ensures exit == Completed ==> result == OwnResult(script(index))
    {
      exit, result := ExecuteOne(calls[index], script(index));
      ghost var middle := events[|old(events)|..];
      CallBetween(calls, script, added, middle, index);
      all := added + middle;
    }

    /** The call went the way of this course. */
    ghost predicate FollowsCourse(executedBefore: seq<CallId>, id: CallId, course: Course, exit: Exit)
      reads this, controller
    {
      && exit == course.exit && controller.Now() == course.books
      && executed == executedBefore + (if course.ran then [id] else [])
      && pendingApproval == if course.pending then Some(id) else None
    }

    /** Requests the call; without budget, time or a live Turn it does not start. */
    method StartCall(calls: seq<ToolCall>, index: nat, now: real, ghost script: nat -> Script,
        ghost base: Base, ghost added: seq<Event>)
      returns (exit: Exit, ghost all: seq<Event>)
      requires index < |calls| && controller.Valid() && controller.pausedAt == None
      requires Logged(base, added) && CarriedOut(calls, script, added, index)
      modifies this`events, conversation, controller`toolCalls
      ensures controller.Valid() && Logged(base, all)
      ensures exit == old(controller.Now()).ToolAt(now)
      ensures controller.Now() == if exit == Completed then old(controller.Now()).(toolCalls := old(controller.toolCalls) + 1)
                                  else old(controller.Now())
      ensures exit == Completed ==> CallOpen(calls, script, all, index)
      ensures exit == Cancelled ==> all == added + [Requested(calls[index].id)]
      ensures exit != Completed && exit != Cancelled ==> Ended(calls, script, all, exit, BeforeCall, index)
    {
      CallRequested(calls, script, added, index);
      AnswersUnchanged(added, Requested(calls[index].id));
      Emit(Requested(calls[index].id));
      all := added + [Requested(calls[index].id)];
      exit := controller.BeginTool(now);
      if exit.Limit? {
        all := SkipFrom(calls, index, script, exit, base, all);
      }
    }

    /** Records the result of the open call, and skips the rest when this ends the Turn. */
    method CompleteCall(calls: seq<ToolCall>, index: nat, result: ToolResult, now: real, ghost script: nat -> Script,
        ghost base: Base, ghost added: seq<Event>)
      returns (exit: Exit, ghost all: seq<Event>)
      requires index < |calls| && controller.Valid() && controller.pausedAt == None && result == OwnResult(script(index))
      requires Logged(base, added) && CallOpen(calls, script, added, index)
      modifies this`events, conversation
      modifies controller`lastFailure, controller`consecutiveFailures, controller`outcomes
      ensures controller.Valid() && Logged(base, all)
      ensures controller.Now() == old(controller.Now()).WithOutcome(calls[index], result)
      ensures exit == AfterRecording(controller.Now(), now)
      ensures exit == Completed ==> CarriedOut(calls, script, all, index + 1)
      ensures exit != Completed ==> Ended(calls, script, all, exit, AfterCall, index)
    {
      CallFinished(calls, script, added, index, result);
      Record(calls[index], result);
      all := added + [Finished(calls[index].id, result)];
      exit := controller.RecordToolResult(calls[index], result);
      if exit == Completed {
        exit := controller.Checkpoint(now);
      }
      if exit != Completed {
        all := SkipBehind(calls, index, exit, script, base, all);
      }
    }

    /** The call went the way of this end. */
    ghost predicate Follows(executedBefore: seq<CallId>, id: CallId, end: CallEnd)
      reads this, controller
    {
      && controller.Now() == end.books
      && executed == executedBefore + (if end.ran then [id] else [])
      && pendingApproval == if end.pending then Some(id) else None
    }

    /** Carries the call at `index` through, or ends the batch at it. */
    method RunCall(calls: seq<ToolCall>, index: nat, script: nat -> Script, ghost base: Base, ghost added: seq<Event>, ghost end: CallEnd)
      returns (exit: Exit, ghost all: seq<Event>)
      requires index < |calls| && controller.Valid() && controller.pausedAt == None && !waiting && pendingApproval == None
      requires end == CallEndOf(controller.Now(), calls[index], script(index))
      requires Logged(base, added) && CarriedOut(calls, script, added, index)
      modifies this`events, this`pendingApproval, this`waiting, this`executed, conversation
      modifies controller`toolCalls, controller`pausedAt, controller`pausedSeconds, controller`marks
      modifies controller`cancelRequested, controller`lastFailure, controller`consecutiveFailures, controller`outcomes
      ensures controller.Valid() && controller.pausedAt == None && !waiting && Logged(base, all)
      ensures exit == end.exit && Follows(old(executed), calls[index].id, end)
      ensures exit == Completed ==> CarriedOut(calls, script, all, index + 1)
      ensures exit != Completed && !old(controller.cancelRequested) ==> Ended(calls, script, all, exit, end.moment, index)
      ensures old(controller.cancelRequested) ==> exit == Cancelled && all == added + [Requested(calls[index].id)]
    {
      ghost var begun := controller.Now().(toolCalls := controller.toolCalls + 1);
      CallBegins(controller.Now(), begun, calls[index], script(index), end);
      exit, all := BeginCall(calls, index, script(index).beginAt, script, base, added, end);
      if exit == Completed {
        exit, all := CarryOut(calls, index, script, base, all, begun, end);
      }
    }

    /** A call that does not start ends the batch; one that starts goes on to its own end. */
    method BeginCall(calls: seq<ToolCall>, index: nat, now: real, ghost script: nat -> Script,
        ghost base: Base, ghost added: seq<Event>, ghost end: CallEnd)
      returns (exit: Exit, ghost all: seq<Event>)
      requires index < |calls| && controller.Valid() && controller.pausedAt == None && pendingApproval == None
      requires controller.Now().ToolAt(now) != Completed ==>
        end == CallEnd(controller.Now().ToolAt(now), BeforeCall, false, false, controller.Now())
      requires Logged(base, added) && CarriedOut(calls, script, added, index)
      modifies this`events, conversation, controller`toolCalls
      ensures controller.Valid() && Logged(base, all)
      ensures exit == old(controller.Now()).ToolAt(now)
      ensures exit == Completed ==> CallOpen(calls, script, all, index)
      ensures exit == Completed ==> controller.Now() == old(controller.Now()).(toolCalls := old(controller.toolCalls) + 1)
      ensures exit != Completed ==> exit == end.exit && Follows(executed, calls[index].id, end)
      ensures exit != Completed && !old(controller.cancelRequested) ==> Ended(calls, script, all, exit, end.moment, index)
      ensures old(controller.cancelRequested) ==> exit == Cancelled && all == added + [Requested(calls[index].id)]
    {
      assert executed + [] == executed;
      exit, all := StartCall(calls, index, now, script, base, added);
    }

    /** The end of a call that was begun. */
    method CarryOut(calls: seq<ToolCall>, index: nat, script: nat -> Script, ghost base: Base, ghost added: seq<Event>,
        ghost begun: Books, ghost end: CallEnd)
      returns (exit: Exit, ghost all: seq<Event>)
      requires index < |calls| && controller.Valid() && controller.pausedAt == None && !waiting && pendingApproval == None
      requires controller.Now() == begun && end == BegunEndOf(begun, calls[index], script(index))
      requires Logged(base, added) && CallOpen(calls, script, added, index)
      modifies this`events, this`pendingApproval, this`waiting, this`executed, conversation
      modifies controller`pausedAt, controller`pausedSeconds, controller`marks
      modifies controller`cancelRequested, controller`lastFailure, controller`consecutiveFailures, controller`outcomes
      ensures controller.Valid() && controller.pausedAt == None && !waiting && Logged(base, all)
      ensures exit == end.exit && Follows(old(executed), calls[index].id, end)
      ensures exit == Completed ==> CarriedOut(calls, script, all, index + 1)
      ensures exit != Completed ==> Ended(calls, script, all, exit, end.moment, index)
    {
      var result;
      exit, result, all := RunOpenCall(calls, index, script, base, added);
      if exit != Completed {
        all := AbortBatch(calls, index, exit, script, base, all);
      } else {
        exit, all := CompleteCall(calls, index, result, script(index).recordAt, script, base, all);
      }
    }

    /** The batch ended the way the books and the script say. */
    ghost predicate Concluded(end: BatchEnd, cancelled: bool, executedBefore: seq<CallId>, calls: seq<ToolCall>, script: nat -> Script,
        added: seq<Event>, exit: Exit)
      reads this, controller
    {
      && exit == end.exit && controller.Now() == end.books
      && executed == executedBefore + IdsAt(calls, end.ran)
      && pendingApproval == (if end.pending && end.last < |calls| then Some(calls[end.last].id) else None)
      && (calls == [] || !cancelled ==> Ended(calls, script, added, exit, end.moment, end.last))
    }

    /** One result for every call, in order, whatever ends the batch. How and where it ends, and which tools
        were started, is decided by the books and the script. Only a Turn that was already cancelled when the
        batch began leaves by a path that answers nothing. */
    method Execute(calls: seq<ToolCall>, script: nat -> Script) returns (exit: Exit, ghost added: seq<Event>)
      requires controller.Valid() && controller.pausedAt == None && !waiting && pendingApproval == None
      modifies this`events, this`pendingApproval, this`waiting, this`executed, conversation
      modifies controller`toolCalls, controller`pausedAt, controller`pausedSeconds, controller`marks
      modifies controller`cancelRequested, controller`lastFailure, controller`consecutiveFailures, controller`outcomes
      ensures controller.Valid() && controller.pausedAt == None && !waiting
      ensures Logged(old(Base(events, conversation.messages, executed)), added)
      ensures Concluded(BatchEndOf(old(controller.Now()), calls, script, 0), old(controller.cancelRequested), old(executed),
                        calls, script, added, exit)
      ensures var end := BatchEndOf(old(controller.Now()), calls, script, 0);
        calls == [] || !old(controller.cancelRequested) ==> AnswersAll(calls, script, exit, end.moment, end.last, Answers(added))
      ensures calls != [] && old(controller.cancelRequested) ==> exit == Cancelled && added == [Requested(calls[0].id)]
    {
      ghost var goal := BatchEndOf(controller.Now(), calls, script, 0);
      ghost var cancelled, base := controller.cancelRequested, Base(events, conversation.messages, executed);
      BatchBegins(controller.Now(), calls, script, goal);
      NothingCarriedOut(calls, script, base);
      ghost var ran;
      exit, added, ran := RunAll(calls, script, base, goal, cancelled);
      if exit == Completed {
        AllCarriedOut(calls, script, added);
        AllConcluded(goal, cancelled, base.executed, calls, script, added, ran);
      }
      if calls == [] || !cancelled {
        BatchIsAnswered(old(controller.Now()), calls, script, Answers(added));
      }
    }

    /** The calls one after the other, up to the first that ends the Turn. `goal` is the end of the batch as the
        books and the script decide it. */
    method RunAll(calls: seq<ToolCall>, script: nat -> Script, ghost base: Base, ghost goal: BatchEnd, ghost cancelled: bool)
      returns (exit: Exit, ghost added: seq<Event>, ghost ran: seq<nat>)
      requires controller.Valid() && controller.pausedAt == None && !waiting && pendingApproval == None
      requires Logged(base, []) && CarriedOut(calls, script, [], 0) && executed == base.executed + IdsAt(calls, [])
      requires BatchGoesOn(goal, controller.Now(), calls, script, 0, []) && controller.cancelRequested == cancelled
      modifies this`events, this`pendingApproval, this`waiting, this`executed, conversation
      modifies controller`toolCalls, controller`pausedAt, controller`pausedSeconds, controller`marks
      modifies controller`cancelRequested, controller`lastFailure, controller`consecutiveFailures, controller`outcomes
      ensures controller.Valid() && controller.pausedAt == None && !waiting && Logged(base, added)
      ensures exit != Completed ==> Concluded(goal, cancelled, base.executed, calls, script, added, exit)
      ensures exit == Completed ==>
        && CarriedOut(calls, script, added, |calls|) && BatchGoesOn(goal, controller.Now(), calls, script, |calls|, ran)
        && executed == base.executed + IdsAt(calls, ran) && pendingApproval == None
      ensures calls != [] && cancelled ==> exit == Cancelled && added == [Requested(calls[0].id)]
    {
      added, ran := [], [];
      var index := 0;
      while index < |calls|
        invariant 0 <= index <= |calls|
        invariant controller.Valid() && controller.pausedAt == None && !waiting && pendingApproval == None
        invariant index > 0 ==> !cancelled && !controller.cancelRequested
        invariant index == 0 ==> added == [] && controller.cancelRequested == cancelled
        invariant Logged(base, added) && CarriedOut(calls, script, added, index)
        invariant BatchGoesOn(goal, controller.Now(), calls, script, index, ran)
        invariant executed == base.executed + IdsAt(calls, ran)
      {
        exit, added, ran := RunNext(calls, index, script, base, added, goal, cancelled, ran);
        if exit != Completed {
          return;
        }
        index := index + 1;
      }
      exit := Completed;
    }

    lemma AllConcluded(goal: BatchEnd, cancelled: bool, executedBefore: seq<CallId>, calls: seq<ToolCall>, script: nat -> Script,
        added: seq<Event>, ran: seq<nat>)
      requires BatchGoesOn(goal, controller.Now(), calls, script, |calls|, ran)
      requires executed == executedBefore + IdsAt(calls, ran) && pendingApproval == None
      requires Ended(calls, script, added, Completed, AfterCall, |calls|)
      ensures Concluded(goal, cancelled, executedBefore, calls, script, added, Completed)
    {
      BatchIsDone(goal, controller.Now(), calls, script, ran);
    }

    /** The next call of the batch. */
    method RunNext(calls: seq<ToolCall>, index: nat, script: nat -> Script, ghost base: Base, ghost added: seq<Event>,
        ghost goal: BatchEnd, ghost cancelled: bool, ghost ran: seq<nat>)
      returns (exit: Exit, ghost all: seq<Event>, ghost ranNow: seq<nat>)
      requires index < |calls| && controller.Valid() && controller.pausedAt == None && !waiting && pendingApproval == None
      requires Logged(base, added) && CarriedOut(calls, script, added, index)
      requires BatchGoesOn(goal, controller.Now(), calls, script, index, ran) && executed == base.executed + IdsAt(calls, ran)
      requires index == 0 ==> added == [] && controller.cancelRequested == cancelled
      requires index > 0 ==> !cancelled && !controller.cancelRequested
      modifies this`events, this`pendingApproval, this`waiting, this`executed, conversation
      modifies controller`toolCalls, controller`pausedAt, controller`pausedSeconds, controller`marks
      modifies controller`cancelRequested, controller`lastFailure, controller`consecutiveFailures, controller`outcomes
      ensures controller.Valid() && controller.pausedAt == None && !waiting && Logged(base, all)
      ensures exit == Completed ==>
        && CarriedOut(calls, script, all, index + 1) && pendingApproval == None
        && !cancelled && !controller.cancelRequested
        && BatchGoesOn(goal, controller.Now(), calls, script, index + 1, ranNow)
        && executed == base.executed + IdsAt(calls, ranNow)
      ensures exit != Completed ==> Concluded(goal, cancelled, base.executed, calls, script, all, exit)
      ensures old(controller.cancelRequested) && index == 0 ==> exit == Cancelled && all == [Requested(calls[0].id)]
    {
      ghost var now := controller.Now();
      ghost var end := CallEndOf(now, calls[index], script(index));
      BatchMovesOn(goal, now, calls, script, index, ran, end);
      RanOneMore(calls, base.executed, ran, end, index);
      if end.exit == Completed {
        LivesAfter(now, calls[index], script(index));
      }
      exit, all := RunCall(calls, index, script, base, added, end);
      ranNow := ran + RanAt(end, index);
    }
  }

  /** The whole batch is what has run and the batch from `index` on. */
  ghost predicate BatchGoesOn(goal: BatchEnd, now: Books, calls: seq<ToolCall>, script: nat -> Script, index: nat, ran: seq<nat>)
    requires index <= |calls|
  {
    var rest := BatchEndOf(now, calls, script, index);
    goal == rest.(ran := ran + rest.ran)
  }

  lemma CallBegins(books: Books, begun: Books, call: ToolCall, script: Script, end: CallEnd)
    requires begun == books.(toolCalls := books.toolCalls + 1)
    requires end == CallEndOf(books, call, script)
    ensures books.ToolAt(script.beginAt) != Completed ==>
      end == CallEnd(books.ToolAt(script.beginAt), BeforeCall, false, false, books)
    ensures books.ToolAt(script.beginAt) == Completed ==>
      end == BegunEndOf(begun, call, script)
    ensures books.cancelled <==> books.ToolAt(script.beginAt) == Cancelled
  {
    ToolAtCancelled(books, script.beginAt);
    if books.ToolAt(script.beginAt) == Completed {
      BegunGoesOn(books, begun, call, script);
    } else {
      NotBegunEnds(books, call, script);
    }
  }

  lemma ToolAtCancelled(books: Books, now: real)
    ensures books.cancelled <==> books.ToolAt(now) == Cancelled
  {
  }

  lemma BegunGoesOn(books: Books, begun: Books, call: ToolCall, script: Script)
    requires books.ToolAt(script.beginAt) == Completed && begun == books.(toolCalls := books.toolCalls + 1)
    ensures CallEndOf(books, call, script) == BegunEndOf(begun, call, script)
  {
  }

  lemma NotBegunEnds(books: Books, call: ToolCall, script: Script)
    requires books.ToolAt(script.beginAt) != Completed
    ensures CallEndOf(books, call, script) == CallEnd(books.ToolAt(script.beginAt), BeforeCall, false, false, books)
  {
  }

  lemma BatchBegins(books: Books, calls: seq<ToolCall>, script: nat -> Script, goal: BatchEnd)
    requires goal == BatchEndOf(books, calls, script, 0)
    ensures BatchGoesOn(goal, books, calls, script, 0, [])
  {
    assert [] + goal.ran == goal.ran;
  }

  lemma BatchIsDone(goal: BatchEnd, now: Books, calls: seq<ToolCall>, script: nat -> Script, ran: seq<nat>)
    requires BatchGoesOn(goal, now, calls, script, |calls|, ran)
    ensures goal == BatchEnd(Completed, |calls|, AfterCall, false, ran, now)
  {
    assert ran + [] == ran;
  }

  lemma BatchMovesOn(goal: BatchEnd, now: Books, calls: seq<ToolCall>, script: nat -> Script, index: nat, ran: seq<nat>, end: CallEnd)
    requires index < |calls| && end == CallEndOf(now, calls[index], script(index))
    requires BatchGoesOn(goal, now, calls, script, index, ran)
    ensures end.exit == Completed ==> BatchGoesOn(goal, end.books, calls, script, index + 1, ran + RanAt(end, index))
    ensures end.exit != Completed ==>
      goal == BatchEnd(end.exit, index, end.moment, end.pending, ran + RanAt(end, index), end.books)
  {
    BatchEndNext(now, calls, script, index, end);
    if end.exit == Completed {
      Regroup(ran, RanAt(end, index), BatchEndOf(end.books, calls, script, index + 1).ran);
    }
  }

  lemma RanOneMore(calls: seq<ToolCall>, executed: seq<CallId>, ran: seq<nat>, end: CallEnd, index: nat)
    requires index < |calls|
    ensures executed + IdsAt(calls, ran) + (if end.ran then [calls[index].id] else [])
      == executed + IdsAt(calls, ran + RanAt(end, index))
  {
  }

  /** Only a call of a live Turn is carried through, and it leaves a live Turn. */
  lemma LivesAfter(books: Books, call: ToolCall, script: Script)
    requires CallEndOf(books, call, script).exit == Completed
    ensures !books.cancelled && !CallEndOf(books, call, script).books.cancelled
    ensures !CallEndOf(books, call, script).pending
  {
  }

  lemma NothingCarriedOut(calls: seq<ToolCall>, script: nat -> Script, base: Base)
    ensures CarriedOut(calls, script, [], 0)
    ensures base.executed + IdsAt(calls, []) == base.executed
    ensures base.events + [] == base.events && base.messages + Answers([]) == base.messages
  {
    assert calls[0..] == calls;
  }

  lemma AllCarriedOut(calls: seq<ToolCall>, script: nat -> Script, added: seq<Event>)
    requires CarriedOut(calls, script, added, |calls|)
    ensures forall moment :: Ended(calls, script, added, Completed, moment, |calls|)
  {
    assert calls[|calls|..] == [];
  }

  function SkipEvents(id: CallId, result: ToolResult, request: bool): seq<Event> {
    (if request then [Requested(id)] else []) + [Finished(id, result)]
  }

  lemma Regroup<T>(a: seq<T>, b: seq<T>, c: seq<T>)
    ensures a + b + c == a + (b + c)
  {
  }

  lemma SkipLogged(before: seq<Event>, added: seq<Event>, id: CallId, result: ToolResult, request: bool)
    ensures request ==> before + added + [Requested(id)] + [Finished(id, result)] == before + (added + SkipEvents(id, result, request))
    ensures !request ==> before + added + [Finished(id, result)] == before + (added + SkipEvents(id, result, request))
  {
    if request {
      Regroup(before, added, [Requested(id)]);
      Regroup(before, added + [Requested(id)], [Finished(id, result)]);
      Regroup(added, [Requested(id)], [Finished(id, result)]);
    } else {
      assert [] + [Finished(id, result)] == [Finished(id, result)];
      Regroup(before, added, [Finished(id, result)]);
    }
  }

  lemma AnswersUnchanged(events: seq<Event>, event: Event)
    requires !event.Finished?
    ensures Answers(events + [event]) == Answers(events)
  {
    Tracked(OutOfOrder, events, event);
  }

  lemma AnswerAdded(events: seq<Event>, id: CallId, result: ToolResult)
    ensures Answers(events + [Finished(id, result)]) == Answers(events) + [Answer(id, result)]
  {
    Tracked(OutOfOrder, events, Finished(id, result));
  }

  lemma SkipAnswers(added: seq<Event>, id: CallId, result: ToolResult, request: bool)
    ensures Answers(added + SkipEvents(id, result, request)) == Answers(added) + [Answer(id, result)]
  {
    if request {
      AnswersUnchanged(added, Requested(id));
      AnswerAdded(added + [Requested(id)], id, result);
      assert added + SkipEvents(id, result, request) == added + [Requested(id)] + [Finished(id, result)];
    } else {
      AnswerAdded(added, id, result);
      assert SkipEvents(id, result, request) == [Finished(id, result)];
    }
  }

  /** Where the events stand once the calls before `index` have been skipped. */
  ghost predicate SkippedUpTo(start: Progress, done: seq<Event>, all: seq<Event>, calls: seq<ToolCall>, index: nat,
      result: ToolResult, firstRequested: bool)
    requires index <= |calls|
  {
    && Track(start, all) == AtSkipped(calls, index, firstRequested)
    && Answers(all) == Answers(done) + Skipped(calls[..index], result)
  }

  lemma SkippedStep(start: Progress, done: seq<Event>, all: seq<Event>, calls: seq<ToolCall>, index: nat,
      result: ToolResult, firstRequested: bool)
    requires index < |calls| && SkippedUpTo(start, done, all, calls, index, result, firstRequested)
    ensures SkippedUpTo(start, done, all + SkipEvents(calls[index].id, result, index > 0 || !firstRequested),
      calls, index + 1, result, firstRequested)
  {
    SkipAnswers(all, calls[index].id, result, index > 0 || !firstRequested);
    SkippedOneMore(calls, index, result);
    Regroup(Answers(done), Skipped(calls[..index], result), [Answer(calls[index].id, result)]);
    SkipTracked(start, all, calls[index].id, result, index > 0 || !firstRequested, Ids(calls[index + 1..]));
    assert Ids(calls[index..]) == [calls[index].id] + Ids(calls[index + 1..]);
  }

  /** A skip finishes the next call, requested or still to be requested. */
  lemma SkipTracked(start: Progress, all: seq<Event>, id: CallId, result: ToolResult, request: bool, todo: seq<CallId>)
    requires Track(start, all) == if request then Idle([id] + todo) else Busy(id, todo)
    ensures Track(start, all + SkipEvents(id, result, request)) == Idle(todo)
  {
    if request {
      Tracked(start, all, Requested(id));
      Tracked(start, all + [Requested(id)], Finished(id, result));
      assert ([id] + todo)[1..] == todo;
      assert all + SkipEvents(id, result, request) == all + [Requested(id)] + [Finished(id, result)];
    } else {
      Tracked(start, all, Finished(id, result));
      assert SkipEvents(id, result, request) == [Finished(id, result)];
    }
  }

  lemma SkippedFromOpen(calls: seq<ToolCall>, index: nat)
    requires index < |calls|
    ensures AtSkipped(calls[index..], 0, true) == Busy(calls[index].id, Ids(calls[index + 1..]))
  {
    assert calls[index..][1..] == calls[index + 1..];
  }

  lemma SkippedFromIdle(calls: seq<ToolCall>)
    ensures AtSkipped(calls, 0, false) == Idle(Ids(calls))
  {
    assert calls[0..] == calls;
  }

  lemma SkippedOneMore(calls: seq<ToolCall>, index: nat, result: ToolResult)
    requires index < |calls|
    ensures Skipped(calls[..index + 1], result) == Skipped(calls[..index], result) + [Answer(calls[index].id, result)]
  {
  }

  function Skipped(calls: seq<ToolCall>, result: ToolResult): (answers: seq<Message>)
    ensures |answers| == |calls| && forall k :: 0 <= k < |calls| ==> answers[k] == Answer(calls[k].id, result)
  {
    seq(|calls|, k requires 0 <= k < |calls| => Answer(calls[k].id, result))
  }

  /** Progress before the call at `index` is skipped. */
  function AtSkipped(calls: seq<ToolCall>, index: nat, firstRequested: bool): Progress
    requires index <= |calls|
  {
    if index == 0 && firstRequested && calls != [] then Busy(calls[0].id, Ids(calls[1..]))
    else Idle(Ids(calls[index..]))
  }

  // ---------------------------------------------------------------- how far a batch has come

  /** The calls before `index` are requested, carried through and answered with their own results. */
  ghost predicate CarriedOut(calls: seq<ToolCall>, script: nat -> Script, added: seq<Event>, index: nat)
    requires index <= |calls|
  {
    && Track(Idle(Ids(calls)), added) == Idle(Ids(calls[index..]))
    && |Answers(added)| == index
    && forall k :: 0 <= k < index ==> Answers(added)[k] == Answer(calls[k].id, OwnResult(script(k)))
  }

  /** ... and the call at `index` is requested but not answered. */
  ghost predicate CallOpen(calls: seq<ToolCall>, script: nat -> Script, added: seq<Event>, index: nat)
    requires index < |calls|
  {
    && Track(Idle(Ids(calls)), added) == Busy(calls[index].id, Ids(calls[index + 1..]))
    && |Answers(added)| == index
    && forall k :: 0 <= k < index ==> Answers(added)[k] == Answer(calls[k].id, OwnResult(script(k)))
  }

  /** ... and the call at `index` is answered with `result`. */
  ghost predicate CallAnswered(calls: seq<ToolCall>, script: nat -> Script, added: seq<Event>, index: nat, result: ToolResult)
    requires index < |calls|
  {
    && Track(Idle(Ids(calls)), added) == Idle(Ids(calls[index + 1..]))
    && |Answers(added)| == index + 1
    && Answers(added)[index] == Answer(calls[index].id, result)
    && forall k :: 0 <= k < index ==> Answers(added)[k] == Answer(calls[k].id, OwnResult(script(k)))
  }

  /** The whole batch is answered, and every call has the result that goes with the way it ended. */
  ghost predicate Ended(calls: seq<ToolCall>, script: nat -> Script, added: seq<Event>, exit: Exit, moment: Moment, last: nat) {
    && Track(Idle(Ids(calls)), added) == Idle([])
    && |Answers(added)| == |calls|
    && (exit == Completed <==> last == |calls|) && last <= |calls|
    && forall k :: 0 <= k < |calls| ==> Answers(added)[k] == Answer(calls[k].id, ResultAt(script, exit, moment, last, k))
  }

  function IdsAt(calls: seq<ToolCall>, ran: seq<nat>): seq<CallId> {
    seq(|ran|, i requires 0 <= i < |ran| => if ran[i] < |calls| then calls[ran[i]].id else "")
  }

  lemma CallRequested(calls: seq<ToolCall>, script: nat -> Script, added: seq<Event>, index: nat)
    requires index < |calls| && CarriedOut(calls, script, added, index)
    ensures CallOpen(calls, script, added + [Requested(calls[index].id)], index)
  {
    Tracked(Idle(Ids(calls)), added, Requested(calls[index].id));
    assert Ids(calls[index..])[1..] == Ids(calls[index + 1..]);
  }

  lemma CallBetween(calls: seq<ToolCall>, script: nat -> Script, added: seq<Event>, middle: seq<Event>, index: nat)
    requires index < |calls| && CallOpen(calls, script, added, index) && Between(middle, calls[index].id)
    ensures CallOpen(calls, script, added + middle, index)
  {
    BetweenKeepsProgress(Idle(Ids(calls)), added, middle);
  }

  lemma CallFinished(calls: seq<ToolCall>, script: nat -> Script, added: seq<Event>, index: nat, result: ToolResult)
    requires index < |calls| && CallOpen(calls, script, added, index)
    ensures CallAnswered(calls, script, added + [Finished(calls[index].id, result)], index, result)
    ensures Answers(added + [Finished(calls[index].id, result)]) == Answers(added) + [Answer(calls[index].id, result)]
  {
    Tracked(Idle(Ids(calls)), added, Finished(calls[index].id, result));
  }

  lemma SkippedTail(calls: seq<ToolCall>, front: seq<Message>, skipped: ToolResult, expected: nat -> ToolResult)
    requires |front| <= |calls|
    requires forall k :: 0 <= k < |front| ==> front[k] == Answer(calls[k].id, expected(k))
    requires forall k :: |front| <= k < |calls| ==> expected(k) == skipped
    ensures |front + Skipped(calls[|front|..], skipped)| == |calls|
    ensures forall k :: 0 <= k < |calls| ==>
      (front + Skipped(calls[|front|..], skipped))[k] == Answer(calls[k].id, expected(k))
  {
  }

  lemma EndedBefore(calls: seq<ToolCall>, script: nat -> Script, done: seq<Event>, all: seq<Event>, exit: Exit, index: nat)
    requires index < |calls| && CallOpen(calls, script, done, index) && exit.Limit?
    requires Track(Idle(Ids(calls)), all) == Idle([])
    requires Answers(all) == Answers(done) + Skipped(calls[index..], OVER_BUDGET)
    ensures Ended(calls, script, all, exit, BeforeCall, index)
  {
    SkippedTail(calls, Answers(done), OVER_BUDGET, (k: nat) => ResultAt(script, exit, BeforeCall, index, k));
  }

  lemma EndedAfter(calls: seq<ToolCall>, script: nat -> Script, done: seq<Event>, all: seq<Event>, exit: Exit,
      moment: Moment, index: nat)
    requires index < |calls| && exit != Completed && !moment.BeforeCall?
    requires CallAnswered(calls, script, done, index, ResultAt(script, exit, moment, index, index))
    requires Track(Idle(Ids(calls)), all) == Idle([])
    requires Answers(all) == Answers(done) + Skipped(calls[index + 1..], SkippedResult(exit, moment))
    ensures Ended(calls, script, all, exit, moment, index)
  {
    SkippedTail(calls, Answers(done), SkippedResult(exit, moment), (k: nat) => ResultAt(script, exit, moment, index, k));
  }
}
