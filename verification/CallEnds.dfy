/** How each call of a batch ends, with which books, in terms of its script alone: what the clock, the Policy, the user
    and the tool do (agent/runtime/tool_coordinator.py, agent/runtime/run_controller.py). */
module CallEnds {
  import opened Common
  import opened Transcript
  import opened RunBudget
  import opened ToolBatch

  /** Not cancelled, and with time left. */
  ghost predicate IsLive(books: Books, at: real) {
    !books.cancelled && at - books.startedAt - books.pausedSeconds < books.limits.maxSeconds
  }

  /** How a Turn that is not live ends. */
  ghost function Stop(books: Books): Exit { if books.cancelled then Exit.Cancelled else Limit(ExecutionTimeout) }

  ghost predicate Begins(books: Books, script: Script) {
    IsLive(books, script.beginAt) && books.toolCalls < books.limits.maxToolCalls
  }

  ghost function Begun(books: Books): Books { books.(toolCalls := books.toolCalls + 1) }

  /** The approval is asked for in time, if it is asked for at all. */
  ghost predicate AsksInTime(books: Books, script: Script) {
    Begins(books, script) && (script.decision.RequireApproval? ==> IsLive(Begun(books), script.pauseAt))
  }

  /** The books behind the approval: its pause does not count, and a cancel during it stays. */
  ghost function Decided(books: Books, script: Script): Books {
    var begun := Begun(books);
    if script.decision.RequireApproval?
    then begun.(pausedSeconds := begun.pausedSeconds + script.resumeAt - script.pauseAt,
                cancelled := begun.cancelled || script.cancelledInApproval)
    else begun
  }

  /** A call that does not begin ends before anything is said of it, and counts nothing. */
  lemma NotBegunEndsAs(books: Books, call: ToolCall, script: Script)
    requires !Begins(books, script)
    ensures CallEndOf(books, call, script) == CallEnd(
      if IsLive(books, script.beginAt) then Limit(MaxToolCalls) else Stop(books), BeforeCall, false, false, books)
  {
  }

  /** A call that begins is counted; then the Policy may fail, the approval may come too late, time out or be
      interrupted, and no tool is started. */
  lemma UndecidedEndsAs(books: Books, call: ToolCall, script: Script)
    requires Begins(books, script)
    ensures script.decision.PolicyFails? ==>
      CallEndOf(books, call, script) == CallEnd(InternalError, DuringCall, false, false, Begun(books))
    ensures script.decision.RequireApproval? && !IsLive(Begun(books), script.pauseAt) ==>
      CallEndOf(books, call, script) == CallEnd(Stop(Begun(books)), DuringCall, false, true, Begun(books))
    ensures script.decision.RequireApproval? && IsLive(Begun(books), script.pauseAt) && script.reply.TimedOut? ==>
      CallEndOf(books, call, script) == CallEnd(ApprovalTimeout, DuringCall, false, false, Decided(books, script))
    ensures script.decision.RequireApproval? && IsLive(Begun(books), script.pauseAt) && script.reply.Interrupted? ==>
      CallEndOf(books, call, script) == CallEnd(Exit.Cancelled, DuringCall, false, false, Decided(books, script))
  {
  }

  /** A permitted call without a conflict starts its tool if the Turn is still live, and ends the batch unless the tool
      returns and its bookkeeping works. */
  lemma UnfinishedEndsAs(books: Books, call: ToolCall, script: Script)
    requires AsksInTime(books, script) && script.Permitted() && script.conflict.None?
    requires IsLive(Decided(books, script), script.waitAt) ==> !script.execution.Returned? || script.bookkeepingFails
    ensures var before := Decided(books, script);
      CallEndOf(books, call, script) ==
        if !IsLive(before, script.waitAt) then CallEnd(Stop(before), DuringCall, false, false, before)
        else CallEnd(
          if script.execution.DeadlineReached? then Limit(ExecutionTimeout)
          else if script.execution.Aborted? then Exit.Cancelled else InternalError,
          DuringCall, true, false, before.(cancelled := before.cancelled || script.cancelledInExecution))
  {
  }

  /** A call that is denied, refused or in conflict, or whose tool returned, is recorded. */
  ghost predicate IsRecorded(books: Books, script: Script, result: ToolResult, ran: bool) {
    && AsksInTime(books, script) && !script.decision.PolicyFails?
    && if !script.Permitted() then
         && (script.decision.Deny? || script.reply.Refused?)
         && result == ToolResult(ToolDenied, Some(POLICY_DENIED)) && !ran
       else if script.conflict.Some? then result == script.conflict.value && !ran
       else IsLive(Decided(books, script), script.waitAt) && script.execution == Returned(result) && !script.bookkeepingFails && ran
  }

  /** The last three results are failures with one name, one normal form of the arguments and one error. */
  ghost predicate ThirdFailure(outcomes: Outcomes) {
    var n := |outcomes|;
    n >= 3 && outcomes[n - 1].Some? && outcomes[n - 1] == outcomes[n - 2] == outcomes[n - 3]
  }

  lemma ThirdFailureRepeats(outcomes: Outcomes)
    ensures Repeating(outcomes) <==> ThirdFailure(outcomes)
  {
    var n := |outcomes|;
    if ThirdFailure(outcomes) {
      forall i | n - 3 <= i < n ensures outcomes[i] == outcomes[n - 1] {
        assert i == n - 1 || i == n - 2 || i == n - 3;
      }
    }
  }

  /** A recorded call is followed by the next one, unless it is the third failure of its kind in a row, the Turn was
      cancelled meanwhile, or its time is over; its failure, if it is one, is on the books. */
  lemma RecordedEndsAs(books: Books, call: ToolCall, script: Script, result: ToolResult, ran: bool)
    requires IsRecorded(books, script, result, ran)
    ensures var before := Decided(books, script);
      var failure := if result.error.None? then None
                     else Some(Failure(call.name, books.normalize(call.arguments), result.error.value));
      var after := before.(cancelled := before.cancelled || (ran && script.cancelledInExecution),
                           outcomes := books.outcomes + [failure]);
      CallEndOf(books, call, script) == CallEnd(
        if ThirdFailure(after.outcomes) then Limit(RepeatedToolFailure)
        else if IsLive(after, script.recordAt) then Completed else Stop(after),
        AfterCall, ran, false, after)
  {
    var failure := if result.error.None? then None
                   else Some(Failure(call.name, books.normalize(call.arguments), result.error.value));
    ThirdFailureRepeats(books.outcomes + [failure]);
  }
}
