/** Budgets, cancellation, deadline pauses and failure-loop detection of one Turn
    (agent/runtime/run_controller.py). */
module RunBudget {
  import opened Common
  import opened Transcript

  datatype Reason = MaxIterations | MaxToolCalls | ExecutionTimeout | RepeatedToolFailure | OutputLength | EmptyResponse

  /** How a step of the Turn ends: normally, or by one of the exceptions that end the Turn. */
  datatype Exit = Completed | Limit(reason: Reason) | Cancelled | ApprovalTimeout | InternalError

  datatype Limits = Limits(maxIterations: nat, maxToolCalls: nat, maxSeconds: real)

  datatype Failure = Failure(name: string, arguments: string, error: ErrorCode)

  const REPEATED_FAILURE_LIMIT := 3

  // ---------------------------------------------------------------- time that counts

  datatype Mark = Paused(at: real) | Resumed(at: real)

  /** Seconds of execution that count: everything outside the pauses. */
  function ActiveSeconds(start: real, marks: seq<Mark>, now: real): real {
    if marks == [] then now - start
    else
      var last := marks[|marks| - 1];
      var before := ActiveSeconds(start, marks[..|marks| - 1], last.at);
      if last.Paused? then before else before + (now - last.at)
  }

  /** The marks alternate, a pause first. */
  predicate Alternate(marks: seq<Mark>) {
    forall i :: 0 <= i < |marks| ==> (marks[i].Paused? <==> i % 2 == 0)
  }

  lemma MarkAdded(start: real, marks: seq<Mark>, mark: Mark, now: real)
    ensures ActiveSeconds(start, marks + [mark], now)
         == ActiveSeconds(start, marks, mark.at) + if mark.Paused? then 0.0 else now - mark.at
  {
    assert (marks + [mark])[..|marks|] == marks;
  }

  /** The length of all pauses, each from its mark to the next one, or to now if it is open. */
  function PausedTotal(marks: seq<Mark>, now: real): real {
    if marks == [] then 0.0
    else PausedTotal(marks[1..], now)
         + if marks[0].Resumed? then 0.0 else (if |marks| > 1 then marks[1].at else now) - marks[0].at
  }

  /** The seconds that count are all seconds since the start less the pauses. */
  lemma {:induction false} PausesAreLeftOut(start: real, marks: seq<Mark>, now: real)
    ensures ActiveSeconds(start, marks, now) == now - start - PausedTotal(marks, now)
  {
    if marks != [] {
      var n := |marks| - 1;
      PausesAreLeftOut(start, marks[..n], marks[n].at);
      PausedTotalOfMore(marks[..n], marks[n], now);
      assert marks == marks[..n] + [marks[n]];
    }
  }

  lemma {:induction false} PausedTotalOfMore(marks: seq<Mark>, mark: Mark, now: real)
    ensures PausedTotal(marks + [mark], now)
         == PausedTotal(marks, mark.at) + if mark.Paused? then now - mark.at else 0.0
  {
    var all := marks + [mark];
    if marks == [] {
      assert all == [mark] && [mark][1..] == [];
    } else {
      assert all[1..] == marks[1..] + [mark];
      PausedTotalOfMore(marks[1..], mark, now);
    }
  }

  // ---------------------------------------------------------------- repeated failures

  /** The results recorded so far: None for a success, otherwise what failed and how. */
  type Outcomes = seq<Option<Failure>>

  /** The last three results all failed with the same tool, arguments and error code. */
  predicate Repeating(outcomes: Outcomes) {
    var n := |outcomes|;
    n >= REPEATED_FAILURE_LIMIT && outcomes[n - 1].Some?
    && forall i :: n - REPEATED_FAILURE_LIMIT <= i < n ==> outcomes[i] == outcomes[n - 1]
  }

  /** The longest run of one failure that ends the outcomes. */
  function TrailingRun(outcomes: Outcomes): nat {
    var n := |outcomes|;
    if n == 0 || outcomes[n - 1].None? then 0
    else if n > 1 && outcomes[n - 2] == outcomes[n - 1] then TrailingRun(outcomes[..n - 1]) + 1
    else 1
  }

  lemma {:induction false} TrailingRunIsARun(outcomes: Outcomes)
    ensures TrailingRun(outcomes) <= |outcomes|
    ensures forall i :: |outcomes| - TrailingRun(outcomes) <= i < |outcomes| ==>
      outcomes[i].Some? && outcomes[i] == outcomes[|outcomes| - 1]
    ensures 0 < TrailingRun(outcomes) < |outcomes| ==>
      outcomes[|outcomes| - TrailingRun(outcomes) - 1] != outcomes[|outcomes| - 1]
  {
    var n := |outcomes|;
    if n > 1 && outcomes[n - 1].Some? && outcomes[n - 2] == outcomes[n - 1] {
      var before := outcomes[..n - 1];
      TrailingRunIsARun(before);
      assert forall i :: 0 <= i < n - 1 ==> before[i] == outcomes[i];
    }
  }

  lemma RepeatingIffRunOfThree(outcomes: Outcomes)
    ensures Repeating(outcomes) <==> TrailingRun(outcomes) >= REPEATED_FAILURE_LIMIT
  {
    TrailingRunIsARun(outcomes);
  }

  // ---------------------------------------------------------------- what the controller decides

  /** What a controller whose clock runs has on its books. */
  datatype Books = Books(
    limits: Limits, normalize: string -> string, startedAt: real, pausedSeconds: real, cancelled: bool,
    iterations: nat, toolCalls: nat, outcomes: Outcomes)
  {
    function CheckpointAt(now: real): Exit {
      if cancelled then Exit.Cancelled
      else if limits.maxSeconds <= now - startedAt - pausedSeconds then Limit(ExecutionTimeout)
      else Completed
    }

    function IterationAt(now: real): Exit {
      if CheckpointAt(now) != Completed then CheckpointAt(now)
      else if iterations >= limits.maxIterations then Limit(MaxIterations) else Completed
    }

    function ToolAt(now: real): Exit {
      if CheckpointAt(now) != Completed then CheckpointAt(now)
      else if toolCalls >= limits.maxToolCalls then Limit(MaxToolCalls) else Completed
    }

    function WithOutcome(call: ToolCall, result: ToolResult): Books {
      this.(outcomes := outcomes + [FailureOf(call, result, normalize)])
    }

    /** After a pause of the clock, during which Turn.cancel may have come. */
    function AfterPause(from: real, to: real, cancelledMeanwhile: bool): Books {
      this.(pausedSeconds := pausedSeconds + (to - from), cancelled := cancelled || cancelledMeanwhile)
    }
  }

  function FailureOf(call: ToolCall, result: ToolResult, normalize: string -> string): Option<Failure> {
    if result.error.None? then None else Some(Failure(call.name, normalize(call.arguments), result.error.value))
  }

  /** Three calls recorded in a row end the Turn exactly when all failed, with the same tool, the same normalized
      arguments and the same error. */
  lemma ThreeFailuresAreOne(books: Books, a: ToolCall, ra: ToolResult, b: ToolCall, rb: ToolResult, c: ToolCall, rc: ToolResult)
    ensures Repeating(books.WithOutcome(a, ra).WithOutcome(b, rb).WithOutcome(c, rc).outcomes) <==>
      && ra.error.Some? && ra.error == rb.error == rc.error && a.name == b.name == c.name
      && books.normalize(a.arguments) == books.normalize(b.arguments) == books.normalize(c.arguments)
  {
    var after := books.WithOutcome(a, ra).WithOutcome(b, rb).WithOutcome(c, rc).outcomes;
    var n := |books.outcomes|;
    assert after[n] == FailureOf(a, ra, books.normalize) && after[n + 1] == FailureOf(b, rb, books.normalize)
      && after[n + 2] == FailureOf(c, rc, books.normalize) && |after| == n + 3;
  }

  /** A live Turn with time and iterations left may ask the model, and with calls left may call a tool. */
  lemma LiveTurnGoesOn(books: Books, now: real)
    requires !books.cancelled && now - books.startedAt - books.pausedSeconds < books.limits.maxSeconds
    ensures books.CheckpointAt(now) == Completed
    ensures books.IterationAt(now) == if books.iterations < books.limits.maxIterations then Completed else Limit(MaxIterations)
    ensures books.ToolAt(now) == if books.toolCalls < books.limits.maxToolCalls then Completed else Limit(MaxToolCalls)
  {
  }

  /** A cancelled Turn or one without time asks for nothing more; a cancel comes before a deadline, and both before a
      budget. */
  lemma StoppedTurnStops(books: Books, now: real)
    requires books.cancelled || now - books.startedAt - books.pausedSeconds >= books.limits.maxSeconds
    ensures books.CheckpointAt(now) == books.IterationAt(now) == books.ToolAt(now)
         == if books.cancelled then Exit.Cancelled else Limit(ExecutionTimeout)
  {
  }

  // ---------------------------------------------------------------- the controller

  class RunController {
    const limits: Limits
    const normalize: string -> string   // the normal form of tool arguments
    const startedAt: real
    var pausedAt: Option<real>
    var pausedSeconds: real
    var cancelRequested: bool
    var lastFailure: Option<Failure>
    var consecutiveFailures: nat
    var iterations: nat
    var toolCalls: nat
    ghost var marks: seq<Mark>
    ghost var outcomes: Outcomes

    ghost predicate Valid()
      reads this
    {
      && Alternate(marks)
      && (pausedAt.None? <==> |marks| % 2 == 0)
      && (pausedAt.Some? ==> marks[|marks| - 1] == Paused(pausedAt.value))
      && (forall now :: ActiveSeconds(startedAt, marks, now) == Elapsed(now))
      && consecutiveFailures == TrailingRun(outcomes)
      && lastFailure == (if outcomes == [] then None else outcomes[|outcomes| - 1])
      && iterations <= limits.maxIterations && toolCalls <= limits.maxToolCalls
    }

    constructor (limits: Limits, normalize: string -> string, now: real)
      ensures Valid() && pausedAt == None && marks == []
      ensures Now() == Books(limits, normalize, now, 0.0, false, 0, 0, [])
    {
      this.limits, this.normalize, startedAt := limits, normalize, now;
      pausedAt, pausedSeconds := None, 0.0;
      cancelRequested := false;
      lastFailure, consecutiveFailures := None, 0;
      iterations, toolCalls := 0, 0;
      marks, outcomes := [], [];
    }

    ghost function Now(): Books
      reads this
    {
      Books(limits, normalize, startedAt, pausedSeconds, cancelRequested, iterations, toolCalls, outcomes)
    }

    function Elapsed(now: real): real
      reads this
    {
      now - startedAt - pausedSeconds - if pausedAt.None? then 0.0 else now - pausedAt.value
    }

    /** What is left of the time limit after the seconds that count. */
    function RemainingSeconds(now: real): (left: real)
      reads this
      ensures Valid() ==> left == if ActiveSeconds(startedAt, marks, now) < limits.maxSeconds
                                  then limits.maxSeconds - ActiveSeconds(startedAt, marks, now) else 0.0
    {
      var left := limits.maxSeconds - Elapsed(now);
      if left < 0.0 then 0.0 else left
    }

    function Checkpoint(now: real): (exit: Exit)
      reads this
      ensures pausedAt.None? ==> exit == Now().CheckpointAt(now)
    {
      if cancelRequested then Cancelled
      else if RemainingSeconds(now) <= 0.0 then Limit(ExecutionTimeout)
      else Completed
    }

    method Cancel() returns (first: bool)
      modifies this`cancelRequested
      ensures cancelRequested && first == !old(cancelRequested)
    {
      first := !cancelRequested;
      cancelRequested := true;
    }

    method BeginIteration(now: real) returns (exit: Exit)
      requires Valid()
      modifies this`iterations
      ensures Valid()
      ensures pausedAt.None? ==> exit == old(Now()).IterationAt(now)
      ensures iterations == old(iterations) + if exit == Completed then 1 else 0
    {
      exit := Checkpoint(now);
      if exit != Completed {
        return;
      }
      if iterations >= limits.maxIterations {
        return Limit(MaxIterations);
      }
      iterations := iterations + 1;
    }

    method BeginTool(now: real) returns (exit: Exit)
      requires Valid()
      modifies this`toolCalls
      ensures Valid()
      ensures pausedAt.None? ==> exit == old(Now()).ToolAt(now)
      ensures toolCalls == old(toolCalls) + if exit == Completed then 1 else 0
    {
      exit := Checkpoint(now);
      if exit != Completed {
        return;
      }
      if toolCalls >= limits.maxToolCalls {
        return Limit(MaxToolCalls);
      }
      toolCalls := toolCalls + 1;
    }

    /** Ends the Turn exactly when this result completes a third identical failure in a row. */
    method RecordToolResult(call: ToolCall, result: ToolResult) returns (exit: Exit)
      requires Valid()
      modifies this`lastFailure, this`consecutiveFailures, this`outcomes
      ensures Valid()
      ensures Now() == old(Now()).WithOutcome(call, result)
      ensures exit == if Repeating(outcomes) then Limit(RepeatedToolFailure) else Completed
    {
      exit := Completed;
      var failure := FailureOf(call, result, normalize);
      if failure.None? {
        lastFailure, consecutiveFailures := None, 0;
      } else {
        if failure == lastFailure {
          consecutiveFailures := consecutiveFailures + 1;
        } else {
          lastFailure, consecutiveFailures := failure, 1;
        }
        if consecutiveFailures >= REPEATED_FAILURE_LIMIT {
          exit := Limit(RepeatedToolFailure);
        }
      }
      assert (outcomes + [failure])[..|outcomes|] == outcomes;
      outcomes := outcomes + [failure];
      RepeatingIffRunOfThree(outcomes);
    }

    /** Suspends the clock for an approval; a second pause is a programming error. */
    method PauseDeadline(now: real) returns (exit: Exit)
      requires Valid()
      modifies this`pausedAt, this`marks
      ensures Valid()
      ensures exit == if old(pausedAt).Some? then InternalError else old(Checkpoint(now))
      ensures pausedAt == (if exit == Completed then Some(now) else old(pausedAt))
      ensures exit == Completed ==> forall later :: RemainingSeconds(later) == old(RemainingSeconds(now))
      ensures marks == old(marks) + if exit == Completed then [Paused(now)] else []
    {
      if pausedAt.Some? {
        return InternalError;
      }
      exit := Checkpoint(now);
      if exit != Completed {
        return;
      }
      forall later { MarkAdded(startedAt, marks, Paused(now), later); }
      pausedAt := Some(now);
      marks := marks + [Paused(now)];
    }

    method ResumeDeadline(now: real) returns (exit: Exit)
      requires Valid()
      modifies this`pausedAt, this`pausedSeconds, this`marks
      ensures Valid() && pausedAt == None
      ensures old(pausedAt).Some? ==> pausedSeconds == old(pausedSeconds) + (now - old(pausedAt.value))
      ensures exit == Completed ==> RemainingSeconds(now) == old(RemainingSeconds(now))
      ensures exit == if old(pausedAt).None? then InternalError else Completed
      ensures marks == old(marks) + if exit == Completed then [Resumed(now)] else []
    {
      if pausedAt.None? {
        return InternalError;
      }
      exit := Completed;
      forall later { MarkAdded(startedAt, marks, Resumed(now), later); }
      pausedSeconds := pausedSeconds + (now - pausedAt.value);
      pausedAt := None;
      marks := marks + [Resumed(now)];
    }
  }
}
