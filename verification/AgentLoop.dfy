/** The loop from model responses to tool batches (agent/runtime/loop.py). */
module AgentLoop {
  import opened Common
  import opened Transcript
  import opened RunBudget
  import opened ToolBatch

  /** A wait on something outside: when it begins and how it ends. Turn.cancel may be what ends it; a wait
      that is cancelled raises and never returns a value. */
  datatype Wait = Wait(at: real, ending: Exit)

  /** What the outside world does in one round: the clock, how the waits end (there is none for the context
      when no context manager is set), the response of the model, and what happens to each of its calls. */
  datatype Round = Round(
    beginAt: real, assembly: Option<Wait>, model: Wait,
    text: string, calls: seq<ToolCall>, truncated: bool, tools: nat -> Script)

  // ---------------------------------------------------------------- how a Turn ends

  /** How a round ends: whether another one follows, what was said, and the tools that were started. */
  datatype RoundEnd = RoundEnd(
    exit: Exit, text: string, more: bool, pending: Option<CallId>, said: seq<Message>, ran: seq<CallId>, books: Books)

  /** A round that ends without anything said. */
  function Silent(exit: Exit, books: Books): RoundEnd { RoundEnd(exit, "", false, None, [], [], books) }

  function WaitExit(books: Books, wait: Wait): Exit {
    if books.CheckpointAt(wait.at) != Completed then books.CheckpointAt(wait.at) else wait.ending
  }

  function Waited(books: Books, exit: Exit): Books { books.(cancelled := books.cancelled || exit == Exit.Cancelled) }

  /** The way of a round to the response of the model. */
  function Asked(books: Books, round: Round): (Exit, Books) {
    if books.IterationAt(round.beginAt) != Completed then (books.IterationAt(round.beginAt), books)
    else
      var begun := books.(iterations := books.iterations + 1);
      var exit := if round.assembly.Some? then WaitExit(begun, round.assembly.value) else Completed;
      if exit != Completed then (exit, Waited(begun, exit))
      else (WaitExit(begun, round.model), Waited(begun, WaitExit(begun, round.model)))
  }

  function RoundEndOf(books: Books, round: Round): (end: RoundEnd)
    ensures end.more ==> end.exit == Completed && Counted(books, end.books)
  {
    var (exit, asked) := Asked(books, round);
    if exit != Completed then Silent(exit, asked) else ResponseEnd(asked, round)
  }

  ghost predicate Counted(before: Books, after: Books) {
    after.limits == before.limits && after.iterations == before.iterations + 1 <= before.limits.maxIterations
  }

  /** A response with calls ends in their batch; one without ends the Turn, by a limit if it is cut off or
      empty. */
  function ResponseEnd(books: Books, round: Round): (end: RoundEnd)
    ensures end.books.limits == books.limits && end.books.iterations == books.iterations
    ensures end.more ==> end.exit == Completed
  {
    var said := [Assistant(round.text, round.calls)];
    if round.calls != [] then
      BatchKeepsIterations(books, round.calls, round.tools, 0);
      var end := BatchEndOf(books, round.calls, round.tools, 0);
      RoundEnd(end.exit, "", end.exit == Completed, LeftPending(round.calls, end), said + BatchSaid(round.calls, round.tools, end),
               IdsAt(round.calls, end.ran), end.books)
    else if round.truncated then Silent(Limit(OutputLength), books).(said := said)
    else if round.text == "" then Silent(Limit(EmptyResponse), books).(said := said)
    else Silent(Completed, books).(said := said, text := round.text)
  }

  function LeftPending(calls: seq<ToolCall>, end: BatchEnd): Option<CallId> {
    if end.pending && end.last < |calls| then Some(calls[end.last].id) else None
  }

  /** The results of a batch that ended so. */
  function BatchSaid(calls: seq<ToolCall>, script: nat -> Script, end: BatchEnd): (answers: seq<Message>)
    ensures |answers| == |calls|
    ensures forall k :: 0 <= k < |calls| ==> answers[k] == Answer(calls[k].id, ResultAt(script, end.exit, end.moment, end.last, k))
  {
    seq(|calls|, k requires 0 <= k < |calls| => Answer(calls[k].id, ResultAt(script, end.exit, end.moment, end.last, k)))
  }

  lemma {:induction false} BatchKeepsIterations(books: Books, calls: seq<ToolCall>, script: nat -> Script, index: nat)
    requires index <= |calls|
    ensures var after := BatchEndOf(books, calls, script, index).books;
      after.limits == books.limits && after.iterations == books.iterations
    decreases |calls| - index
  {
    if index < |calls| {
      var call := FirstCall(books, calls, script, index);
      if call.exit == Completed {
        BatchKeepsIterations(call.books, calls, script, index + 1);
      }
    }
  }

  /** The Turn: round after round until one is the last. The round is chosen by the iterations before it. */
  function TurnEndOf(books: Books, rounds: nat -> Round): RoundEnd
    requires books.iterations <= books.limits.maxIterations
    decreases books.limits.maxIterations - books.iterations
  {
    var end := RoundEndOf(books, rounds(books.iterations));
    if !end.more then end
    else
      var rest := TurnEndOf(end.books, rounds);
      rest.(said := end.said + rest.said, ran := end.ran + rest.ran)
  }

  // ---------------------------------------------------------------- what that means

  /** The books before the k-th round of a Turn whose earlier rounds were all followed by another one. */
  function BooksBefore(books: Books, rounds: nat -> Round, k: nat): Books
    decreases k, 0
  {
    if k == 0 then books else RoundAt(books, rounds, k - 1).books
  }

  function RoundAt(books: Books, rounds: nat -> Round, k: nat): RoundEnd
    decreases k, 1
  {
    var before := BooksBefore(books, rounds, k);
    RoundEndOf(before, rounds(before.iterations))
  }

  ghost predicate EndsLike(turn: RoundEnd, last: RoundEnd) {
    !last.more && turn.exit == last.exit && turn.text == last.text && turn.pending == last.pending && turn.books == last.books
  }

  /** The rounds from `from` to before `k` are each followed by another one. */
  ghost predicate GoesOn(books: Books, rounds: nat -> Round, from: nat, k: nat) {
    forall i: nat :: from <= i < k ==> RoundAt(books, rounds, i).more
  }

  /** The Turn ends as the first round that no other one follows. */
  lemma {:induction false} TurnEndsWithFirst(books: Books, rounds: nat -> Round, from: nat, now: Books) returns (k: nat)
    requires now == BooksBefore(books, rounds, from) && now.iterations <= now.limits.maxIterations
    ensures k >= from && GoesOn(books, rounds, from, k)
    ensures EndsLike(TurnEndOf(now, rounds), RoundAt(books, rounds, k))
    decreases now.limits.maxIterations - now.iterations
  {
    var end := FirstRound(now, rounds);
    NextBooks(books, rounds, from, now, end);
    if end.more {
      k := TurnEndsWithFirst(books, rounds, from + 1, end.books);
      EndsLikeRest(TurnEndOf(now, rounds), end, TurnEndOf(end.books, rounds), RoundAt(books, rounds, k));
      OneMoreGoesOn(books, rounds, from, k);
    } else {
      k := from;
    }
  }

  lemma EndsLikeRest(turn: RoundEnd, end: RoundEnd, rest: RoundEnd, last: RoundEnd)
    requires turn == rest.(said := end.said + rest.said, ran := end.ran + rest.ran) && EndsLike(rest, last)
    ensures EndsLike(turn, last)
  {
  }

  lemma OneMoreGoesOn(books: Books, rounds: nat -> Round, from: nat, k: nat)
    requires RoundAt(books, rounds, from).more && GoesOn(books, rounds, from + 1, k)
    ensures GoesOn(books, rounds, from, k)
  {
  }

  lemma NextBooks(books: Books, rounds: nat -> Round, from: nat, now: Books, end: RoundEnd)
    requires now == BooksBefore(books, rounds, from) && end == RoundEndOf(now, rounds(now.iterations))
    ensures RoundAt(books, rounds, from) == end && BooksBefore(books, rounds, from + 1) == end.books
  {
  }

  lemma FirstRound(now: Books, rounds: nat -> Round) returns (end: RoundEnd)
    requires now.iterations <= now.limits.maxIterations
    ensures end == RoundEndOf(now, rounds(now.iterations))
    ensures !end.more ==> TurnEndOf(now, rounds) == end
    ensures end.more ==> Counted(now, end.books)
    ensures end.more ==>
      var rest := TurnEndOf(end.books, rounds);
      TurnEndOf(now, rounds) == rest.(said := end.said + rest.said, ran := end.ran + rest.ran)
  {
    end := RoundEndOf(now, rounds(now.iterations));
  }

  /** A Turn succeeds only with a last word: a text that is not empty, said without calls. */
  lemma {:induction false} SuccessHasTheLastWord(books: Books, rounds: nat -> Round)
    requires books.iterations <= books.limits.maxIterations && TurnEndOf(books, rounds).exit == Completed
    ensures var end := TurnEndOf(books, rounds);
      end.text != "" && end.said != [] && end.said[|end.said| - 1] == Assistant(end.text, [])
    decreases books.limits.maxIterations - books.iterations
  {
    var end := RoundEndOf(books, rounds(books.iterations));
    if end.more {
      SuccessHasTheLastWord(end.books, rounds);
    } else {
      LastRound(books, rounds(books.iterations));
    }
  }

  lemma LastRound(books: Books, round: Round)
    requires var end := RoundEndOf(books, round); !end.more && end.exit == Completed
    ensures var end := RoundEndOf(books, round);
      end.text != "" && end.said == [Assistant(end.text, [])]
  {
  }

  /** However the batch ends, its results close the transcript that its message left open. */
  lemma BatchCloses(messages: seq<Message>, text: string, calls: seq<ToolCall>, script: nat -> Script, end: BatchEnd)
    requires Closed(messages)
    ensures Closed(messages + ([Assistant(text, calls)] + BatchSaid(calls, script, end)))
    ensures CallIds(messages + ([Assistant(text, calls)] + BatchSaid(calls, script, end))) == CallIds(messages) + Ids(calls)
  {
    var asked, answers := messages + [Assistant(text, calls)], BatchSaid(calls, script, end);
    WaitingAfter(messages, Assistant(text, calls));
    AnswersConsumeWaiting(asked, answers);
    assert Ids(calls)[|answers|..] == [];
    Regroup(messages, [Assistant(text, calls)], answers);
  }

  lemma RoundCloses(messages: seq<Message>, books: Books, round: Round)
    requires Closed(messages)
    ensures Closed(messages + RoundEndOf(books, round).said)
  {
    if RoundEndOf(books, round).said == [] {
      assert messages + [] == messages;
    } else if round.calls != [] {
      RoundSays(books, round);
      var end := BatchEndOf(Asked(books, round).1, round.calls, round.tools, 0);
      BatchCloses(messages, round.text, round.calls, round.tools, end);
    } else {
      RoundSays(books, round);
      WaitingAfter(messages, Assistant(round.text, []));
      assert Ids([]) == [];
    }
  }

  lemma RoundSays(books: Books, round: Round)
    requires RoundEndOf(books, round).said != []
    ensures RoundEndOf(books, round).said == [Assistant(round.text, round.calls)]
      + if round.calls == [] then [] else
          BatchSaid(round.calls, round.tools, BatchEndOf(Asked(books, round).1, round.calls, round.tools, 0))
  {
    ResponseSays(Asked(books, round).1, round);
  }

  lemma ResponseSays(books: Books, round: Round)
    ensures ResponseEnd(books, round).said == [Assistant(round.text, round.calls)]
      + if round.calls == [] then [] else BatchSaid(round.calls, round.tools, BatchEndOf(books, round.calls, round.tools, 0))
  {
    assert [Assistant(round.text, round.calls)] + [] == [Assistant(round.text, round.calls)];
  }

  /** What a round says: nothing if it ends before the model has answered; otherwise the model's message, and one
      result for each of its calls, of how and where their batch ended. */
  ghost predicate IsRoundTalk(books: Books, round: Round, said: seq<Message>) {
    var (exit, asked) := Asked(books, round);
    if exit != Completed then said == []
    else
      var batch := BatchEndOf(asked, round.calls, round.tools, 0);
      && said != [] && said[0] == Assistant(round.text, round.calls)
      && AnswersAll(round.calls, round.tools, batch.exit, batch.moment, batch.last, said[1..])
  }

  lemma RoundTalks(books: Books, round: Round)
    ensures IsRoundTalk(books, round, RoundEndOf(books, round).said)
  {
    var (exit, asked) := Asked(books, round);
    if exit == Completed {
      ResponseTalks(asked, round);
    }
  }

  lemma ResponseTalks(books: Books, round: Round)
    ensures var said, batch := ResponseEnd(books, round).said, BatchEndOf(books, round.calls, round.tools, 0);
      && said != [] && said[0] == Assistant(round.text, round.calls)
      && AnswersAll(round.calls, round.tools, batch.exit, batch.moment, batch.last, said[1..])
  {
    var answers := if round.calls == [] then [] else BatchSaid(round.calls, round.tools, BatchEndOf(books, round.calls, round.tools, 0));
    ResponseSays(books, round);
    assert ResponseEnd(books, round).said[1..] == answers;
    BatchIsAnswered(books, round.calls, round.tools, answers);
  }

  /** The rounds of a Turn, each behind the one before it, up to the first that no other one follows. */
  ghost predicate IsTurnTalk(books: Books, rounds: nat -> Round, said: seq<Message>)
    requires books.iterations <= books.limits.maxIterations
    decreases books.limits.maxIterations - books.iterations
  {
    var round := rounds(books.iterations);
    var end := RoundEndOf(books, round);
    exists first: seq<Message>, rest: seq<Message> ::
      && said == first + rest && IsRoundTalk(books, round, first)
      && if end.more then IsTurnTalk(end.books, rounds, rest) else rest == []
  }

  /** In a live Turn with iterations left, a model that answers in time, uncut, with a text and without calls ends
      the Turn successfully with that text. */
  lemma PlainAnswerSucceeds(books: Books, rounds: nat -> Round)
    requires books.iterations < books.limits.maxIterations && !books.cancelled
    requires var round := rounds(books.iterations);
      && InTime(books, round.beginAt) && InTime(books, round.model.at) && round.model.ending == Completed
      && (round.assembly.Some? ==> InTime(books, round.assembly.value.at) && round.assembly.value.ending == Completed)
      && round.text != "" && round.calls == [] && !round.truncated
    ensures var end, round := TurnEndOf(books, rounds), rounds(books.iterations);
      end.exit == Completed && end.text == round.text && end.said == [Assistant(round.text, [])] && end.ran == []
  {
    LiveTurnGoesOn(books, rounds(books.iterations).beginAt);
  }

  ghost predicate InTime(books: Books, at: real) {
    at - books.startedAt - books.pausedSeconds < books.limits.maxSeconds
  }

  /** The Turn is live and in time as the wait begins, and the wait ends normally. */
  ghost predicate WaitGoesOn(books: Books, wait: Wait) {
    InTime(books, wait.at) && wait.ending == Completed
  }

  /** How a round ends: cancelled, out of time or out of iterations before it asks; as a wait that does not go on ends;
      with a message without calls by a limit if it is cut off or empty, and successfully otherwise; and with its batch
      when there are calls, followed by another round exactly when the batch completes. */
  ghost predicate IsRoundEnd(books: Books, round: Round, end: RoundEnd) {
    if books.cancelled then end.exit == Exit.Cancelled && IsSilent(end)
    else if !InTime(books, round.beginAt) then end.exit == Limit(ExecutionTimeout) && IsSilent(end)
    else if books.iterations >= books.limits.maxIterations then end.exit == Limit(MaxIterations) && IsSilent(end)
    else if round.assembly.Some? && !WaitGoesOn(books, round.assembly.value) then
      IsSilent(end) && end.exit == if InTime(books, round.assembly.value.at) then round.assembly.value.ending else Limit(ExecutionTimeout)
    else if !WaitGoesOn(books, round.model) then
      IsSilent(end) && end.exit == if InTime(books, round.model.at) then round.model.ending else Limit(ExecutionTimeout)
    else if round.calls == [] then
      && !end.more && end.said == [Assistant(round.text, [])] && end.ran == []
      && end.exit == (if round.truncated then Limit(OutputLength) else if round.text == "" then Limit(EmptyResponse) else Completed)
      && end.text == if end.exit == Completed then round.text else ""
    else |end.said| == 1 + |round.calls| && (end.more <==> end.exit == Completed) && end.text == ""
  }

  ghost predicate IsSilent(end: RoundEnd) { !end.more && end.said == [] && end.ran == [] && end.text == "" }

  lemma RoundEndsAs(books: Books, round: Round)
    ensures IsRoundEnd(books, round, RoundEndOf(books, round))
  {
    if !books.cancelled && InTime(books, round.beginAt) && books.iterations < books.limits.maxIterations {
      AskedEndsAs(books, round);
    }
  }

  lemma AskedEndsAs(books: Books, round: Round)
    requires !books.cancelled && InTime(books, round.beginAt) && books.iterations < books.limits.maxIterations
    ensures var (exit, asked) := Asked(books, round);
      if round.assembly.Some? && !WaitGoesOn(books, round.assembly.value) then
        exit != Completed
        && exit == if InTime(books, round.assembly.value.at) then round.assembly.value.ending else Limit(ExecutionTimeout)
      else exit == if InTime(books, round.model.at) then round.model.ending else Limit(ExecutionTimeout)
  {
  }

  /** What the transcript gets of a Turn is what its rounds say. */
  lemma {:induction false} TurnTalks(books: Books, rounds: nat -> Round)
    requires books.iterations <= books.limits.maxIterations
    ensures IsTurnTalk(books, rounds, TurnEndOf(books, rounds).said)
    decreases books.limits.maxIterations - books.iterations
  {
    var end := FirstRound(books, rounds);
    RoundTalks(books, rounds(books.iterations));
    if end.more {
      TurnTalks(end.books, rounds);
      assert TurnEndOf(books, rounds).said == end.said + TurnEndOf(end.books, rounds).said;
    } else {
      assert TurnEndOf(books, rounds).said == end.said + [];
    }
  }

  /** Whatever ends the Turn, what was said leaves a closed transcript closed. */
  lemma {:induction false} TurnCloses(messages: seq<Message>, books: Books, rounds: nat -> Round)
    requires books.iterations <= books.limits.maxIterations && Closed(messages)
    ensures Closed(messages + TurnEndOf(books, rounds).said)
    decreases books.limits.maxIterations - books.iterations
  {
    var end := RoundEndOf(books, rounds(books.iterations));
    RoundCloses(messages, books, rounds(books.iterations));
    if end.more {
      TurnCloses(messages + end.said, end.books, rounds);
      Regroup(messages, end.said, TurnEndOf(end.books, rounds).said);
    }
  }

  // ---------------------------------------------------------------- the loop

  method Await(controller: RunController, wait: Wait) returns (exit: Exit)
    requires controller.Valid() && controller.pausedAt == None
    modifies controller`cancelRequested
    ensures controller.Valid() && exit == WaitExit(old(controller.Now()), wait)
    ensures controller.Now() == Waited(old(controller.Now()), exit)
  {
    exit := controller.Checkpoint(wait.at);
    if exit == Completed {
      exit := wait.ending;
      if exit == Cancelled {
        var _ := controller.Cancel();
      }
    }
  }

  /** What the Turn has come to since `before`. */
  ghost predicate Reached(tools: ToolCoordinator, messages: seq<Message>, executed: seq<CallId>, end: RoundEnd)
    reads tools, tools.conversation, tools.controller
  {
    && tools.controller.Now() == end.books && tools.pendingApproval == end.pending
    && tools.conversation.messages == messages + end.said && tools.executed == executed + end.ran
  }

  /** Runs rounds until the model answers without tools. How the Turn ends, with which final text, what was
      said and which tools were started is decided by the books and the rounds. */
  method Run(tools: ToolCoordinator, rounds: nat -> Round) returns (exit: Exit, finalText: string)
    requires tools.controller.Valid() && tools.controller.pausedAt == None
    requires !tools.waiting && tools.pendingApproval == None
    modifies tools, tools.conversation, tools.controller
    ensures tools.controller.Valid() && tools.controller.pausedAt == None && !tools.waiting
    ensures var end := TurnEndOf(old(tools.controller.Now()), rounds);
      && exit == end.exit && finalText == end.text
      && Reached(tools, old(tools.conversation.messages), old(tools.executed), end)
      && IsTurnTalk(old(tools.controller.Now()), rounds, end.said)
  {
    TurnTalks(tools.controller.Now(), rounds);
    exit, finalText := RunRounds(tools, rounds);
  }

  method RunRounds(tools: ToolCoordinator, rounds: nat -> Round) returns (exit: Exit, finalText: string)
    requires tools.controller.Valid() && tools.controller.pausedAt == None
    requires !tools.waiting && tools.pendingApproval == None
    modifies tools, tools.conversation, tools.controller
    ensures tools.controller.Valid() && tools.controller.pausedAt == None && !tools.waiting
    ensures var end := TurnEndOf(old(tools.controller.Now()), rounds);
      && exit == end.exit && finalText == end.text
      && Reached(tools, old(tools.conversation.messages), old(tools.executed), end)
  {
    ghost var goal := TurnEndOf(tools.controller.Now(), rounds);
    ghost var said: seq<Message>, ran: seq<CallId> := [], [];
    NothingYet(tools.conversation.messages, tools.executed, goal);
    while true
      invariant tools.controller.Valid() && tools.controller.pausedAt == None
      invariant !tools.waiting && tools.pendingApproval == None
      invariant tools.conversation.messages == old(tools.conversation.messages) + said
      invariant tools.executed == old(tools.executed) + ran
      invariant goal == Behind(said, ran, TurnEndOf(tools.controller.Now(), rounds))
      decreases tools.controller.limits.maxIterations - tools.controller.iterations
    {
      ghost var books := tools.controller.Now();
      ghost var end := RoundEndOf(books, rounds(books.iterations));
      TurnMovesOn(books, rounds, said, ran, end);
      Regroup(old(tools.conversation.messages), said, end.said);
      Regroup(old(tools.executed), ran, end.ran);
      var more;
      exit, finalText, more := RunRound(tools, rounds(tools.controller.iterations), end);
      if !more {
        return;
      }
      said, ran := said + end.said, ran + end.ran;
    }
  }

  /** An end of the Turn as seen from before what was said and run so far. */
  ghost function Behind(said: seq<Message>, ran: seq<CallId>, end: RoundEnd): RoundEnd {
    end.(said := said + end.said, ran := ran + end.ran)
  }

  lemma NothingYet(messages: seq<Message>, executed: seq<CallId>, end: RoundEnd)
    ensures Behind([], [], end) == end && messages + [] == messages && executed + [] == executed
  {
    assert [] + end.said == end.said && [] + end.ran == end.ran;
  }

  lemma TurnMovesOn(books: Books, rounds: nat -> Round, said: seq<Message>, ran: seq<CallId>, end: RoundEnd)
    requires books.iterations <= books.limits.maxIterations && end == RoundEndOf(books, rounds(books.iterations))
    ensures !end.more ==> Behind(said, ran, TurnEndOf(books, rounds)) == Behind(said, ran, end)
    ensures end.more ==> Counted(books, end.books)
    ensures end.more ==>
      Behind(said, ran, TurnEndOf(books, rounds)) == Behind(said + end.said, ran + end.ran, TurnEndOf(end.books, rounds))
  {
    if end.more {
      var rest := TurnEndOf(end.books, rounds);
      Regroup(said, end.said, rest.said);
      Regroup(ran, end.ran, rest.ran);
    }
  }

  /** One round. */
  method RunRound(tools: ToolCoordinator, round: Round, ghost end: RoundEnd) returns (exit: Exit, finalText: string, more: bool)
    requires tools.controller.Valid() && tools.controller.pausedAt == None
    requires !tools.waiting && tools.pendingApproval == None
    requires end == RoundEndOf(tools.controller.Now(), round)
    modifies tools, tools.conversation, tools.controller
    ensures tools.controller.Valid() && tools.controller.pausedAt == None && !tools.waiting
    ensures exit == end.exit && finalText == end.text && more == end.more
    ensures Reached(tools, old(tools.conversation.messages), old(tools.executed), end)
    ensures more ==> tools.pendingApproval == None
  {
    finalText, more := "", false;
    NothingSaid(tools.conversation.messages, tools.executed);
    SilentRound(tools.controller.Now(), round, end);
    exit := AskModel(tools.controller, round);
    if exit == Completed {
      exit, finalText, more := Respond(tools, round, end);
    }
  }

  lemma SilentRound(books: Books, round: Round, end: RoundEnd)
    requires end == RoundEndOf(books, round)
    ensures Asked(books, round).0 != Completed ==> end == Silent(Asked(books, round).0, Asked(books, round).1)
    ensures Asked(books, round).0 == Completed ==> end == ResponseEnd(Asked(books, round).1, round)
    ensures Asked(books, round).0 == Completed ==> !Asked(books, round).1.cancelled
  {
  }

  method AskModel(controller: RunController, round: Round) returns (exit: Exit)
    requires controller.Valid() && controller.pausedAt == None
    modifies controller`cancelRequested, controller`iterations
    ensures controller.Valid() && (exit, controller.Now()) == Asked(old(controller.Now()), round)
  {
    exit := controller.BeginIteration(round.beginAt);
    if exit == Completed && round.assembly.Some? {
      exit := Await(controller, round.assembly.value);
    }
    if exit == Completed {
      exit := Await(controller, round.model);
    }
  }

  lemma NothingSaid(messages: seq<Message>, executed: seq<CallId>)
    ensures messages + [] == messages && executed + [] == executed
  {
  }

  /** Takes the response of the model: the end of the Turn, or a batch of tool calls to carry out. */
  method Respond(tools: ToolCoordinator, round: Round, ghost end: RoundEnd) returns (exit: Exit, finalText: string, more: bool)
    requires tools.controller.Valid() && tools.controller.pausedAt == None
    requires !tools.waiting && tools.pendingApproval == None && !tools.controller.cancelRequested
    requires end == ResponseEnd(tools.controller.Now(), round)
    modifies tools, tools.conversation, tools.controller
    ensures tools.controller.Valid() && tools.controller.pausedAt == None && !tools.waiting
    ensures exit == end.exit && finalText == end.text && more == end.more
    ensures Reached(tools, old(tools.conversation.messages), old(tools.executed), end)
    ensures more ==> tools.pendingApproval == None
  {
    exit, finalText, more := Completed, "", false;
    NothingSaid(tools.conversation.messages, tools.executed);
    tools.conversation.AppendAssistant(round.text, round.calls);
    if round.calls != [] {
      Regroup(old(tools.conversation.messages), [Assistant(round.text, round.calls)],
              BatchSaid(round.calls, round.tools, BatchEndOf(tools.controller.Now(), round.calls, round.tools, 0)));
      exit := RunTools(tools, round.calls, round.tools);
      more := exit == Completed;
    } else {
      exit, finalText := LastWord(round);
    }
  }

  /** How a response without calls ends the Turn. */
  method LastWord(round: Round) returns (exit: Exit, finalText: string)
    ensures exit == if round.truncated then Limit(OutputLength) else if round.text == "" then Limit(EmptyResponse) else Completed
    ensures finalText == if exit == Completed then round.text else ""
  {
    exit, finalText := Completed, "";
    if round.truncated {
      exit := Limit(OutputLength);
    } else if round.text == "" {
      exit := Limit(EmptyResponse);
    } else {
      finalText := round.text;
    }
  }

  /** The batch of one response. */
  method RunTools(tools: ToolCoordinator, calls: seq<ToolCall>, script: nat -> Script) returns (exit: Exit)
    requires tools.controller.Valid() && tools.controller.pausedAt == None
    requires !tools.waiting && tools.pendingApproval == None && !tools.controller.cancelRequested
    modifies tools, tools.conversation, tools.controller
    ensures tools.controller.Valid() && tools.controller.pausedAt == None && !tools.waiting
    ensures var end := BatchEndOf(old(tools.controller.Now()), calls, script, 0);
      && exit == end.exit && tools.controller.Now() == end.books && tools.pendingApproval == LeftPending(calls, end)
      && tools.conversation.messages == old(tools.conversation.messages) + BatchSaid(calls, script, end)
      && tools.executed == old(tools.executed) + IdsAt(calls, end.ran)
      && AnswersAll(calls, script, exit, end.moment, end.last, BatchSaid(calls, script, end))
  {
    ghost var added;
    ghost var end := BatchEndOf(tools.controller.Now(), calls, script, 0);
    exit, added := tools.Execute(calls, script);
    assert Answers(added) == BatchSaid(calls, script, end);
  }

  // ---------------------------------------------------------------- how often the model speaks

  function Spoken(messages: seq<Message>): nat {
    if messages == [] then 0
    else Spoken(messages[..|messages| - 1]) + if messages[|messages| - 1].Assistant? then 1 else 0
  }

  lemma {:induction false} SpokenTogether(a: seq<Message>, b: seq<Message>)
    ensures Spoken(a + b) == Spoken(a) + Spoken(b)
  {
    if b == [] {
      assert a + b == a;
    } else {
      var n := |b| - 1;
      SpokenTogether(a, b[..n]);
      assert (a + b)[..|a + b| - 1] == a + b[..n];
    }
  }

  lemma {:induction false} AnswersAreNotSpoken(answers: seq<Message>)
    requires forall k :: 0 <= k < |answers| ==> answers[k].Answer?
    ensures Spoken(answers) == 0
  {
    if answers != [] {
      AnswersAreNotSpoken(answers[..|answers| - 1]);
    }
  }

  lemma RoundSpeaksOnce(books: Books, round: Round)
    ensures var end := RoundEndOf(books, round);
      Spoken(end.said) <= if books.IterationAt(round.beginAt) == Completed then 1 else 0
  {
    var end := RoundEndOf(books, round);
    if end.said != [] {
      RoundSays(books, round);
      var answers := if round.calls == [] then [] else
        BatchSaid(round.calls, round.tools, BatchEndOf(Asked(books, round).1, round.calls, round.tools, 0));
      AnswersAreNotSpoken(answers);
      SpokenTogether([Assistant(round.text, round.calls)], answers);
      assert [Assistant(round.text, round.calls)][..0] == [];
    }
  }

  /** The model speaks at most once for every iteration that was counted. */
  lemma {:induction false} SpeaksOncePerIteration(books: Books, rounds: nat -> Round)
    requires books.iterations <= books.limits.maxIterations
    ensures var end := TurnEndOf(books, rounds); Spoken(end.said) <= end.books.iterations - books.iterations
    decreases books.limits.maxIterations - books.iterations
  {
    var end := RoundEndOf(books, rounds(books.iterations));
    RoundSpeaksOnce(books, rounds(books.iterations));
    if end.more {
      SpeaksOncePerIteration(end.books, rounds);
      SpokenTogether(end.said, TurnEndOf(end.books, rounds).said);
    }
  }
}
