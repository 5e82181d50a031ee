/** From how the loop ends to what is stored of the Turn: its status, its final text, and the transcript it leaves
    (agent/runtime/thread_runtime.py, _execute_active_turn). */
module TurnOutcomes {
  import opened Common
  import opened Transcript
  import opened ThreadState
  import opened ThreadRuns
  import opened ThreadHistory
  import opened ThreadSteps
  import opened TurnRuns
  import RunBudget
  import AgentLoop

  // ---------------------------------------------------------------- the outcome of one Turn

  function StatusOf(exit: RunBudget.Exit): TurnStatus {
    match exit
    case Completed => TurnCompleted
    case Limit(_) => TurnLimitReached
    case Cancelled => TurnStatus.TurnCancelled
    case _ => TurnFailed
  }

  /** The text of the newest message of the model; "" when it said nothing. */
  function LastText(said: seq<Message>): string {
    if said == [] then ""
    else
      var last := said[|said| - 1];
      if last.Assistant? then last.text else LastText(said[..|said| - 1])
  }

  /** The answer of a completed Turn; otherwise the last text its controller was told. */
  function FinalText(end: AgentLoop.RoundEnd): string {
    if end.exit == RunBudget.Completed then end.text else LastText(end.said)
  }

  /** Either way it is the last thing the model said in the Turn. */
  lemma FinalTextIsTheLastWord(books: RunBudget.Books, rounds: nat -> AgentLoop.Round)
    requires books.iterations <= books.limits.maxIterations
    ensures var end := AgentLoop.TurnEndOf(books, rounds); FinalText(end) == LastText(end.said)
  {
    if AgentLoop.TurnEndOf(books, rounds).exit == RunBudget.Completed {
      AgentLoop.SuccessHasTheLastWord(books, rounds);
    }
  }

  // ---------------------------------------------------------------- one Turn of a run

  /** The next message, or a step that neither ends nor interrupts a Turn. */
  ghost predicate IsQuiet(move: Move) { move.SayNext? || (move.Other? && !move.step.Crash?) }

  /** The Turn that begins at `b` is neither ended nor interrupted before `k`. */
  ghost predicate GoesOn(moves: seq<Move>, b: nat, k: nat) {
    k <= |moves| && forall j :: b < j < k ==> IsQuiet(moves[j])
  }

  /** The Turn is active, and its transcript with what is left to say is this one. */
  ghost predicate Says(d: Driven, id: TurnId, all: seq<Message>) {
    && d.world.memory.Some? && d.world.memory.value.state.active.Some?
    && d.world.memory.value.state.active.value.turnId == id && Messages(d) + d.left == all
  }

  lemma OtherStepKeepsId(record: Record, step: Step)
    requires !step.Begin? && !step.Say? && !step.Finish? && record.state.active.Some?
    ensures var after := ApplyIn(record, step).state;
      && after.messages == record.state.messages && after.active.Some?
      && after.active.value.turnId == record.state.active.value.turnId
  {
  }

  lemma NextSaysOn(d: Driven, id: TurnId, all: seq<Message>)
    requires MayMove(d, SayNext) && Says(d, id, all)
    ensures Says(Moved(d, SayNext), id, all)
  {
    SayStepIs(d.world, d.left[0]);
    assert Messages(d) + [d.left[0]] + d.left[1..] == Messages(d) + d.left;
  }

  lemma OtherSaysOn(d: Driven, step: Step, id: TurnId, all: seq<Message>)
    requires MayMove(d, Other(step)) && Says(d, id, all) && !step.Crash?
    ensures Says(Moved(d, Other(step)), id, all)
  {
    OtherStepKeepsId(d.world.memory.value, step);
  }

  ghost predicate QuietMove(d: Driven, move: Move, after: Driven) {
    MayMove(d, move) && after == Moved(d, move) && IsQuiet(move)
  }

  lemma MoveSaysOn(d: Driven, move: Move, after: Driven, id: TurnId, all: seq<Message>)
    requires QuietMove(d, move, after) && Says(d, id, all)
    ensures Says(after, id, all)
  {
    if move.SayNext? {
      NextSaysOn(d, id, all);
    } else {
      OtherSaysOn(d, move.step, id, all);
    }
  }

  lemma BeginSays(d: Driven, p: Preflight, books: RunBudget.Books, rounds: nat -> AgentLoop.Round)
    requires DrivenInv(d) && MayMove(d, BeginTurn(books, rounds)) && d.world.memory.value.preflight == Some(p)
    ensures Says(Moved(d, BeginTurn(books, rounds)), p.turnId,
      Messages(d) + [User(p.request.userText)] + AgentLoop.TurnEndOf(books, rounds).said)
  {
    BeginIs(d.world, p);
  }

  ghost predicate QuietMoves(ds: seq<Driven>, moves: seq<Move>, b: nat, k: nat) {
    && k <= |moves| < |ds|
    && forall j :: b < j < k ==> QuietMove(ds[j], moves[j], ds[j + 1])
  }

  lemma GoingOnIsQuiet(ds: seq<Driven>, moves: seq<Move>, b: nat, k: nat)
    requires IsDrivenRun(ds, moves) && GoesOn(moves, b, k)
    ensures QuietMoves(ds, moves, b, k)
  {
  }

  lemma {:induction false} TurnSaysOn(ds: seq<Driven>, moves: seq<Move>, b: nat, k: nat, id: TurnId, all: seq<Message>)
    requires b < k && QuietMoves(ds, moves, b, k) && Says(ds[b + 1], id, all)
    ensures Says(ds[k], id, all)
  {
    if k > b + 1 {
      TurnSaysOn(ds, moves, b, k - 1, id, all);
      MoveSaysOn(ds[k - 1], moves[k - 1], ds[k], id, all);
    }
  }

  /** The newest summary says this, and this is its transcript. */
  ghost predicate IsStoredAs(stored: State, id: TurnId, status: TurnStatus, text: string, messages: seq<Message>) {
    && stored.turns != [] && stored.turns[|stored.turns| - 1] == Summary(id, status, text, false)
    && stored.messages == messages && stored.active.None?
  }

  lemma FinishStoresAll(d: Driven, id: TurnId, status: TurnStatus, text: string, all: seq<Message>)
    requires DrivenInv(d) && MayMove(d, FinishTurn(status, text)) && Says(d, id, all)
    ensures IsStoredAs(Moved(d, FinishTurn(status, text)).world.stored, id, status, text, all)
  {
    MoveIsEnabled(d, FinishTurn(status, text));
    FinishIs(d.world, status, text);
    assert Messages(d) + [] == Messages(d);
  }

  /** A Turn that runs from its begin to its end without a crash, whatever else happens meanwhile, and finishes with the
      outcome of its loop: stored are the status that goes with how the loop ended, the last text of the model as its
      final text, and behind the earlier transcript its user text and exactly what the loop said. */
  lemma TurnIsStoredAsItEnded(ds: seq<Driven>, moves: seq<Move>, b: nat, f: nat, books: RunBudget.Books,
      rounds: nat -> AgentLoop.Round, p: Preflight)
    requires IsDrivenRun(ds, moves) && b < f < |moves| && GoesOn(moves, b, f) && moves[b] == BeginTurn(books, rounds)
    requires ds[b].world.memory.Some? && ds[b].world.memory.value.preflight == Some(p)
    requires books.iterations <= books.limits.maxIterations
    requires var end := AgentLoop.TurnEndOf(books, rounds); moves[f] == FinishTurn(StatusOf(end.exit), FinalText(end))
    ensures var end := AgentLoop.TurnEndOf(books, rounds);
      IsStoredAs(ds[f + 1].world.stored, p.turnId,
        if end.exit == RunBudget.Completed then TurnCompleted
        else if end.exit == RunBudget.Exit.Cancelled then TurnStatus.TurnCancelled
        else if end.exit.Limit? then TurnLimitReached else TurnFailed,
        LastText(end.said), Messages(ds[b]) + [User(p.request.userText)] + end.said)
  {
    var end := AgentLoop.TurnEndOf(books, rounds);
    var all := Messages(ds[b]) + [User(p.request.userText)] + end.said;
    DrivenRunKeepsInv(ds, moves, b);
    BeginSays(ds[b], p, books, rounds);
    GoingOnIsQuiet(ds, moves, b, f);
    TurnSaysOn(ds, moves, b, f, p.turnId, all);
    DrivenRunKeepsInv(ds, moves, f);
    FinishStoresAll(ds[f], p.turnId, StatusOf(end.exit), FinalText(end), all);
    FinalTextIsTheLastWord(books, rounds);
  }

  /** A completed Turn has a text that is not empty, and its transcript ends with it. */
  lemma CompletedTurnAnswers(books: RunBudget.Books, rounds: nat -> AgentLoop.Round)
    requires books.iterations <= books.limits.maxIterations
    requires StatusOf(AgentLoop.TurnEndOf(books, rounds).exit) == TurnCompleted
    ensures var end := AgentLoop.TurnEndOf(books, rounds);
      && FinalText(end) != "" && end.said != [] && end.said[|end.said| - 1] == Assistant(FinalText(end), [])
  {
    AgentLoop.SuccessHasTheLastWord(books, rounds);
  }
}
