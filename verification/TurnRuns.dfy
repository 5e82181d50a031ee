/** Runs of one Thread whose Turns are driven by the agent loop: what the loop says is what the transcript
    gets, one message at a time, with crashes between any two
    (agent/runtime/thread_runtime.py, agent/runtime/loop.py). */
module TurnRuns {
  import opened Common
  import opened Transcript
  import opened ThreadState
  import opened ThreadRuns
  import opened ThreadHistory
  import RunBudget
  import AgentLoop

  /** A world, and what the loop of the running Turn is still going to say. */
  datatype Driven = Driven(world: World, left: seq<Message>)

  /** A Turn begins with the books of its controller and with what the outside will do in each round; it
      finishes when the loop has nothing left to say. Everything else is a step of the run model. */
  datatype Move =
    | BeginTurn(books: RunBudget.Books, rounds: nat -> AgentLoop.Round)
    | SayNext
    | FinishTurn(status: TurnStatus, finalText: string)
    | Other(step: Step)

  ghost predicate Active(d: Driven) {
    d.world.memory.Some? && d.world.memory.value.state.active.Some?
  }

  function Messages(d: Driven): seq<Message>
    requires d.world.memory.Some?
  {
    d.world.memory.value.state.messages
  }

  /** Nothing is asked of the transcript here but that call ids are unique across the whole history. */
  ghost predicate MayMove(d: Driven, move: Move) {
    match move
    case BeginTurn(books, rounds) =>
      && Enabled(d.world, Step.Begin) && books.iterations <= books.limits.maxIterations
      && Distinct(CallIds(Messages(d) + [User(d.world.memory.value.preflight.value.request.userText)]
                          + AgentLoop.TurnEndOf(books, rounds).said))
    case SayNext => Active(d) && d.left != []
    case FinishTurn(_, _) => Active(d) && d.left == []
    case Other(step) => Enabled(d.world, step) && !step.Begin? && !step.Say? && !step.Finish?
  }

  function StepOf(d: Driven, move: Move): Step {
    match move
    case BeginTurn(_, _) => Step.Begin
    case SayNext => if d.left == [] then Persist else Say(d.left[0])
    case FinishTurn(status, text) => Finish(status, text)
    case Other(step) => step
  }

  ghost function Moved(d: Driven, move: Move): Driven {
    var left := match move
      case BeginTurn(books, rounds) =>
        if books.iterations <= books.limits.maxIterations then AgentLoop.TurnEndOf(books, rounds).said else []
      case SayNext => if d.left == [] then [] else d.left[1..]
      case FinishTurn(_, _) => d.left
      case Other(step) => if step.Crash? then [] else d.left;
    Driven(Apply(d.world, StepOf(d, move)), left)
  }

  // ---------------------------------------------------------------- the transcript is always legal

  /** The transcript with what is left to say is closed, with distinct call ids. */
  ghost predicate Closing(messages: seq<Message>, left: seq<Message>) {
    Transcript.Closed(messages + left) && Distinct(CallIds(messages + left))
  }

  ghost predicate DrivenInv(d: Driven) {
    && Inv(d.world)
    && (!Active(d) ==> d.left == [])
    && (Active(d) ==> Closing(Messages(d), d.left))
  }

  lemma {:induction false} CallIdsOfPrefix(a: seq<Message>, b: seq<Message>)
    ensures CallIds(a) <= CallIds(a + b)
  {
    if b == [] {
      assert a + b == a;
    } else {
      var n := |b| - 1;
      CallIdsOfPrefix(a, b[..n]);
      assert (a + b)[..|a + b| - 1] == a + b[..n];
    }
  }

  /** The next message fits: every beginning of what a loop says leaves a legal transcript. */
  lemma NextFits(messages: seq<Message>, left: seq<Message>)
    requires Closing(messages, left) && left != []
    ensures Legal(messages + [left[0]]) && Distinct(CallIds(messages + [left[0]]))
    ensures Closing(messages + [left[0]], left[1..])
  {
    var next := messages + [left[0]];
    assert messages + left == next + left[1..];
    LegalPrefix(messages + left, |next|);
    assert (messages + left)[..|next|] == next;
    CallIdsOfPrefix(next, left[1..]);
  }

  /** The guards of the run model hold of a driven Turn. */
  lemma MoveIsEnabled(d: Driven, move: Move)
    requires DrivenInv(d) && MayMove(d, move)
    ensures Enabled(d.world, StepOf(d, move))
  {
    match move
    case SayNext => NextFits(Messages(d), d.left);
    case FinishTurn(_, _) => assert Messages(d) + [] == Messages(d);
    case BeginTurn(_, _) =>
    case Other(_) =>
  }

  /** A Turn begins with a transcript that its loop will leave closed. */
  lemma BeginningCloses(messages: seq<Message>, text: string, books: RunBudget.Books, rounds: nat -> AgentLoop.Round)
    requires Transcript.Closed(messages) && books.iterations <= books.limits.maxIterations
    ensures Transcript.Closed(messages + [User(text)] + AgentLoop.TurnEndOf(books, rounds).said)
  {
    WaitingAfter(messages, User(text));
    AgentLoop.TurnCloses(messages + [User(text)], books, rounds);
  }

  /** Steps that are not about the transcript leave it, and the Turn, as they are. */
  lemma OtherStepKeepsTurn(record: Record, step: Step)
    requires !step.Begin? && !step.Say? && !step.Finish?
    ensures ApplyIn(record, step).state.messages == record.state.messages
    ensures ApplyIn(record, step).state.active.Some? <==> record.state.active.Some?
  {
  }

  lemma OtherMoveKeepsInv(d: Driven, step: Step)
    requires DrivenInv(d) && MayMove(d, Other(step)) && Inv(Apply(d.world, step))
    ensures DrivenInv(Moved(d, Other(step)))
  {
    if step.Restore? {
      AfterRestore(d.world, step.capacity, step.freshId);
      RestoredIsIdle(d.world, step.capacity, step.freshId);
    } else if !step.Crash? {
      OtherStepKeepsTurn(d.world.memory.value, step);
    }
  }

  lemma RestoredIsIdle(w: World, capacity: nat, freshId: TurnId)
    requires Inv(w) && Enabled(w, Restore(capacity, freshId))
    ensures Apply(w, Restore(capacity, freshId)).memory.value.state.active.None?
  {
    if w.stored.active.Some? {
      RestoredInterrupted(w.stored, capacity, freshId);
    } else {
      RestoredQuiet(w.stored, capacity, freshId);
    }
  }

  lemma MoveKeepsInv(d: Driven, move: Move)
    requires DrivenInv(d) && MayMove(d, move)
    ensures DrivenInv(Moved(d, move))
  {
    MoveIsEnabled(d, move);
    EveryStepKeepsInv(d.world, StepOf(d, move));
    match move
    case BeginTurn(books, rounds) => BeginMoveKeepsInv(d, books, rounds);
    case SayNext => SayMoveKeepsInv(d);
    case FinishTurn(status, text) => FinishStepIs(d.world, status, text);
    case Other(step) => OtherMoveKeepsInv(d, step);
  }

  lemma BeginMoveKeepsInv(d: Driven, books: RunBudget.Books, rounds: nat -> AgentLoop.Round)
    requires DrivenInv(d) && MayMove(d, BeginTurn(books, rounds)) && Inv(Apply(d.world, Step.Begin))
    ensures DrivenInv(Moved(d, BeginTurn(books, rounds)))
  {
    BeginStepIs(d.world);
    BeginningCloses(Messages(d), d.world.memory.value.preflight.value.request.userText, books, rounds);
  }

  lemma SayMoveKeepsInv(d: Driven)
    requires DrivenInv(d) && MayMove(d, SayNext) && Inv(Apply(d.world, StepOf(d, SayNext)))
    ensures DrivenInv(Moved(d, SayNext))
  {
    NextFits(Messages(d), d.left);
    SayStepIs(d.world, d.left[0]);
  }

  lemma BeginStepIs(w: World)
    requires Inv(w) && Enabled(w, Step.Begin)
    ensures var after := Apply(w, Step.Begin).memory;
      && after.Some? && after.value.state.active.Some?
      && after.value.state.messages == w.memory.value.state.messages + [User(w.memory.value.preflight.value.request.userText)]
  {
  }

  lemma SayStepIs(w: World, message: Message)
    requires w.memory.Some?
    ensures var after := Apply(w, Say(message)).memory;
      && after.Some? && after.value.state.active == w.memory.value.state.active
      && after.value.state.messages == w.memory.value.state.messages + [message]
  {
  }

  lemma FinishStepIs(w: World, status: TurnStatus, text: string)
    requires w.memory.Some? && w.memory.value.state.active.Some?
    ensures var after := Apply(w, Finish(status, text)).memory; after.Some? && after.value.state.active.None?
  {
  }

  // ---------------------------------------------------------------- driven runs are runs

  ghost predicate IsDrivenRun(ds: seq<Driven>, moves: seq<Move>) {
    && |ds| == |moves| + 1
    && (exists prompt :: ds[0] == Driven(Created(prompt), []))
    && (forall i :: 0 <= i < |moves| ==> MayMove(ds[i], moves[i]) && ds[i + 1] == Moved(ds[i], moves[i]))
  }

  function WorldsOf(ds: seq<Driven>): seq<World> {
    seq(|ds|, i requires 0 <= i < |ds| => ds[i].world)
  }

  function StepsOf(ds: seq<Driven>, moves: seq<Move>): seq<Step>
    requires |ds| > |moves|
  {
    seq(|moves|, i requires 0 <= i < |moves| => StepOf(ds[i], moves[i]))
  }

  lemma {:induction false} DrivenRunKeepsInv(ds: seq<Driven>, moves: seq<Move>, i: nat)
    requires IsDrivenRun(ds, moves) && i < |ds|
    ensures DrivenInv(ds[i])
  {
    if i == 0 {
      var prompt :| ds[0] == Driven(Created(prompt), []);
      CreatedInv(prompt);
    } else {
      DrivenRunKeepsInv(ds, moves, i - 1);
      MoveKeepsInv(ds[i - 1], moves[i - 1]);
    }
  }

  /** A run driven by the loop is a run: the transcript guards of Say and Finish are met. */
  lemma DrivenRunIsRun(ds: seq<Driven>, moves: seq<Move>)
    requires IsDrivenRun(ds, moves)
    ensures IsRun(WorldsOf(ds), StepsOf(ds, moves))
  {
    forall i | 0 <= i < |moves|
      ensures Enabled(ds[i].world, StepOf(ds[i], moves[i])) && ds[i + 1].world == Apply(ds[i].world, StepOf(ds[i], moves[i]))
    {
      DrivenRunKeepsInv(ds, moves, i);
      MoveIsEnabled(ds[i], moves[i]);
    }
    var prompt :| ds[0] == Driven(Created(prompt), []);
    assert WorldsOf(ds)[0] == Created(prompt);
  }

  // ---------------------------------------------------------------- every call has its result

  /** The k-th call of the message at `m` is answered right behind it, at its own place, and nowhere else. */
  ghost predicate AnsweredOnce(messages: seq<Message>, m: nat, k: nat)
    requires m < |messages| && messages[m].Assistant? && k < |messages[m].calls|
  {
    && m + 1 + k < |messages|
    && forall j :: 0 <= j < |messages| ==>
         ((messages[j].Answer? && messages[j].callId == messages[m].calls[k].id) <==> j == m + 1 + k)
  }

  /** What is stored is always legal, also in the middle of a batch; and whenever the store shows no active
      Turn, each call of the whole history has exactly one result, in its place, across all Turns, all ends
      of a batch, and any number of crashes and restores. */
  lemma EveryCallIsAnsweredOnce(ds: seq<Driven>, moves: seq<Move>, i: nat)
    requires IsDrivenRun(ds, moves) && i < |ds|
    ensures Legal(ds[i].world.stored.messages)
    ensures ds[i].world.stored.active.None? ==>
      var messages := ds[i].world.stored.messages;
      forall m, k :: 0 <= m < |messages| && messages[m].Assistant? && 0 <= k < |messages[m].calls| ==> AnsweredOnce(messages, m, k)
  {
    DrivenRunKeepsInv(ds, moves, i);
    var messages := ds[i].world.stored.messages;
    if ds[i].world.stored.active.None? {
      forall m: nat, k: nat | m < |messages| && messages[m].Assistant? && k < |messages[m].calls|
        ensures AnsweredOnce(messages, m, k)
      {
        CallAnsweredOnce(messages, m, k);
      }
    }
  }

  lemma CallAnsweredOnce(messages: seq<Message>, m: nat, k: nat)
    requires Transcript.Closed(messages) && Distinct(CallIds(messages))
    requires m < |messages| && messages[m].Assistant? && k < |messages[m].calls|
    ensures AnsweredOnce(messages, m, k)
  {
    ClosedMeansEveryCallAnswered(messages, m, k);
    forall j: nat | j < |messages| && messages[j].Answer? && messages[j].callId == messages[m].calls[k].id
      ensures j == m + 1 + k
    {
      ClosedMeansExactlyOneAnswer(messages, m, k, j);
    }
  }
}
