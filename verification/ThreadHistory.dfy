/** What holds over whole runs of a Thread, across any number of crashes and restores
    (agent/runtime/thread_runtime.py, agent/runtime/events.py). */
module ThreadHistory {
  import opened Common
  import opened Transcript
  import opened ThreadState
  import opened ThreadRuns

  /** A Thread just created and stored. */
  function Created(systemPrompt: string): World {
    var state := State(Idle, [System(systemPrompt)], 0, None, [], [], 0, None, map[], 0);
    World(state, Some(Record(state, 0, None, false, {}, {})), [])
  }

  ghost predicate IsRun(worlds: seq<World>, steps: seq<Step>) {
    && |worlds| == |steps| + 1
    && (exists prompt :: worlds[0] == Created(prompt))
    && (forall i :: 0 <= i < |steps| ==> Enabled(worlds[i], steps[i]) && worlds[i + 1] == Apply(worlds[i], steps[i]))
  }

  lemma CreatedInv(systemPrompt: string)
    ensures Inv(Created(systemPrompt))
  {
    NewTranscript(systemPrompt);
  }

  lemma NewTranscript(systemPrompt: string)
    ensures Transcript.Closed([System(systemPrompt)]) && CallIds([System(systemPrompt)]) == []
  {
    WaitingAfter([], System(systemPrompt));
    assert [] + [System(systemPrompt)] == [System(systemPrompt)];
  }

  /** The state of memory and store is sound at every point of every run. */
  lemma {:induction false} RunKeepsInv(worlds: seq<World>, steps: seq<Step>, i: nat)
    requires IsRun(worlds, steps) && i < |worlds|
    ensures Inv(worlds[i])
  {
    if i == 0 {
      var prompt :| worlds[0] == Created(prompt);
      CreatedInv(prompt);
    } else {
      RunKeepsInv(worlds, steps, i - 1);
      EveryStepKeepsInv(worlds[i - 1], steps[i - 1]);
    }
  }

  // ---------------------------------------------------------------- what later states keep of earlier ones

  /** Nothing that was stored is taken back: summaries, events, replay values; and a started Turn is
      still the active one or has its summary. */
  ghost predicate StateEvolves(earlier: State, later: State) {
    && earlier.turns <= later.turns
    && earlier.events <= later.events
    && (earlier.active.Some? ==> StillThere(earlier.active.value, later))
    && (forall key :: key in earlier.idempotency && earlier.idempotency[key].summary.Some? ==>
          key in later.idempotency && later.idempotency[key] == earlier.idempotency[key])
  }

  ghost predicate StillThere(active: Active, later: State) {
    active.turnId in TurnIds(later.turns) || (later.active.Some? && SameTurn(active, later.active.value))
  }

  ghost predicate Evolves(earlier: World, later: World) {
    StateEvolves(earlier.stored, later.stored) && earlier.seen <= later.seen
  }

  lemma TurnIdsGrow(turns: seq<Summary>, more: seq<Summary>, id: TurnId)
    requires turns <= more && id in TurnIds(turns)
    ensures id in TurnIds(more)
  {
    var i :| 0 <= i < |turns| && TurnIds(turns)[i] == id;
    assert TurnIds(more)[i] == id;
  }

  lemma StateEvolvesTransitive(a: State, b: State, c: State)
    requires StateEvolves(a, b) && StateEvolves(b, c)
    ensures StateEvolves(a, c)
  {
    if a.active.Some? && a.active.value.turnId in TurnIds(b.turns) {
      TurnIdsGrow(b.turns, c.turns, a.active.value.turnId);
    }
  }

  lemma SyncedEvolves(state: State, stored: State)
    requires Synced(state, stored)
    ensures StateEvolves(stored, state)
  {
  }

  lemma EndingEvolves(state: State, after: State, summary: Summary, event: Event)
    requires state.active.Some? && summary.turnId == state.active.value.turnId && IdempotencyOk(state)
    requires after.turns == state.turns + [summary] && after.events == state.events + [event]
    requires after.idempotency == WithReplay(state.idempotency, state.active.value.key, summary)
    ensures StateEvolves(state, after)
  {
    assert TurnIds(after.turns)[|state.turns|] == summary.turnId;
  }

  lemma RecordEvolves(record: Record, step: Step)
    requires RecordOk(record) && EnabledIn(record, step)
    ensures StateEvolves(record.state, ApplyIn(record, step).state)
  {
    if step.Finish? {
      var summary := Summary(record.state.active.value.turnId, step.status, step.finalText, false);
      EndingEvolves(record.state, Ended(record, summary).state, summary,
        Event(record.threadSequence + 1, Some(summary.turnId), Terminal(summary)));
    } else if step.Begin? {
      BeginEvolves(record);
    } else if !step.StartPreflight? && !step.DropPreflight? && !step.ResolveFuture? {
      OtherEvolves(record, step);
    }
  }

  lemma BeginEvolves(record: Record)
    requires RecordOk(record) && EnabledIn(record, Step.Begin)
    ensures StateEvolves(record.state, Begun(record).state)
  {
  }

  lemma OtherEvolves(record: Record, step: Step)
    requires EnabledIn(record, step) && !step.Finish? && !step.Begin?
    ensures StateEvolves(record.state, ApplyIn(record, step).state)
  {
  }

  lemma StepEvolves(w: World, step: Step)
    requires Inv(w) && Enabled(w, step)
    ensures Evolves(w, Apply(w, step))
  {
    if step.Restore? {
      RestoreEvolves(w, step.capacity, step.freshId);
    } else if !step.Crash? {
      InnerStepEvolves(w, step);
    }
  }

  lemma InnerStepEvolves(w: World, step: Step)
    requires Inv(w) && Enabled(w, step) && !step.Restore? && !step.Crash?
    ensures Evolves(w, Apply(w, step))
  {
    WriteEvolves(w.memory.value, w.stored, step);
  }

  lemma WriteEvolves(record: Record, stored: State, step: Step)
    requires RecordOk(record) && Synced(record.state, stored) && EnabledIn(record, step)
    ensures StateEvolves(stored, ApplyIn(record, step).state)
  {
    SyncedEvolves(record.state, stored);
    RecordEvolves(record, step);
    StateEvolvesTransitive(stored, record.state, ApplyIn(record, step).state);
  }

  lemma RestoreEvolves(w: World, capacity: nat, freshId: TurnId)
    requires Inv(w) && Enabled(w, Restore(capacity, freshId))
    ensures Evolves(w, Apply(w, Restore(capacity, freshId)))
  {
    AfterRestore(w, capacity, freshId);
    if w.stored.active.Some? {
      RestoredInterrupted(w.stored, capacity, freshId);
      var after := Apply(w, Restore(capacity, freshId)).stored;
      EndingEvolves(w.stored, after, after.latest.value, after.events[|w.stored.events|]);
    }
  }

  lemma EvolvesTransitive(a: World, b: World, c: World)
    requires Evolves(a, b) && Evolves(b, c)
    ensures Evolves(a, c)
  {
    StateEvolvesTransitive(a.stored, b.stored, c.stored);
  }

  lemma StepOfRunEvolves(worlds: seq<World>, steps: seq<Step>, i: nat)
    requires IsRun(worlds, steps) && i < |steps|
    ensures Evolves(worlds[i], worlds[i + 1])
  {
    RunKeepsInv(worlds, steps, i);
    StepEvolves(worlds[i], steps[i]);
  }

  lemma {:induction false} RunEvolves(worlds: seq<World>, steps: seq<Step>, i: nat, j: nat)
    requires IsRun(worlds, steps) && i <= j < |worlds|
    ensures Evolves(worlds[i], worlds[j])
  {
    if i < j {
      RunEvolves(worlds, steps, i, j - 1);
      StepOfRunEvolves(worlds, steps, j - 1);
      EvolvesTransitive(worlds[i], worlds[j - 1], worlds[j]);
    }
  }

  // ---------------------------------------------------------------- main results

  /** The k-th summary has its terminal event. */
  lemma {:induction false} AnnouncedBy(events: seq<Event>, k: nat) returns (i: nat)
    requires k < |Announced(events)|
    ensures i < |events| && events[i].kind == Terminal(Announced(events)[k])
  {
    var last := |events| - 1;
    if k < |Announced(events[..last])| {
      i := AnnouncedBy(events[..last], k);
    } else {
      i := last;
    }
  }

  /** A Turn has exactly one summary and exactly one terminal event, which carries it. */
  ghost predicate EndedOnce(state: State, id: TurnId) {
    && (exists k :: 0 <= k < |state.turns| && state.turns[k].turnId == id)
    && (forall k, l :: 0 <= k < l < |state.turns| && state.turns[k].turnId == id ==> state.turns[l].turnId != id)
    && (exists i :: 0 <= i < |state.events| && TerminalOf(state, i, id))
    && (forall i, j :: 0 <= i < j < |state.events| && TerminalOf(state, i, id) ==> !TerminalOf(state, j, id))
  }

  ghost predicate TerminalOf(state: State, i: nat, id: TurnId)
    requires i < |state.events|
  {
    state.events[i].kind.Terminal? && state.events[i].turn == Some(id)
    && state.events[i].kind.summary in state.turns && state.events[i].kind.summary.turnId == id
  }

  lemma SummaryMeansEndedOnce(state: State, id: TurnId)
    requires StateOk(state) && id in TurnIds(state.turns)
    ensures EndedOnce(state, id)
  {
    var k :| 0 <= k < |state.turns| && TurnIds(state.turns)[k] == id;
    assert state.turns[k].turnId == id;
    forall k, l | 0 <= k < l < |state.turns| && state.turns[k].turnId == id ensures state.turns[l].turnId != id {
      assert TurnIds(state.turns)[k] != TurnIds(state.turns)[l];
    }
    var i := AnnouncedBy(state.events, k);
    assert TerminalOf(state, i, id);
  }

  /** A Turn that was ever stored as started ends exactly once: as soon as the store shows no active
      Turn, it has one summary and one terminal event, however often the process crashed meanwhile. */
  lemma EveryStartedTurnEndsOnce(worlds: seq<World>, steps: seq<Step>, i: nat, j: nat)
    requires IsRun(worlds, steps) && i <= j < |worlds|
    requires worlds[i].stored.active.Some? && !Interrupted(worlds[j].stored)
    ensures EndedOnce(worlds[j].stored, worlds[i].stored.active.value.turnId)
  {
    RunEvolves(worlds, steps, i, j);
    RunKeepsInv(worlds, steps, j);
    SummaryMeansEndedOnce(worlds[j].stored, worlds[i].stored.active.value.turnId);
  }

  /** Every number a reader saw is smaller than every number seen later, transient events included. */
  lemma SeenNumbersOnlyGrow(worlds: seq<World>, steps: seq<Step>, i: nat, j: nat, a: nat, b: nat)
    requires IsRun(worlds, steps) && i <= j < |worlds|
    requires a < |worlds[i].seen| <= b < |worlds[j].seen|
    ensures worlds[j].seen[a] == worlds[i].seen[a]
    ensures worlds[i].seen[a].sequence < worlds[j].seen[b].sequence
  {
    RunEvolves(worlds, steps, i, j);
    RunKeepsInv(worlds, steps, j);
  }

  /** A key whose stored submission is finished is answered from it for ever after. */
  lemma StoredKeyDecides(worlds: seq<World>, steps: seq<Step>, i: nat, j: nat, request: Request, key: Key)
    requires IsRun(worlds, steps) && i <= j < |worlds| && worlds[j].memory.Some?
    requires key in worlds[i].stored.idempotency && worlds[i].stored.idempotency[key].summary.Some?
    ensures var submission := worlds[i].stored.idempotency[key];
      Submit(worlds[j].memory.value, request, Some(key)) ==
        if submission.request != request then Conflict
        else if submission.interrupted then KeyInterrupted else Replay(submission.summary.value)
  {
    RunEvolves(worlds, steps, i, j);
    RunKeepsInv(worlds, steps, j);
  }

  lemma AnsweredKeyIsStored(w: World, key: Key)
    requires Inv(w) && w.memory.Some?
    ensures var known := w.memory.value.state.idempotency;
      key in known ==> (known[key].summary.Some? || known[key].interrupted) ==>
        key in w.stored.idempotency && w.stored.idempotency[key].summary.Some?
  {
    if key in w.memory.value.state.idempotency {
      assert SubmissionOk(w.memory.value.state, key);
    }
  }

  /** An answer given for a key is given for ever after, in this process and in every later one. */
  lemma AnswersForAKeyNeverChange(worlds: seq<World>, steps: seq<Step>, i: nat, j: nat, request: Request, key: Key)
    requires IsRun(worlds, steps) && i <= j < |worlds| && worlds[i].memory.Some? && worlds[j].memory.Some?
    ensures var first := Submit(worlds[i].memory.value, request, Some(key));
      first.Replay? || first.KeyInterrupted? ==> Submit(worlds[j].memory.value, request, Some(key)) == first
  {
    RunKeepsInv(worlds, steps, i);
    AnsweredKeyIsStored(worlds[i], key);
    if key in worlds[i].stored.idempotency && worlds[i].stored.idempotency[key].summary.Some? {
      StoredKeyDecides(worlds, steps, i, i, request, key);
      StoredKeyDecides(worlds, steps, i, j, request, key);
    }
  }

  /** The assertion on the future of a key cannot fail, and a key whose Turn a restart interrupted is
      refused; one whose Turn ended is replayed. */
  lemma SubmitIsDecided(worlds: seq<World>, steps: seq<Step>, i: nat, request: Request, key: Key)
    requires IsRun(worlds, steps) && i < |worlds| && worlds[i].memory.Some?
    ensures Submit(worlds[i].memory.value, request, Some(key)) != NoFuture
    ensures worlds[i].memory.value.state.active.None? && key in worlds[i].memory.value.state.idempotency ==>
      worlds[i].memory.value.state.idempotency[key].summary.Some?
  {
    RunKeepsInv(worlds, steps, i);
    var state := worlds[i].memory.value.state;
    if key in state.idempotency {
      assert SubmissionOk(state, key);
    }
  }

  lemma KeyAfterRestore(w: World, capacity: nat, freshId: TurnId, key: Key)
    requires Inv(w) && Enabled(w, Restore(capacity, freshId))
    requires w.stored.active.Some? && w.stored.active.value.key == Some(key)
    ensures key in w.stored.idempotency
    ensures var after := Apply(w, Restore(capacity, freshId)).stored.idempotency;
      && key in after && after[key].request == w.stored.idempotency[key].request
      && after[key].interrupted && after[key].summary.Some?
  {
    AfterRestore(w, capacity, freshId);
    RestoredInterrupted(w.stored, capacity, freshId);
  }

  /** A key that was in flight when the process died is refused by every later process. */
  lemma InterruptedKeyNeverRunsAgain(worlds: seq<World>, steps: seq<Step>, i: nat, j: nat, request: Request, key: Key)
    requires IsRun(worlds, steps) && i < |steps| && i < j < |worlds| && steps[i].Restore? && worlds[j].memory.Some?
    requires worlds[i].stored.active.Some? && worlds[i].stored.active.value.key == Some(key)
    ensures key in worlds[i].stored.idempotency
    ensures Submit(worlds[j].memory.value, request, Some(key))
         == if worlds[i].stored.idempotency[key].request == request then KeyInterrupted else Conflict
  {
    RunKeepsInv(worlds, steps, i);
    KeyAfterRestore(worlds[i], steps[i].capacity, steps[i].freshId, key);
    StoredKeyDecides(worlds, steps, i + 1, j, request, key);
  }

  /** Restoring again, without anything in between, adds nothing to the store and shows nothing. */
  lemma RestoringTwiceAddsNothing(w: World, first: Step, second: Step)
    requires Inv(w) && first.Restore? && second.Restore? && Enabled(w, first)
    requires Enabled(Apply(Apply(w, first), Crash), second)
    ensures var once := Apply(w, first);
      var twice := Apply(Apply(once, Crash), second);
      twice.stored == once.stored && twice.seen == once.seen
      && twice.memory.Some? && once.memory.Some? && twice.memory.value.state == once.memory.value.state
  {
    var once := Apply(w, first);
    AfterRestore(w, first.capacity, first.freshId);
    EveryStepKeepsInv(w, first);
    if w.stored.active.Some? {
      RestoredInterrupted(w.stored, first.capacity, first.freshId);
    }
    AfterRestore(Apply(once, Crash), second.capacity, second.freshId);
  }

  /** The process has accepted a close. */
  predicate IsClosing(w: World) { w.memory.Some? && w.memory.value.closing }

  /** A close that was asked for is in force unless a Turn is active. */
  ghost predicate CloseKept(w: World) {
    IsClosing(w) && w.memory.value.state.active.None? ==>
      w.memory.value.state.status.Closed? && w.stored.status.Closed?
  }

  lemma StepKeepsClose(w: World, step: Step)
    requires Enabled(w, step) && CloseKept(w)
    ensures CloseKept(Apply(w, step))
    ensures !step.Crash? && IsClosing(w) ==> IsClosing(Apply(w, step))
  {
    if step.Restore? {
      assert !Restored(w.stored, step.capacity, IssuedBefore(w.stored, step.freshId), step.freshId).closing;
    }
  }

  lemma {:induction false} RunKeepsClose(worlds: seq<World>, steps: seq<Step>, i: nat)
    requires IsRun(worlds, steps) && i < |worlds|
    ensures CloseKept(worlds[i])
  {
    if i > 0 {
      RunKeepsClose(worlds, steps, i - 1);
      StepKeepsClose(worlds[i - 1], steps[i - 1]);
    }
  }

  lemma StepOfRunKeepsClosing(worlds: seq<World>, steps: seq<Step>, i: nat)
    requires IsRun(worlds, steps) && i < |steps| && !steps[i].Crash? && IsClosing(worlds[i])
    ensures IsClosing(worlds[i + 1])
  {
    RunKeepsClose(worlds, steps, i);
    StepKeepsClose(worlds[i], steps[i]);
  }

  lemma {:induction false} ClosingStays(worlds: seq<World>, steps: seq<Step>, i: nat, j: nat)
    requires IsRun(worlds, steps) && i <= j < |worlds| && (forall k :: i <= k < j ==> !steps[k].Crash?)
    requires IsClosing(worlds[i])
    ensures IsClosing(worlds[j])
  {
    if i < j {
      ClosingStays(worlds, steps, i, j - 1);
      StepOfRunKeepsClosing(worlds, steps, j - 1);
    }
  }

  /** A close asked for during a Turn is in force, in the store too, at every later point of the process at which
      the Turn has ended ... */
  lemma CloseTakesEffectAtTheEnd(worlds: seq<World>, steps: seq<Step>, i: nat, j: nat)
    requires IsRun(worlds, steps) && i <= j < |worlds| && (forall k :: i <= k < j ==> !steps[k].Crash?)
    requires IsClosing(worlds[i])
    ensures IsClosing(worlds[j])
    ensures worlds[j].memory.value.state.active.None? ==>
      worlds[j].memory.value.state.status.Closed? && worlds[j].stored.status.Closed?
  {
    ClosingStays(worlds, steps, i, j);
    RunKeepsClose(worlds, steps, j);
  }

  /** ... and is forgotten by a crash before that: the Thread comes back open. */
  lemma CloseIsForgottenByACrash(w: World, capacity: nat, freshId: TurnId)
    requires Inv(w) && w.memory.Some? && w.stored.active.Some? && Fresh(w.stored, freshId)
    ensures Apply(Apply(Apply(w, CloseThread), Crash), Restore(capacity, freshId)).stored.status.Idle?
  {
    assert w.memory.value.state.active.Some?;
    assert Apply(w, CloseThread).stored == w.stored;
    var crashed := Apply(Apply(w, CloseThread), Crash);
    AfterRestore(crashed, capacity, freshId);
    RestoredInterrupted(w.stored, capacity, freshId);
  }
}
