/** From the request that took the slot to the answers its key gets, over whole runs with crashes
    (agent/runtime/thread_runtime.py, run_turn). */
module ThreadKeys {
  import opened Common
  import opened Transcript
  import opened ThreadState
  import opened ThreadRuns
  import opened ThreadHistory

  /** The key is known to the process or to the store. */
  ghost predicate Knows(w: World, key: Key) {
    key in w.stored.idempotency || (w.memory.Some? && key in w.memory.value.state.idempotency)
  }

  /** Wherever the key is known, it stands for this request. */
  ghost predicate StandsFor(w: World, key: Key, request: Request) {
    && (key in w.stored.idempotency ==> w.stored.idempotency[key].request == request)
    && (w.memory.Some? && key in w.memory.value.state.idempotency ==> w.memory.value.state.idempotency[key].request == request)
  }

  // ---------------------------------------------------------------- one step

  lemma RestoreKeepsKeys(w: World, capacity: nat, freshId: TurnId, key: Key)
    requires Inv(w) && Enabled(w, Restore(capacity, freshId))
    ensures var after := Apply(w, Restore(capacity, freshId));
      && after.memory.Some? && after.memory.value.state == after.stored
      && (key in after.stored.idempotency <==> key in w.stored.idempotency)
      && (key in w.stored.idempotency ==> after.stored.idempotency[key].request == w.stored.idempotency[key].request)
  {
    AfterRestore(w, capacity, freshId);
    if w.stored.active.Some? {
      RestoredInterrupted(w.stored, capacity, freshId);
    }
  }

  lemma StepKeepsKeys(record: Record, step: Step, key: Key)
    requires RecordOk(record) && EnabledIn(record, step) && key in record.state.idempotency
    ensures var after := ApplyIn(record, step).state.idempotency;
      key in after && after[key].request == record.state.idempotency[key].request
  {
    if step.Finish? {
      EndedFields(record, Summary(record.state.active.value.turnId, step.status, step.finalText, false));
    }
  }

  lemma MemoryKnows(w: World, key: Key)
    requires Inv(w) && w.memory.Some? && Knows(w, key)
    ensures key in w.memory.value.state.idempotency
  {
  }

  /** What is stored is stored for ever, and what is known is forgotten only by a crash before it is stored. */
  lemma OnlyACrashForgets(w: World, step: Step, key: Key)
    requires Inv(w) && Enabled(w, step) && Knows(w, key)
    ensures key in w.stored.idempotency ==> key in Apply(w, step).stored.idempotency
    ensures !step.Crash? || key in w.stored.idempotency ==> Knows(Apply(w, step), key)
  {
    if step.Restore? {
      RestoreKeepsKeys(w, step.capacity, step.freshId, key);
    } else if !step.Crash? {
      MemoryKnows(w, key);
      StepKeepsKeys(w.memory.value, step, key);
    }
  }

  lemma StepKeepsRequest(w: World, step: Step, key: Key, request: Request)
    requires Inv(w) && Enabled(w, step) && Knows(w, key) && StandsFor(w, key, request)
    ensures StandsFor(Apply(w, step), key, request)
  {
    if step.Restore? {
      RestoreKeepsKeys(w, step.capacity, step.freshId, key);
    } else if !step.Crash? {
      MemoryKnows(w, key);
      StepKeepsKeys(w.memory.value, step, key);
    }
  }

  // ---------------------------------------------------------------- from the slot to the begin

  /** Nothing happens to the slot between its reservation and the begin of the Turn. */
  ghost predicate SlotKept(steps: seq<Step>, i: nat, b: nat) {
    b <= |steps| && forall k :: i < k < b ==> !steps[k].Crash? && !steps[k].DropPreflight? && !steps[k].Begin?
  }

  lemma StepKeepsSlot(w: World, step: Step, p: Preflight)
    requires Enabled(w, step) && w.memory.Some? && w.memory.value.preflight == Some(p)
    requires !step.Crash? && !step.DropPreflight? && !step.Begin?
    ensures Apply(w, step).memory.Some? && Apply(w, step).memory.value.preflight == Some(p)
  {
  }

  lemma {:induction false} SlotStays(worlds: seq<World>, steps: seq<Step>, i: nat, b: nat, p: Preflight)
    requires IsRun(worlds, steps) && i < b && SlotKept(steps, i, b) && steps[i] == StartPreflight(p)
    ensures worlds[b].memory.Some? && worlds[b].memory.value.preflight == Some(p)
  {
    if b > i + 1 {
      SlotStays(worlds, steps, i, b - 1, p);
      StepKeepsSlot(worlds[b - 1], steps[b - 1], p);
    } else {
      assert worlds[b] == Apply(worlds[i], steps[i]);
    }
  }

  /** The Turn of this request is active, its submission pending under the key. */
  ghost predicate IsRunning(w: World, id: TurnId, key: Key, request: Request) {
    && w.memory.Some? && w.memory.value.state.active.Some?
    && w.memory.value.state.active.value.turnId == id && w.memory.value.state.active.value.key == Some(key)
    && key in w.memory.value.state.idempotency && w.memory.value.state.idempotency[key] == Submission(request, None, false)
  }

  lemma BeginRuns(w: World, p: Preflight, key: Key)
    requires Inv(w) && Enabled(w, Step.Begin) && w.memory.value.preflight == Some(p) && p.key == Some(key)
    ensures var after := Apply(w, Step.Begin);
      && IsRunning(after, p.turnId, key, p.request) && StandsFor(after, key, p.request)
      && after.memory.value.state.messages == w.memory.value.state.messages + [User(p.request.userText)]
  {
  }

  /** From the reservation of the slot to a Turn that runs under its own request: the submission stored is the one
      that was made, and the user text of the transcript is its text. */
  lemma SubmittedIsBegun(worlds: seq<World>, steps: seq<Step>, i: nat, b: nat, id: TurnId, request: Request, key: Key)
    requires IsRun(worlds, steps) && i < b < |steps| && SlotKept(steps, i, b) && steps[b].Begin?
    requires steps[i] == StartPreflight(Preflight(id, request, Some(key)))
    ensures IsRunning(worlds[b + 1], id, key, request) && StandsFor(worlds[b + 1], key, request)
    ensures worlds[b].memory.Some? && worlds[b + 1].memory.value.state.messages
         == worlds[b].memory.value.state.messages + [User(request.userText)]
  {
    SlotStays(worlds, steps, i, b, Preflight(id, request, Some(key)));
    RunKeepsInv(worlds, steps, b);
    BeginRuns(worlds[b], Preflight(id, request, Some(key)), key);
  }

  // ---------------------------------------------------------------- while the Turn runs

  /** Neither the end of the Turn nor a crash comes between. */
  ghost predicate TurnKept(steps: seq<Step>, b: nat, c: nat) {
    c <= |steps| && forall k :: b < k < c ==> !steps[k].Crash? && !steps[k].Finish?
  }

  lemma StepKeepsRunning(w: World, step: Step, id: TurnId, key: Key, request: Request)
    requires Inv(w) && Enabled(w, step) && IsRunning(w, id, key, request) && !step.Crash? && !step.Finish?
    ensures IsRunning(Apply(w, step), id, key, request)
  {
  }

  lemma {:induction false} TurnRunsOn(worlds: seq<World>, steps: seq<Step>, b: nat, c: nat, id: TurnId, key: Key, request: Request)
    requires IsRun(worlds, steps) && b < c && TurnKept(steps, b, c) && IsRunning(worlds[b + 1], id, key, request)
    ensures IsRunning(worlds[c], id, key, request)
  {
    if c > b + 1 {
      TurnRunsOn(worlds, steps, b, c - 1, id, key, request);
      RunKeepsInv(worlds, steps, c - 1);
      StepKeepsRunning(worlds[c - 1], steps[c - 1], id, key, request);
    }
  }

  /** While the Turn of a submission runs, the same submission joins it and any other under the key conflicts. */
  lemma RunningKeyIsJoined(worlds: seq<World>, steps: seq<Step>, i: nat, b: nat, c: nat, id: TurnId, request: Request,
      key: Key, again: Request)
    requires IsRun(worlds, steps) && i < b < |steps| && SlotKept(steps, i, b) && steps[b].Begin?
    requires steps[i] == StartPreflight(Preflight(id, request, Some(key)))
    requires b < c && TurnKept(steps, b, c)
    ensures worlds[c].memory.Some?
    ensures Submit(worlds[c].memory.value, again, Some(key)) == if again == request then Join else Conflict
  {
    SubmittedIsBegun(worlds, steps, i, b, id, request, key);
    TurnRunsOn(worlds, steps, b, c, id, key, request);
    RunKeepsInv(worlds, steps, c);
  }

  // ---------------------------------------------------------------- once the Turn has ended

  lemma FinishStores(w: World, status: TurnStatus, text: string, id: TurnId, key: Key, request: Request)
    requires Inv(w) && Enabled(w, Finish(status, text)) && IsRunning(w, id, key, request)
    ensures var after := Apply(w, Finish(status, text)).stored.idempotency;
      key in after && after[key] == Submission(request, Some(Summary(id, status, text, false)), false)
  {
    EndedFields(w.memory.value, Summary(id, status, text, false));
  }

  /** Once the Turn of a submission has finished, the same submission replays its very summary, in this process and
      in every later one, and any other under the key conflicts. */
  lemma FinishedKeyReplays(worlds: seq<World>, steps: seq<Step>, i: nat, b: nat, j: nat, c: nat, id: TurnId, request: Request,
      key: Key, again: Request, status: TurnStatus, text: string)
    requires IsRun(worlds, steps) && i < b < j < |steps| && SlotKept(steps, i, b) && steps[b].Begin?
    requires steps[i] == StartPreflight(Preflight(id, request, Some(key)))
    requires TurnKept(steps, b, j) && steps[j] == Finish(status, text)
    requires j < c < |worlds| && worlds[c].memory.Some?
    ensures Submit(worlds[c].memory.value, again, Some(key))
         == if again == request then Replay(Summary(id, status, text, false)) else Conflict
  {
    SubmittedIsBegun(worlds, steps, i, b, id, request, key);
    TurnRunsOn(worlds, steps, b, j, id, key, request);
    RunKeepsInv(worlds, steps, j);
    FinishStores(worlds[j], status, text, id, key, request);
    StoredKeyDecides(worlds, steps, j + 1, c, again, key);
  }

  // ---------------------------------------------------------------- once the process has died

  lemma DeadIsOnlyRestored(w: World, step: Step)
    requires Enabled(w, step) && w.memory.None?
    ensures step.Restore?
  {
  }

  lemma StoredPendingIsActive(w: World, id: TurnId, key: Key, request: Request)
    requires Inv(w) && IsRunning(w, id, key, request) && key in w.stored.idempotency
    ensures w.stored.active.Some? && w.stored.active.value.key == Some(key) && w.stored.idempotency[key].request == request
  {
    assert SubmissionOk(w.stored, key);
  }

  /** A crash while the Turn runs: if the submission was stored, it is refused by every later process, and any other
      under the key conflicts; if it was not, the key is as good as new. */
  lemma CrashedKeyIsRefused(worlds: seq<World>, steps: seq<Step>, i: nat, b: nat, x: nat, c: nat, id: TurnId, request: Request,
      key: Key, again: Request)
    requires IsRun(worlds, steps) && i < b < x < |steps| && SlotKept(steps, i, b) && steps[b].Begin?
    requires steps[i] == StartPreflight(Preflight(id, request, Some(key)))
    requires TurnKept(steps, b, x) && steps[x].Crash? && x < c < |worlds|
    ensures key !in worlds[x].stored.idempotency ==> !Knows(worlds[x + 1], key)
    ensures key in worlds[x].stored.idempotency && worlds[c].memory.Some? ==>
      Submit(worlds[c].memory.value, again, Some(key)) == if again == request then KeyInterrupted else Conflict
  {
    SubmittedIsBegun(worlds, steps, i, b, id, request, key);
    TurnRunsOn(worlds, steps, b, x, id, key, request);
    RunKeepsInv(worlds, steps, x);
    assert worlds[x + 1] == Apply(worlds[x], steps[x]);
    if key in worlds[x].stored.idempotency && worlds[c].memory.Some? {
      StoredPendingIsActive(worlds[x], id, key, request);
      DeadIsOnlyRestored(worlds[x + 1], steps[x + 1]);
      InterruptedKeyNeverRunsAgain(worlds, steps, x + 1, c, again, key);
    }
  }

  // ---------------------------------------------------------------- as long as the key is known

  lemma {:induction false} KnownKeyStandsFor(worlds: seq<World>, steps: seq<Step>, b: nat, c: nat, key: Key, request: Request)
    requires IsRun(worlds, steps) && b < c < |worlds| && StandsFor(worlds[b + 1], key, request)
    requires forall k :: b < k <= c ==> Knows(worlds[k], key)
    ensures StandsFor(worlds[c], key, request)
  {
    if c > b + 1 {
      KnownKeyStandsFor(worlds, steps, b, c - 1, key, request);
      RunKeepsInv(worlds, steps, c - 1);
      StepKeepsRequest(worlds[c - 1], steps[c - 1], key, request);
    }
  }

  /** As long as the key is known, whatever happens: the submission that took it is joined, refused as interrupted or
      replayed, and never conflicts nor runs again; any other under the key conflicts. */
  lemma KnownKeyIsAnswered(worlds: seq<World>, steps: seq<Step>, i: nat, b: nat, c: nat, id: TurnId, request: Request,
      key: Key, again: Request)
    requires IsRun(worlds, steps) && i < b < |steps| && SlotKept(steps, i, b) && steps[b].Begin?
    requires steps[i] == StartPreflight(Preflight(id, request, Some(key)))
    requires b < c < |worlds| && worlds[c].memory.Some? && forall k :: b < k <= c ==> Knows(worlds[k], key)
    ensures var answer := Submit(worlds[c].memory.value, again, Some(key));
      if again == request then answer.Join? || answer.KeyInterrupted? || answer.Replay? else answer == Conflict
  {
    SubmittedIsBegun(worlds, steps, i, b, id, request, key);
    KnownKeyStandsFor(worlds, steps, b, c, key, request);
    RunKeepsInv(worlds, steps, c);
    MemoryKnows(worlds[c], key);
    SubmitIsDecided(worlds, steps, c, again, key);
  }

  /** A key once stored is known for ever. */
  lemma {:induction false} StoredKeyIsKnown(worlds: seq<World>, steps: seq<Step>, s: nat, c: nat, key: Key)
    requires IsRun(worlds, steps) && s <= c < |worlds| && key in worlds[s].stored.idempotency
    ensures key in worlds[c].stored.idempotency && Knows(worlds[c], key)
  {
    if c > s {
      StoredKeyIsKnown(worlds, steps, s, c - 1, key);
      RunKeepsInv(worlds, steps, c - 1);
      OnlyACrashForgets(worlds[c - 1], steps[c - 1], key);
    }
  }
}
