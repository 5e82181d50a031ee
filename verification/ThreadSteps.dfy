/** What the single steps of a Thread do, to its fields, to the store and to its readers
    (agent/runtime/thread_runtime.py, agent/runtime/events.py). */
module ThreadSteps {
  import opened Common
  import opened Transcript
  import opened ThreadState
  import opened ThreadRuns
  import opened ThreadHistory

  /** A Thread begins idle, with its system prompt and nothing else, and it is stored so. */
  lemma CreatedIs(systemPrompt: string)
    ensures var w := Created(systemPrompt);
      && w.stored == State(Idle, [System(systemPrompt)], 0, None, [], [], 0, None, map[], 0)
      && w.memory == Some(Record(w.stored, 0, None, false, {}, {})) && w.seen == []
  {
  }

  /** The Turn has its summary, and with it its terminal event. */
  ghost predicate HasEnded(record: Record, turn: Option<TurnId>) {
    turn.Some? && exists i :: 0 <= i < |record.state.turns| && record.state.turns[i].turnId == turn.value
  }

  lemma GatedIff(record: Record, turn: Option<TurnId>)
    ensures Gated(record, turn) <==> HasEnded(record, turn)
  {
    if i :| 0 <= i < |record.state.turns| && turn == Some(record.state.turns[i].turnId) {
      assert TurnIds(record.state.turns)[i] == turn.value;
    }
  }

  /** An event of a Turn that has not ended, or of the Thread, is shown under the next number; it is stored with the
      whole state unless it is transient. */
  lemma EmitShowsTheEvent(w: World, turn: Option<TurnId>, kind: Kind)
    requires Enabled(w, Emit(turn, kind))
    ensures var record, u := w.memory.value, Apply(w, Emit(turn, kind));
      var event := Event(record.threadSequence + 1, turn, kind);
      var stored := record.state.(events := record.state.events + [event]);
      u == if HasEnded(record, turn) then w
           else World(if kind.Transient? then w.stored else stored,
                      Some(record.(threadSequence := record.threadSequence + 1,
                                   state := if kind.Transient? then record.state else stored)),
                      w.seen + [event])
  {
    GatedIff(w.memory.value, turn);
    assert w.seen + [] == w.seen;
  }

  /** Numbers are reserved by sixty-four, in the store first. */
  lemma ReserveReserves(w: World)
    requires Enabled(w, Reserve)
    ensures var record := w.memory.value;
      var reserved := record.state.(eventSequence := record.state.eventSequence + 64);
      Apply(w, Reserve) == World(reserved, Some(record.(state := reserved)), w.seen)
  {
    assert w.seen + [] == w.seen;
  }

  /** A Turn begins: its user text is said, its marker and its submission are set, and its slot is free. */
  lemma BeginIs(w: World, p: Preflight)
    requires Enabled(w, Step.Begin) && w.memory.value.preflight == Some(p)
    ensures var record, u := w.memory.value, Apply(w, Step.Begin);
      && u.stored == w.stored && u.seen == w.seen && u.memory.Some?
      && u.memory.value.preflight.None? && u.memory.value.closing == record.closing
      && u.memory.value.state == record.state.(
           status := Running, active := Some(Active(p.turnId, p.key, "")),
           messages := record.state.messages + [User(p.request.userText)],
           idempotency := u.memory.value.state.idempotency)
      && (p.key.None? ==> u.memory.value.state.idempotency == record.state.idempotency)
  {
    assert w.seen + [] == w.seen;
  }

  /** A Turn ends: one summary of its own, with the status and the text it ends with, one terminal event that carries
      it, and a Thread that is idle, or closed if a close was asked for. */
  lemma FinishIs(w: World, status: TurnStatus, text: string)
    requires Inv(w) && Enabled(w, Finish(status, text))
    ensures var record, u := w.memory.value, Apply(w, Finish(status, text));
      var summary := Summary(record.state.active.value.turnId, status, text, false);
      var event := Event(record.threadSequence + 1, Some(summary.turnId), Terminal(summary));
      && u.memory.Some? && u.stored == u.memory.value.state && u.seen == w.seen + [event]
      && u.stored.turns == record.state.turns + [summary] && u.stored.events == record.state.events + [event]
      && u.stored.messages == record.state.messages && u.stored.active.None?
      && u.stored.status == if record.closing then ThreadStatus.Closed else Idle
  {
    EndedFields(w.memory.value, Summary(w.memory.value.state.active.value.turnId, status, text, false));
  }

  /** The state a Turn ends with, with the Turn's marker put back whatever the status says, is known as an outcome
      stored under a stale marker. */
  lemma StaleMarkerIsKnown(record: Record, summary: Summary, status: ThreadStatus)
    requires RecordSound(record) && record.state.active.Some? && summary.turnId == record.state.active.value.turnId
    requires Transcript.Closed(record.state.messages)
    ensures CoherentlyTerminal(Ended(record, summary).state.(active := record.state.active, status := status))
  {
    var stale := Ended(record, summary).state.(active := record.state.active, status := status);
    EndedFields(record, summary);
    assert stale.turns[|record.state.turns|] == summary;
    assert AnnouncesLatest(stale, stale.events[|record.state.events|]);
  }

  /** No state is taken for that without the summary of the marked Turn as the latest, its terminal event, and the
      outcome of its submission if it has a key. */
  lemma StaleMarkerNeedsEvidence(stored: State)
    requires CoherentlyTerminal(stored)
    ensures stored.active.Some? && stored.latest.Some? && stored.latest.value.turnId == stored.active.value.turnId
    ensures HasSummary(stored.turns, stored.active.value.turnId, stored.latest.value.status)
    ensures HasTerminal(stored.events, stored.active.value.turnId, stored.latest.value.status)
    ensures stored.active.value.key.Some? ==>
      var key := stored.active.value.key.value;
      key in stored.idempotency && stored.idempotency[key].summary.Some?
      && stored.idempotency[key].summary.value.turnId == stored.active.value.turnId
  {
    var i :| 0 <= i < |stored.events| && AnnouncesLatest(stored, stored.events[i]);
    assert stored.events[i].turn == Some(stored.active.value.turnId);
  }

  ghost predicate HasSummary(turns: seq<Summary>, id: TurnId, status: TurnStatus) {
    exists i :: 0 <= i < |turns| && turns[i].turnId == id && turns[i].status == status
  }

  ghost predicate HasTerminal(events: seq<Event>, id: TurnId, status: TurnStatus) {
    exists i :: 0 <= i < |events| && events[i].turn == Some(id) && events[i].kind.Terminal? && events[i].kind.summary.status == status
  }

  /** The Thread waits for an approval, or runs again. */
  lemma WaitingIs(w: World, waiting: bool)
    requires Enabled(w, SetWaiting(waiting))
    ensures var record := w.memory.value;
      Apply(w, SetWaiting(waiting)) == w.(memory := Some(record.(state :=
        record.state.(status := if waiting then WaitingApproval else Running))))
  {
    assert w.seen + [] == w.seen;
  }

  /** A settings change raises the version by one and does nothing else. */
  lemma VersionRises(w: World)
    requires Enabled(w, UpdateSettings)
    ensures var record := w.memory.value;
      Apply(w, UpdateSettings) == w.(memory := Some(record.(state :=
        record.state.(settingsVersion := record.state.settingsVersion + 1))))
  {
    assert w.seen + [] == w.seen;
  }

  /** The last text of the model, once stored, is what the Turn is remembered by when the process dies. */
  lemma LastTextSurvives(w: World, text: string, capacity: nat, freshId: TurnId)
    requires Inv(w) && Enabled(w, SetLastText(text))
    requires Fresh(Apply(Apply(w, SetLastText(text)), Persist).stored, freshId)
    ensures var u := Apply(Apply(Apply(Apply(w, SetLastText(text)), Persist), Crash), Restore(capacity, freshId));
      && u.stored.turns == w.memory.value.state.turns + [Summary(w.memory.value.state.active.value.turnId, TurnFailed, text, true)]
      && u.stored.active.None? && u.stored.status.Idle?
  {
    SaidAndStored(w, text);
    CrashedIsRemembered(Apply(Apply(w, SetLastText(text)), Persist), capacity, freshId);
  }

  lemma SaidAndStored(w: World, text: string)
    requires Inv(w) && Enabled(w, SetLastText(text))
    ensures var kept := Apply(Apply(w, SetLastText(text)), Persist);
      && Inv(kept) && kept.memory.Some? && kept.stored.turns == w.memory.value.state.turns
      && kept.stored.active == Some(w.memory.value.state.active.value.(lastText := text))
  {
    EveryStepKeepsInv(w, SetLastText(text));
    EveryStepKeepsInv(Apply(w, SetLastText(text)), Persist);
    PersistStores(Apply(w, SetLastText(text)));
  }

  lemma CrashedIsRemembered(w: World, capacity: nat, freshId: TurnId)
    requires Inv(w) && w.memory.Some? && w.stored.active.Some? && Fresh(w.stored, freshId)
    ensures var u := Apply(Apply(w, Crash), Restore(capacity, freshId));
      var active := w.stored.active.value;
      && u.stored.turns == w.stored.turns + [Summary(active.turnId, TurnFailed, active.lastText, true)]
      && u.stored.active.None? && u.stored.status.Idle?
  {
    RestoredInterrupted(w.stored, capacity, freshId);
    AfterRestore(Apply(w, Crash), capacity, freshId);
  }

  lemma PersistStores(w: World)
    requires w.memory.Some?
    ensures Apply(w, Persist) == w.(stored := w.memory.value.state)
  {
    assert w.seen + [] == w.seen;
  }

  /** A submission under no key, or under one that is not known, is accepted exactly when no Turn runs, none holds the
      slot, and the Thread is open; it is told the Thread is closed exactly when it is, or is about to be. */
  lemma NewSubmissionIsDecided(worlds: seq<World>, steps: seq<Step>, i: nat, request: Request, key: Option<Key>)
    requires IsRun(worlds, steps) && i < |worlds| && worlds[i].memory.Some?
    requires key.None? || key.value !in worlds[i].memory.value.state.idempotency
    ensures var record := worlds[i].memory.value;
      var open := !record.state.status.Closed? && !record.closing;
      Submit(record, request, key) ==
        if record.state.active.None? && record.preflight.None? && !record.state.status.Closed? then Accepted
        else if open then ThreadBusy else ThreadClosed
  {
    RunKeepsInv(worlds, steps, i);
  }
}
