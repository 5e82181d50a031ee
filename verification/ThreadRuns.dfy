/** Runs of one Thread with crashes at any point: what every step keeps, and what holds over whole runs. */
module ThreadRuns {
  import opened Common
  import opened Transcript
  import opened ThreadState

  /** The store, the memory of the process if one lives, and every event any reader has seen so far. */
  datatype World = World(stored: State, memory: Option<Record>, seen: seq<Event>)

  /** One step makes at most one store write; a crash can come between any two. */
  datatype Step =
    | Reserve
    | Emit(turn: Option<TurnId>, kind: Kind)
    | StartPreflight(preflight: Preflight)
    | DropPreflight
    | Begin
    | Say(message: Message)
    | SetLastText(text: string)
    | SetWaiting(waiting: bool)
    | Finish(status: TurnStatus, finalText: string)
    | ResolveFuture(key: Key)
    | Persist
    | CloseThread
    | UpdateSettings
    | Crash
    | Restore(capacity: nat, freshId: TurnId)

  ghost predicate Enabled(w: World, step: Step) {
    match step
    case Restore(capacity, freshId) => w.memory.None? && Fresh(w.stored, freshId)
    case Crash => w.memory.Some?
    case _ => w.memory.Some? && EnabledIn(w.memory.value, step)
  }

  /** An id that names no Turn of the Thread. */
  ghost predicate Fresh(state: State, id: TurnId) {
    && id !in TurnIds(state.turns)
    && (state.active.Some? ==> state.active.value.turnId != id)
    && (forall i :: 0 <= i < |state.events| ==> state.events[i].turn != Some(id))
  }

  ghost predicate EnabledIn(record: Record, step: Step) {
    var state := record.state;
    match step
    case Reserve => record.threadSequence >= state.eventSequence
    case Emit(turn, kind) =>
      record.threadSequence < state.eventSequence && !kind.Terminal? && (turn.Some? ==> turn.value in record.issued)
    case StartPreflight(p) =>
      && Submit(record, p.request, p.key) == Accepted
      && p.turnId !in record.issued && Fresh(state, p.turnId) && p.request.Valid()
    case DropPreflight => record.preflight.Some?
    case Begin => record.preflight.Some? && !state.status.Closed? && !record.closing
    // The transcript only grows the way a Turn grows it, with call ids never used before.
    case Say(message) =>
      && state.active.Some? && Legal(state.messages + [message]) && Distinct(CallIds(state.messages + [message]))
    case SetLastText(text) => state.active.Some?
    case SetWaiting(waiting) => state.active.Some?
    // A Turn leaves its loop with a closed transcript.
    case Finish(status, text) => state.active.Some? && Transcript.Closed(state.messages)
    case ResolveFuture(key) => key in state.idempotency && state.idempotency[key].summary.Some?
    case UpdateSettings => !state.status.Closed? && !record.closing
    case _ => true
  }

  function ApplyIn(record: Record, step: Step): Record {
    var state := record.state;
    match step
    case Reserve => WithReservation(record)
    case Emit(turn, kind) => if Gated(record, turn) then record else WithEvent(record, turn, kind)
    case StartPreflight(p) => record.(preflight := Some(p), issued := record.issued + {p.turnId})
    case DropPreflight => record.(preflight := None)
    case Begin => if record.preflight.Some? then Begun(record) else record
    case Say(message) => record.(state := state.(messages := state.messages + [message]))
    case SetLastText(text) =>
      if state.active.Some? then record.(state := state.(active := Some(state.active.value.(lastText := text)))) else record
    case SetWaiting(waiting) => record.(state := state.(status := if waiting then WaitingApproval else Running))
    case Finish(status, text) =>
      if state.active.Some? then Ended(record, Summary(state.active.value.turnId, status, text, false)) else record
    case ResolveFuture(key) => record.(futures := record.futures - {key})
    case CloseThread =>
      if state.status.Closed? || record.closing then record
      else if state.active.None? then record.(closing := true, state := state.(status := ThreadStatus.Closed))
      else record.(closing := true)
    case UpdateSettings => record.(state := state.(settingsVersion := state.settingsVersion + 1))
    case _ => record
  }

  /** Whether the step writes the state of the record to the store. */
  predicate Writes(record: Record, step: Step) {
    match step
    case Reserve => true
    case Emit(turn, kind) => !kind.Transient? && !Gated(record, turn)
    case Finish(_, _) => true
    case Persist => true
    case CloseThread => !record.state.status.Closed? && !record.closing && record.state.active.None?
    case _ => false
  }

  function Shown(before: Record, after: Record, turn: Option<TurnId>, kind: Kind): seq<Event> {
    if after.threadSequence > before.threadSequence then [Event(after.threadSequence, turn, kind)] else []
  }

  function Visible(before: Record, after: Record, step: Step): seq<Event> {
    match step
    case Emit(turn, kind) => Shown(before, after, turn, kind)
    case Finish(status, text) =>
      if before.state.active.None? then [] else
      var id := before.state.active.value.turnId;
      Shown(before, after, Some(id), Terminal(Summary(id, status, text, false)))
    case _ => []
  }

  function RestoredEvents(loaded: Record, restored: Record): seq<Event> {
    if restored.threadSequence > loaded.threadSequence && restored.state.latest.Some?
    then [Event(restored.threadSequence, Some(restored.state.latest.value.turnId), Terminal(restored.state.latest.value))]
    else []
  }

  /** The ids a restored process knows of. */
  function IssuedBefore(stored: State, freshId: TurnId): set<TurnId> {
    (set i | 0 <= i < |stored.turns| :: stored.turns[i].turnId)
    + if stored.active.Some? then {stored.active.value.turnId} else {freshId}
  }

  ghost function Apply(w: World, step: Step): World {
    match step
    case Crash => w.(memory := None)
    case Restore(capacity, freshId) =>
      var restored := Restored(w.stored, capacity, IssuedBefore(w.stored, freshId), freshId);
      World(if Interrupted(w.stored) then restored.state else w.stored, Some(restored),
            w.seen + RestoredEvents(Loaded(w.stored, capacity, IssuedBefore(w.stored, freshId)), restored))
    case _ =>
      if w.memory.None? then w else
      var after := ApplyIn(w.memory.value, step);
      World(if Writes(w.memory.value, step) then after.state else w.stored, Some(after),
            w.seen + Visible(w.memory.value, after, step))
  }

  // ---------------------------------------------------------------- the invariant

  ghost predicate Inv(w: World) {
    && StateOk(w.stored)
    && Ascending(w.seen, w.stored.eventSequence)
    && (w.memory.Some? ==>
          && RecordOk(w.memory.value) && Synced(w.memory.value.state, w.stored)
          && Ascending(w.seen, w.memory.value.threadSequence))
  }

  lemma WritingSyncs(state: State)
    ensures Synced(state, state)
  {
  }

  lemma SeenGrows(seen: seq<Event>, event: Event, top: nat)
    requires Ascending(seen, top) && event.sequence == top + 1
    ensures Ascending(seen + [event], top + 1)
  {
  }

  // ---------------------------------------------------------------- steps inside a process

  lemma EmitKeeps(record: Record, turn: Option<TurnId>, kind: Kind)
    requires RecordOk(record) && record.threadSequence < record.state.eventSequence
    requires !kind.Terminal? && !Gated(record, turn)
    ensures RecordOk(WithEvent(record, turn, kind))
    ensures kind.Transient? ==> WithEvent(record, turn, kind).state == record.state
  {
    if kind.Ordinary? {
      OrdinaryEmitKeeps(record, turn);
    } else {
      TransientKeeps(record);
    }
  }

  lemma OrdinaryEmitKeeps(record: Record, turn: Option<TurnId>)
    requires RecordOk(record) && record.threadSequence < record.state.eventSequence && !Gated(record, turn)
    ensures RecordOk(WithEvent(record, turn, Ordinary))
  {
    var event := Event(record.threadSequence + 1, turn, Ordinary);
    OrdinaryIsOk(record, event);
    OrdinaryKeeps(record, event);
    OrdinaryIs(record, turn, event);
  }

  lemma OrdinaryIs(record: Record, turn: Option<TurnId>, event: Event)
    requires event == Event(record.threadSequence + 1, turn, Ordinary)
    ensures WithEvent(record, turn, Ordinary)
         == record.(threadSequence := event.sequence, state := record.state.(events := record.state.events + [event]))
  {
  }

  lemma OrdinaryIsOk(record: Record, event: Event)
    requires RecordOk(record) && event.kind.Ordinary? && !Gated(record, event.turn)
    requires event.sequence == record.threadSequence + 1 <= record.state.eventSequence
    ensures EventsOk(record.state.(events := record.state.events + [event]))
  {
    BelowSequence(record);
    OrdinaryEventsOk(record.state, event, record.threadSequence);
  }

  lemma BelowSequence(record: Record)
    requires RecordOk(record)
    ensures Ascending(record.state.events, record.threadSequence) && EventsOk(record.state)
  {
  }

  lemma TransientKeeps(record: Record)
    requires RecordOk(record) && record.threadSequence < record.state.eventSequence
    ensures RecordOk(record.(threadSequence := record.threadSequence + 1))
  {
  }

  lemma OrdinaryKeeps(record: Record, event: Event)
    requires RecordOk(record) && event.sequence == record.threadSequence + 1 <= record.state.eventSequence
    requires EventsOk(record.state.(events := record.state.events + [event]))
    ensures RecordOk(record.(threadSequence := event.sequence, state := record.state.(events := record.state.events + [event])))
  {
    var after := record.state.(events := record.state.events + [event]);
    assert forall key :: key in after.idempotency && SubmissionOk(record.state, key) ==> SubmissionOk(after, key);
  }

  lemma OrdinaryEventsOk(state: State, event: Event, below: nat)
    requires EventsOk(state) && event.kind.Ordinary?
    requires event.turn.Some? ==> event.turn.value !in TurnIds(state.turns)
    requires Ascending(state.events, below) && below < event.sequence <= state.eventSequence
    ensures EventsOk(state.(events := state.events + [event]))
  {
    AnnouncedAfter(state.events, event);
    GatedMeansTerminal(state);
  }

  /** Only finished Turns have a terminal event. */
  lemma GatedMeansTerminal(state: State)
    requires EventsOk(state)
    ensures forall i :: 0 <= i < |state.events| && state.events[i].kind.Terminal? ==>
      state.events[i].turn.Some? && state.events[i].turn.value in TurnIds(state.turns)
  {
    forall i | 0 <= i < |state.events| && state.events[i].kind.Terminal?
      ensures state.events[i].turn.Some? && state.events[i].turn.value in TurnIds(state.turns)
    {
      var k := AnnouncedHas(state.events, i);
      assert TurnIds(state.turns)[k] == state.events[i].turn.value;
    }
  }

  lemma {:induction false} AnnouncedHas(events: seq<Event>, i: nat) returns (k: nat)
    requires i < |events| && events[i].kind.Terminal?
    ensures k < |Announced(events)| && Announced(events)[k] == events[i].kind.summary
  {
    if i == |events| - 1 {
      k := |Announced(events)| - 1;
    } else {
      k := AnnouncedHas(events[..|events| - 1], i);
    }
  }

  lemma BegunKeeps(record: Record)
    requires RecordOk(record) && record.preflight.Some? && record.state.status.Idle?
    ensures RecordOk(Begun(record)) && Synced(Begun(record).state, record.state)
  {
    WaitingAfter(record.state.messages, User(record.preflight.value.request.userText));
  }

  lemma {:induction false} IdsAfter(turns: seq<Summary>, summary: Summary)
    ensures TurnIds(turns + [summary]) == TurnIds(turns) + [summary.turnId]
  {
  }

  lemma TerminalAppended(events: seq<Event>, event: Event, below: nat, top: nat)
    requires TerminalIsLast(events) && Ascending(events, below) && below < event.sequence <= top
    requires event.kind.Terminal? && event.turn == Some(event.kind.summary.turnId)
    requires forall i :: 0 <= i < |events| && events[i].kind.Terminal? ==> events[i].turn != event.turn
    ensures TerminalIsLast(events + [event]) && Ascending(events + [event], top)
  {
  }

  lemma EndedEventsOk(state: State, after: State, summary: Summary, event: Event, below: nat)
    requires EventsOk(state) && summary.turnId !in TurnIds(state.turns)
    requires Ascending(state.events, below) && below < event.sequence <= after.eventSequence
    requires event.turn == Some(summary.turnId) && event.kind == Terminal(summary)
    requires after.events == state.events + [event] && after.turns == state.turns + [summary]
    ensures EventsOk(after)
  {
    AnnouncedAfter(state.events, event);
    GatedMeansTerminal(state);
    TerminalAppended(state.events, event, below, after.eventSequence);
  }

  lemma EndedIdempotencyOk(state: State, after: State, summary: Summary)
    requires IdempotencyOk(state) && state.active.Some? && after.active.None?
    requires after.turns == state.turns + [summary]
    requires after.idempotency == WithReplay(state.idempotency, state.active.value.key, summary)
    ensures IdempotencyOk(after)
  {
    forall key | key in after.idempotency ensures SubmissionOk(after, key) {
      assert SubmissionOk(state, key);
      assert after.turns[|state.turns|] == summary;
    }
  }

  lemma EndedTurnsOk(state: State, after: State, summary: Summary)
    requires TurnsOk(state) && state.active.Some? && summary.turnId == state.active.value.turnId
    requires after.turns == state.turns + [summary] && after.completedTurns == state.completedTurns + 1
    requires after.latest == Some(summary) && after.active.None? && (after.status.Idle? || after.status.Closed?)
    ensures TurnsOk(after)
  {
    IdsAfter(state.turns, summary);
  }

  lemma EndedFields(record: Record, summary: Summary)
    requires record.state.active.Some? && record.threadSequence <= record.state.eventSequence
    ensures var after := Ended(record, summary);
      && after == Record(after.state, record.threadSequence + 1, record.preflight, record.closing, record.issued, record.futures)
      && after.threadSequence <= after.state.eventSequence && after.state.messages == record.state.messages
      && after.state.events == record.state.events + [Event(record.threadSequence + 1, Some(summary.turnId), Terminal(summary))]
      && after.state.idempotency == WithReplay(record.state.idempotency, record.state.active.value.key, summary)
    ensures var state := Ended(record, summary).state;
      && state.turns == record.state.turns + [summary] && state.completedTurns == record.state.completedTurns + 1
      && state.latest == Some(summary) && state.active.None? && (state.status.Idle? || state.status.Closed?)
  {
  }

  lemma EndedStateOk(state: State, after: State, summary: Summary, event: Event, below: nat)
    requires StateOk(state) && state.active.Some? && summary.turnId == state.active.value.turnId
    requires Transcript.Closed(state.messages) && after.messages == state.messages
    requires after.turns == state.turns + [summary] && after.completedTurns == state.completedTurns + 1
    requires after.latest == Some(summary) && after.active.None? && (after.status.Idle? || after.status.Closed?)
    requires after.idempotency == WithReplay(state.idempotency, state.active.value.key, summary)
    requires Ascending(state.events, below) && below < event.sequence <= after.eventSequence
    requires event.turn == Some(summary.turnId) && event.kind == Terminal(summary) && after.events == state.events + [event]
    ensures StateOk(after)
  {
    EndedTurnsOk(state, after, summary);
    EndedEventsOk(state, after, summary, event, below);
    EndedIdempotencyOk(state, after, summary);
  }

  lemma EndedRecordOk(record: Record, after: Record, summary: Summary, event: Event)
    requires RecordSound(record) && StateOk(after.state) && record.state.active.Some?
    requires summary.turnId == record.state.active.value.turnId && event.sequence == record.threadSequence + 1
    requires after == Record(after.state, event.sequence, record.preflight, record.closing, record.issued, record.futures)
    requires after.threadSequence <= after.state.eventSequence
    requires after.state.turns == record.state.turns + [summary] && after.state.active.None?
    requires after.state.events == record.state.events + [event]
    ensures RecordOk(after)
  {
    assert forall key :: key in after.state.idempotency ==> SubmissionOk(after.state, key);
  }

  /** The end of a Turn keeps every invariant of the record; there is one more summary and one more
      terminal event, and both are about this Turn. */
  lemma EndedKeeps(record: Record, summary: Summary)
    requires RecordSound(record) && record.state.active.Some? && summary.turnId == record.state.active.value.turnId
    requires Transcript.Closed(record.state.messages)
    ensures RecordOk(Ended(record, summary))
    ensures Ended(record, summary).state.turns == record.state.turns + [summary]
    ensures Ended(record, summary).state.active.None?
    ensures Ended(record, summary).threadSequence == record.threadSequence + 1
  {
    var after := Ended(record, summary);
    var event := Event(record.threadSequence + 1, Some(summary.turnId), Terminal(summary));
    EndedFields(record, summary);
    EndedStateOk(record.state, after.state, summary, event, record.threadSequence);
    EndedRecordOk(record, after, summary, event);
  }

  /** Every step of a living process keeps the record sound. */
  lemma StepKeepsRecord(record: Record, step: Step)
    requires RecordOk(record) && EnabledIn(record, step)
    ensures RecordOk(ApplyIn(record, step))
  {
    match step {
      case Emit(turn, kind) => if !Gated(record, turn) { EmitKeeps(record, turn, kind); }
      case Begin => BegunKeeps(record);
      case Finish(status, text) => EndedKeeps(record, Summary(record.state.active.value.turnId, status, text, false));
      case Say(message) => SayKeeps(record, message);
      case StartPreflight(_) => SlotStepKeeps(record, step);
      case DropPreflight => SlotStepKeeps(record, step);
      case ResolveFuture(_) => SlotStepKeeps(record, step);
      case CloseThread => CloseKeeps(record);
      case SetLastText(_) => MarkStepKeeps(record, step);
      case SetWaiting(_) => MarkStepKeeps(record, step);
      case _ => PlainStepKeeps(record, step);
    }
  }

  lemma SayKeeps(record: Record, message: Message)
    requires RecordOk(record) && EnabledIn(record, Say(message))
    ensures RecordOk(ApplyIn(record, Say(message)))
  {
  }

  lemma SlotStepKeeps(record: Record, step: Step)
    requires RecordOk(record) && EnabledIn(record, step)
    requires step.StartPreflight? || step.DropPreflight? || step.ResolveFuture?
    ensures RecordOk(ApplyIn(record, step))
  {
  }

  lemma CloseKeeps(record: Record)
    requires RecordOk(record)
    ensures RecordOk(ApplyIn(record, CloseThread))
  {
  }

  lemma PlainStepKeeps(record: Record, step: Step)
    requires RecordOk(record) && EnabledIn(record, step)
    requires step.Reserve? || step.Persist? || step.UpdateSettings? || step.Crash? || step.Restore?
    ensures RecordOk(ApplyIn(record, step))
  {
  }

  lemma MarkStepKeeps(record: Record, step: Step)
    requires RecordOk(record) && EnabledIn(record, step) && (step.SetLastText? || step.SetWaiting?)
    ensures RecordOk(ApplyIn(record, step))
  {
  }

  lemma BegunSyncs(record: Record, stored: State)
    requires RecordOk(record) && record.preflight.Some? && Synced(record.state, stored)
    ensures Synced(Begun(record).state, stored)
  {
  }

  lemma StepKeepsSync(record: Record, stored: State, step: Step)
    requires RecordOk(record) && EnabledIn(record, step) && Synced(record.state, stored) && !Writes(record, step)
    ensures Synced(ApplyIn(record, step).state, stored)
  {
    if step.Begin? {
      BegunSyncs(record, stored);
    }
  }

  lemma StepShows(record: Record, step: Step)
    requires RecordOk(record) && EnabledIn(record, step)
    ensures var after := ApplyIn(record, step);
      var visible := Visible(record, after, step);
      && |visible| <= 1 && after.threadSequence == record.threadSequence + |visible|
      && (visible != [] ==> visible[0].sequence == after.threadSequence)
  {
    if step.Finish? {
      EndedKeeps(record, Summary(record.state.active.value.turnId, step.status, step.finalText, false));
    }
  }

  /** A world after a step, put together from what the step keeps of each part. */
  lemma InvFromParts(seen: seq<Event>, below: nat, after: Record, stored: State, visible: seq<Event>)
    requires Ascending(seen, below) && RecordOk(after) && StateOk(stored) && Synced(after.state, stored)
    requires |visible| <= 1 && after.threadSequence == below + |visible|
    requires visible != [] ==> visible[0].sequence == after.threadSequence
    ensures Inv(World(stored, Some(after), seen + visible))
  {
    SeenAfter(seen, visible, below);
    SeenBelow(seen + visible, after.threadSequence, stored.eventSequence);
  }

  lemma SeenAfter(seen: seq<Event>, visible: seq<Event>, below: nat)
    requires Ascending(seen, below) && |visible| <= 1 && (visible != [] ==> visible[0].sequence == below + 1)
    ensures Ascending(seen + visible, below + |visible|)
  {
    if visible != [] {
      SeenGrows(seen, visible[0], below);
      assert visible == [visible[0]];
    } else {
      assert seen + visible == seen;
    }
  }

  lemma SeenBelow(seen: seq<Event>, below: nat, top: nat)
    requires Ascending(seen, below) && below <= top
    ensures Ascending(seen, top)
  {
  }

  lemma StepKeepsInv(w: World, step: Step)
    requires Inv(w) && Enabled(w, step) && !step.Restore? && !step.Crash?
    ensures Inv(Apply(w, step))
  {
    var record := w.memory.value;
    var after := ApplyIn(record, step);
    StepKeepsRecord(record, step);
    StepShows(record, step);
    if Writes(record, step) {
      WritingSyncs(after.state);
      InvFromParts(w.seen, record.threadSequence, after, after.state, Visible(record, after, step));
    } else {
      StepKeepsSync(record, w.stored, step);
      InvFromParts(w.seen, record.threadSequence, after, w.stored, Visible(record, after, step));
    }
  }

  // ---------------------------------------------------------------- restoring

  /** What this Runtime stores is never the stale-marker state that the restore code also repairs. */
  lemma NeverCoherentlyTerminal(stored: State)
    requires StateOk(stored)
    ensures !CoherentlyTerminal(stored)
  {
    if stored.active.Some? && stored.latest.Some? {
      assert TurnIds(stored.turns)[|stored.turns| - 1] == stored.latest.value.turnId;
    }
  }

  lemma LoadedSequence(stored: State, capacity: nat, issued: set<TurnId>)
    requires Ascending(stored.events, stored.eventSequence)
    ensures Loaded(stored, capacity, issued) == Record(stored, stored.eventSequence, None, false, issued, {})
  {
    var retained := Retained(stored.events, capacity);
    assert forall i :: 0 <= i < |retained| ==> retained[i] in stored.events;
  }

  /** A stale marker is cleared without a second outcome: no summary and no event is added. */
  lemma StaleMarkerIsOnlyCleared(w: World, capacity: nat, freshId: TurnId)
    requires CoherentlyTerminal(w.stored) && Ascending(w.stored.events, w.stored.eventSequence)
    requires StateOk(w.stored.(active := None, status := if w.stored.status.Closed? then w.stored.status else Idle))
    ensures var after := Apply(w, Restore(capacity, freshId));
      && after.stored == w.stored.(active := None, status := if w.stored.status.Closed? then w.stored.status else Idle)
      && after.seen == w.seen && after.memory.Some? && after.memory.value.state == after.stored
      && !Interrupted(after.stored)
  {
    LoadedSequence(w.stored, capacity, IssuedBefore(w.stored, freshId));
    assert w.seen + [] == w.seen;
  }

  lemma LoadedOk(stored: State, capacity: nat, issued: set<TurnId>)
    requires StateOk(stored)
    requires forall i :: 0 <= i < |stored.turns| ==> stored.turns[i].turnId in issued
    requires stored.active.Some? ==> stored.active.value.turnId in issued
    ensures Loaded(stored, capacity, issued) == Record(stored, stored.eventSequence, None, false, issued, {})
    ensures RecordSound(Loaded(stored, capacity, issued))
  {
    LoadedSequence(stored, capacity, issued);
  }

  lemma ClosedTranscriptOk(record: Record, messages: seq<Message>)
    requires RecordSound(record) && Transcript.Closed(messages) && CallIds(messages) == CallIds(record.state.messages)
    ensures RecordSound(record.(state := record.state.(messages := messages)))
  {
  }

  lemma RecoveredIsEnded(stored: State, loaded: Record, freshId: TurnId, closed: Record, summary: Summary)
    requires loaded.state == stored && stored.active.Some?
    requires closed == loaded.(state := stored.(messages := Transcript.Recovered(stored.messages)))
    requires summary == Summary(stored.active.value.turnId, TurnFailed, stored.active.value.lastText, true)
    ensures ThreadState.Recovered(loaded, freshId) == Ended(closed, summary)
  {
    assert closed.state == stored.(active := stored.active, messages := Transcript.Recovered(stored.messages));
  }

  /** The end of a Turn when every reserved number counts as used. */
  lemma EndedAfterRestart(closed: Record, summary: Summary)
    requires closed.state.active.Some? && closed.threadSequence == closed.state.eventSequence && !closed.closing
    ensures Ended(closed, summary).state == closed.state.(
      status := Idle, active := None, completedTurns := closed.state.completedTurns + 1, latest := Some(summary),
      turns := closed.state.turns + [summary],
      idempotency := WithReplay(closed.state.idempotency, closed.state.active.value.key, summary),
      eventSequence := closed.state.eventSequence + RESERVATION_SIZE,
      events := closed.state.events + [Event(closed.state.eventSequence + 1, Some(summary.turnId), Terminal(summary))])
  {
  }

  /** A running state without a marker is recovered like one whose Turn has the fresh id, no key and no text. */
  lemma MarkerlessIsRecovered(stored: State, capacity: nat, freshId: TurnId)
    requires stored.active.None? && (stored.status.Running? || stored.status.WaitingApproval?)
    requires StateOk(stored.(active := Some(Active(freshId, None, ""))))
    ensures var marked := stored.(active := Some(Active(freshId, None, "")));
      var restored := Restored(stored, capacity, IssuedBefore(stored, freshId), freshId);
      restored == Restored(marked, capacity, IssuedBefore(marked, freshId), freshId) && RecordOk(restored)
  {
    var marked := stored.(active := Some(Active(freshId, None, "")));
    NeverCoherentlyTerminal(marked);
    RestoredInterrupted(marked, capacity, freshId);
  }

  lemma RecoveredKeeps(stored: State, loaded: Record, freshId: TurnId)
    requires RecordSound(loaded) && stored.active.Some? && loaded.state == stored
    requires loaded.threadSequence == stored.eventSequence && !loaded.closing
    ensures var recovered := ThreadState.Recovered(loaded, freshId);
      var summary := Summary(stored.active.value.turnId, TurnFailed, stored.active.value.lastText, true);
      && RecordOk(recovered) && recovered.threadSequence == stored.eventSequence + 1
      && recovered.state == stored.(
           status := Idle, active := None, completedTurns := stored.completedTurns + 1, latest := Some(summary),
           turns := stored.turns + [summary], messages := Transcript.Recovered(stored.messages),
           idempotency := WithReplay(stored.idempotency, stored.active.value.key, summary),
           eventSequence := stored.eventSequence + RESERVATION_SIZE,
           events := stored.events + [Event(stored.eventSequence + 1, Some(summary.turnId), Terminal(summary))])
  {
    RecoveryCloses(stored.messages);
    ClosedTranscriptOk(loaded, Transcript.Recovered(stored.messages));
    var closed := loaded.(state := stored.(messages := Transcript.Recovered(stored.messages)));
    var summary := Summary(stored.active.value.turnId, TurnFailed, stored.active.value.lastText, true);
    EndedKeeps(closed, summary);
    RecoveredIsEnded(stored, loaded, freshId, closed, summary);
    EndedAfterRestart(closed, summary);
  }

  lemma RestoredIsRecovered(stored: State, capacity: nat, issued: set<TurnId>, freshId: TurnId)
    requires stored.active.Some? && !CoherentlyTerminal(stored)
    ensures Restored(stored, capacity, issued, freshId) == ThreadState.Recovered(Loaded(stored, capacity, issued), freshId)
  {
  }

  /** The interrupted Turn becomes one failed Turn, in one write. */
  lemma RestoredInterrupted(stored: State, capacity: nat, freshId: TurnId)
    requires StateOk(stored) && stored.active.Some?
    ensures var restored := Restored(stored, capacity, IssuedBefore(stored, freshId), freshId);
      var summary := Summary(stored.active.value.turnId, TurnFailed, stored.active.value.lastText, true);
      && RecordOk(restored) && restored.threadSequence == stored.eventSequence + 1
      && restored.state == stored.(
           status := Idle, active := None, completedTurns := stored.completedTurns + 1, latest := Some(summary),
           turns := stored.turns + [summary], messages := Transcript.Recovered(stored.messages),
           idempotency := WithReplay(stored.idempotency, stored.active.value.key, summary),
           eventSequence := stored.eventSequence + RESERVATION_SIZE,
           events := stored.events + [Event(stored.eventSequence + 1, Some(summary.turnId), Terminal(summary))])
  {
    var issued := IssuedBefore(stored, freshId);
    NeverCoherentlyTerminal(stored);
    LoadedOk(stored, capacity, issued);
    RecoveredKeeps(stored, Loaded(stored, capacity, issued), freshId);
    RestoredIsRecovered(stored, capacity, issued, freshId);
  }

  /** A Thread without an interrupted Turn comes back as it was stored. */
  lemma RestoredQuiet(stored: State, capacity: nat, freshId: TurnId)
    requires StateOk(stored) && stored.active.None?
    ensures Restored(stored, capacity, IssuedBefore(stored, freshId), freshId)
         == Record(stored, stored.eventSequence, None, false, IssuedBefore(stored, freshId), {})
    ensures RecordOk(Restored(stored, capacity, IssuedBefore(stored, freshId), freshId))
  {
    NeverCoherentlyTerminal(stored);
    LoadedOk(stored, capacity, IssuedBefore(stored, freshId));
    assert forall key :: key in stored.idempotency ==> SubmissionOk(stored, key);
  }

  /** What the world looks like after a restore. */
  lemma AfterRestore(w: World, capacity: nat, freshId: TurnId)
    requires Inv(w) && Enabled(w, Restore(capacity, freshId))
    ensures var after := Apply(w, Restore(capacity, freshId));
      && after.memory.Some? && after.stored == after.memory.value.state && RecordOk(after.memory.value)
      && after.memory.value == Restored(w.stored, capacity, IssuedBefore(w.stored, freshId), freshId)
      && (w.stored.active.None? ==>
            after.stored == w.stored && after.seen == w.seen && after.memory.value.threadSequence == w.stored.eventSequence)
      && (w.stored.active.Some? ==> after.seen == w.seen + [after.stored.events[|w.stored.events|]])
  {
    var issued := IssuedBefore(w.stored, freshId);
    NeverCoherentlyTerminal(w.stored);
    LoadedOk(w.stored, capacity, issued);
    if w.stored.active.Some? {
      RestoredInterrupted(w.stored, capacity, freshId);
    } else {
      RestoredQuiet(w.stored, capacity, freshId);
      assert w.seen + [] == w.seen;
    }
  }

  lemma RestoreKeepsInv(w: World, capacity: nat, freshId: TurnId)
    requires Inv(w) && Enabled(w, Restore(capacity, freshId))
    ensures Inv(Apply(w, Restore(capacity, freshId)))
  {
    AfterRestore(w, capacity, freshId);
    var after := Apply(w, Restore(capacity, freshId));
    WritingSyncs(after.stored);
    if w.stored.active.Some? {
      RestoredInterrupted(w.stored, capacity, freshId);
      SeenGrows(w.seen, after.stored.events[|w.stored.events|], w.stored.eventSequence);
    }
  }

  lemma CrashKeepsInv(w: World)
    requires Inv(w)
    ensures Inv(Apply(w, Crash))
  {
  }

  lemma EveryStepKeepsInv(w: World, step: Step)
    requires Inv(w) && Enabled(w, step)
    ensures Inv(Apply(w, step))
  {
    if step.Restore? {
      RestoreKeepsInv(w, step.capacity, step.freshId);
    } else if !step.Crash? {
      StepKeepsInv(w, step);
    } else {
      CrashKeepsInv(w);
    }
  }
}
