/** The state of one Thread: what memory holds, what the store holds, and what must be true of both
    (agent/runtime/thread_runtime.py, agent/runtime/events.py). */
module ThreadState {
  import opened Common
  import opened Transcript
  import Settings = SettingsOverride

  type TurnId = string
  type Key = string

  const RESERVATION_SIZE := 64

  datatype ThreadStatus = Idle | Running | WaitingApproval | Closed
  datatype TurnStatus = TurnCompleted | TurnFailed | TurnCancelled | TurnLimitReached

  datatype Summary = Summary(turnId: TurnId, status: TurnStatus, finalText: string, restarted: bool)

  /** Transient events are never stored; a terminal event carries the summary of its Turn. */
  datatype Kind = Transient | Ordinary | Terminal(summary: Summary)
  datatype Event = Event(sequence: nat, turn: Option<TurnId>, kind: Kind)

  /** The active marker. */
  datatype Active = Active(turnId: TurnId, key: Option<Key>, lastText: string)

  /** What a caller asked for: the user text and the settings override. */
  datatype Request = Request(userText: string, settings: Option<Settings.Override>)
  {
    /** The override was accepted by its constructor. */
    predicate Valid() { settings.Some? ==> settings.value.Valid() }
  }

  datatype Submission = Submission(request: Request, summary: Option<Summary>, interrupted: bool)

  datatype State = State(
    status: ThreadStatus, messages: seq<Message>, completedTurns: nat, latest: Option<Summary>,
    turns: seq<Summary>, events: seq<Event>, eventSequence: nat, active: Option<Active>,
    idempotency: map<Key, Submission>, settingsVersion: nat)

  /** The submission that holds the Turn slot before the Turn starts. */
  datatype Preflight = Preflight(turnId: TurnId, request: Request, key: Option<Key>)

  /** A Thread in memory: the state it would store now, whose event sequence is the reserved watermark,
      and what is never stored: the ids given out and the futures callers may wait on. */
  datatype Record = Record(
    state: State, threadSequence: nat, preflight: Option<Preflight>, closing: bool, issued: set<TurnId>,
    futures: set<Key>)

  // ---------------------------------------------------------------- what every state satisfies

  function TurnIds(turns: seq<Summary>): (ids: seq<TurnId>)
    ensures |ids| == |turns| && forall i :: 0 <= i < |turns| ==> ids[i] == turns[i].turnId
  {
    seq(|turns|, i requires 0 <= i < |turns| => turns[i].turnId)
  }

  /** The summaries that the terminal events announce, in event order. */
  function Announced(events: seq<Event>): seq<Summary> {
    if events == [] then []
    else
      var last := events[|events| - 1];
      Announced(events[..|events| - 1]) + if last.kind.Terminal? then [last.kind.summary] else []
  }

  lemma AnnouncedAfter(events: seq<Event>, event: Event)
    ensures Announced(events + [event]) == Announced(events) + if event.kind.Terminal? then [event.kind.summary] else []
  {
    assert (events + [event])[..|events|] == events;
  }

  /** Ascending sequence numbers up to `top`. */
  ghost predicate Ascending(events: seq<Event>, top: nat) {
    && (forall i, j :: 0 <= i < j < |events| ==> events[i].sequence < events[j].sequence)
    && (forall i :: 0 <= i < |events| ==> events[i].sequence <= top)
  }

  /** A terminal event is about its own Turn, and the last one of it. */
  ghost predicate TerminalIsLast(events: seq<Event>) {
    && (forall i :: 0 <= i < |events| && events[i].kind.Terminal? ==> events[i].turn == Some(events[i].kind.summary.turnId))
    && (forall i, j :: 0 <= i < j < |events| && events[i].kind.Terminal? ==> events[j].turn != events[i].turn)
  }

  ghost predicate IdempotencyOk(state: State) {
    && (forall key :: key in state.idempotency ==> SubmissionOk(state, key))
    && (state.active.Some? && state.active.value.key.Some? ==>
          state.active.value.key.value in state.idempotency
          && state.idempotency[state.active.value.key.value].summary.None?)
  }

  /** A submission has the summary of a finished Turn, or it is the one of the active Turn. */
  ghost predicate SubmissionOk(state: State, key: Key)
    requires key in state.idempotency
  {
    var submission := state.idempotency[key];
    submission.request.Valid() &&
    match submission.summary
    case Some(summary) => summary in state.turns && submission.interrupted == summary.restarted
    case None => !submission.interrupted && state.active.Some? && state.active.value.key == Some(key)
  }

  ghost predicate TranscriptOk(state: State) {
    && Legal(state.messages) && Distinct(CallIds(state.messages))
    && (state.active.None? ==> Transcript.Closed(state.messages))
  }

  ghost predicate TurnsOk(state: State) {
    && state.completedTurns == |state.turns|
    && Distinct(TurnIds(state.turns))
    && state.latest == (if state.turns == [] then None else Some(state.turns[|state.turns| - 1]))
    && (state.active.Some? ==> state.active.value.turnId !in TurnIds(state.turns))
    && (state.active.Some? <==> state.status.Running? || state.status.WaitingApproval?)
  }

  ghost predicate EventsOk(state: State) {
    && Ascending(state.events, state.eventSequence)
    && TerminalIsLast(state.events)
    && (forall i :: 0 <= i < |state.events| ==> !state.events[i].kind.Transient?)
    && Announced(state.events) == state.turns
  }

  ghost predicate StateOk(state: State) {
    TurnsOk(state) && EventsOk(state) && IdempotencyOk(state) && TranscriptOk(state)
  }

  ghost predicate RecordSound(record: Record) {
    && StateOk(record.state)
    && record.threadSequence <= record.state.eventSequence
    && (forall i :: 0 <= i < |record.state.events| ==> record.state.events[i].sequence <= record.threadSequence)
    && (forall i :: 0 <= i < |record.state.turns| ==> record.state.turns[i].turnId in record.issued)
    && (record.state.active.Some? ==> record.state.active.value.turnId in record.issued)
    && (record.preflight.Some? ==>
          && record.state.active.None? && record.preflight.value.request.Valid()
          && record.preflight.value.turnId in record.issued
          && record.preflight.value.turnId !in TurnIds(record.state.turns)
          && (record.preflight.value.key.Some? ==> record.preflight.value.key.value !in record.state.idempotency))
  }

  /** Every key without a summary has a future that a caller can join. */
  ghost predicate FuturesOk(record: Record) {
    forall key :: key in record.state.idempotency && record.state.idempotency[key].summary.None? ==> key in record.futures
  }

  ghost predicate RecordOk(record: Record) { RecordSound(record) && FuturesOk(record) }

  /** What the store holds is what memory holds, but for a Turn that has begun and the messages and
      marks since the last write. */
  ghost predicate Synced(state: State, stored: State) {
    && stored.turns == state.turns && stored.events == state.events && stored.completedTurns == state.completedTurns
    && stored.latest == state.latest && stored.eventSequence == state.eventSequence
    && stored.messages <= state.messages
    && (stored.active.None? || (state.active.Some? && SameTurn(stored.active.value, state.active.value)))
    && (forall key :: key in stored.idempotency ==>
          key in state.idempotency && stored.idempotency[key] == state.idempotency[key])
    && (forall key :: key in state.idempotency && state.idempotency[key].summary.Some? ==> key in stored.idempotency)
  }

  predicate SameTurn(a: Active, b: Active) { a.turnId == b.turnId && a.key == b.key }

  // ---------------------------------------------------------------- events

  /** One event in the buffer: seen by readers, stored too unless it is transient. */
  function WithEvent(record: Record, turn: Option<TurnId>, kind: Kind): (after: Record)
  {
    var event := Event(record.threadSequence + 1, turn, kind);
    record.(threadSequence := record.threadSequence + 1,
            state := if kind.Transient? then record.state
                     else record.state.(events := record.state.events + [event]))
  }

  function WithReservation(record: Record): Record {
    record.(state := record.state.(eventSequence := record.state.eventSequence + RESERVATION_SIZE))
  }

  /** The emitter of a Turn is gated once the Turn has its terminal event. */
  predicate Gated(record: Record, turn: Option<TurnId>) {
    turn.Some? && turn.value in TurnIds(record.state.turns)
  }

  // ---------------------------------------------------------------- the life of a Turn

  function Begun(record: Record): Record
    requires record.preflight.Some?
  {
    var p := record.preflight.value;
    record.(preflight := None,
            futures := record.futures + if p.key.Some? then {p.key.value} else {},
            state := record.state.(
              status := Running,
              messages := record.state.messages + [User(p.request.userText)],
              active := Some(Active(p.turnId, p.key, "")),
              idempotency := if p.key.None? then record.state.idempotency
                             else record.state.idempotency[p.key.value := Submission(p.request, None, false)]))
  }

  /** The submission of the key gets its replay value. */
  function WithReplay(idempotency: map<Key, Submission>, key: Option<Key>, summary: Summary): map<Key, Submission> {
    if key.Some? && key.value in idempotency
    then idempotency[key.value := idempotency[key.value].(summary := Some(summary), interrupted := summary.restarted)]
    else idempotency
  }

  /** The outcome of the active Turn in the state: summary, idempotent submission, status, no marker. */
  function Settled(state: State, summary: Summary, closing: bool): State
    requires state.active.Some?
  {
    state.(completedTurns := state.completedTurns + 1,
           latest := Some(summary),
           turns := state.turns + [summary],
           idempotency := WithReplay(state.idempotency, state.active.value.key, summary),
           status := if closing then ThreadStatus.Closed else Idle,
           active := None)
  }

  /** A number is reserved without a write of its own when none is left. */
  function ToppedUp(state: State, threadSequence: nat): State {
    if threadSequence >= state.eventSequence then state.(eventSequence := state.eventSequence + RESERVATION_SIZE) else state
  }

  /** The end of a Turn in the record, with its terminal event. */
  function Ended(record: Record, summary: Summary): Record
    requires record.state.active.Some?
  {
    var settled := ToppedUp(Settled(record.state, summary, record.closing), record.threadSequence);
    WithEvent(record.(state := settled), Some(summary.turnId), Terminal(summary))
  }

  // ---------------------------------------------------------------- restoring

  /** A terminal outcome was stored and only the active marker is stale. */
  predicate CoherentlyTerminal(state: State) {
    && state.active.Some? && state.latest.Some?
    && state.latest.value.turnId == state.active.value.turnId
    && state.completedTurns >= 1
    && (exists i :: 0 <= i < |state.turns|
          && state.turns[i].turnId == state.latest.value.turnId && state.turns[i].status == state.latest.value.status)
    && (exists i :: 0 <= i < |state.events| && AnnouncesLatest(state, state.events[i]))
    && (state.active.value.key.Some? ==>
          && state.active.value.key.value in state.idempotency
          && var submission := state.idempotency[state.active.value.key.value];
          submission.summary.Some? && submission.summary.value.turnId == state.latest.value.turnId
          && submission.summary.value.status == state.latest.value.status)
  }

  predicate AnnouncesLatest(state: State, event: Event)
    requires state.latest.Some?
  {
    && event.turn == Some(state.latest.value.turnId) && event.kind.Terminal?
    && event.kind.summary.turnId == state.latest.value.turnId
    && event.kind.summary.status == state.latest.value.status
  }

  function Largest(events: seq<Event>): (largest: nat)
    ensures forall i :: 0 <= i < |events| ==> events[i].sequence <= largest
    ensures largest == 0 || exists i :: 0 <= i < |events| && events[i].sequence == largest
  {
    if events == [] then 0
    else
      var last := events[|events| - 1];
      var before := Largest(events[..|events| - 1]);
      if last.sequence > before then last.sequence else before
  }

  /** What the ring of recent events is filled with. */
  function Retained(events: seq<Event>, capacity: nat): seq<Event> {
    if |events| <= capacity then events else events[|events| - capacity..]
  }

  /** The record read back from the store, before anything is repaired. */
  function Loaded(stored: State, capacity: nat, issued: set<TurnId>): Record {
    var largest := Largest(Retained(stored.events, capacity));
    var sequence := if largest > stored.eventSequence then largest else stored.eventSequence;
    Record(stored.(eventSequence := sequence), sequence, None, false, issued, {})
  }

  const RESTARTED_TEXT := ""

  /** The Turn that died with the process becomes one failed Turn; its open calls are answered. A
      marker-less running state, which this Runtime never stores, gets the fresh id. */
  function Recovered(record: Record, freshId: TurnId): Record {
    var summary := match record.state.active
      case Some(active) => Summary(active.turnId, TurnFailed, active.lastText, true)
      case None => Summary(freshId, TurnFailed, RESTARTED_TEXT, true);
    var marked := if record.state.active.Some? then record.state.active else Some(Active(freshId, None, ""));
    Ended(record.(state := record.state.(active := marked, messages := Transcript.Recovered(record.state.messages))), summary)
  }

  predicate Interrupted(state: State) {
    state.active.Some? || state.status.Running? || state.status.WaitingApproval?
  }

  function Restored(stored: State, capacity: nat, issued: set<TurnId>, freshId: TurnId): Record {
    var record := Loaded(stored, capacity, issued);
    if CoherentlyTerminal(stored) then
      record.(state := record.state.(active := None, status := if stored.status.Closed? then stored.status else Idle))
    else if Interrupted(stored) then Recovered(record, freshId)
    else record
  }

  // ---------------------------------------------------------------- submitting

  datatype Outcome =
    | Conflict | KeyInterrupted | Replay(summary: Summary) | Join | NoFuture
    | ThreadClosed | ThreadBusy | Accepted

  /** What run_turn does before its first wait; NoFuture is the assertion that would fail. */
  function Submit(record: Record, request: Request, key: Option<Key>): Outcome {
    if key.Some? && key.value in record.state.idempotency then
      var existing := record.state.idempotency[key.value];
      if existing.request != request then Conflict
      else if existing.interrupted then KeyInterrupted
      else if existing.summary.Some? then Replay(existing.summary.value)
      else if key.value in record.futures then Join else NoFuture
    else if !record.state.status.Idle? || record.preflight.Some? then
      if record.state.status.Closed? || record.closing then ThreadClosed else ThreadBusy
    else Accepted
  }
}
