/** The store that keeps a Thread in normalized rows, against the store that keeps whole copies
    (agent/runtime/thread_store.py). */
module ThreadStore {
  import opened Common
  import opened Transcript
  import opened ThreadState
  import opened ThreadRuns
  import opened ThreadHistory
  import Settings = SettingsOverride

  type ThreadId = string

  datatype IdempotencyRow = IdempotencyRow(userText: string, settings: Settings.Json, summary: Option<Summary>, interrupted: bool)

  /** The rows of one Thread: its state without events and keys, its events, its keys. An event id names
      one event, so the event rows are a set. */
  datatype Rows = Rows(state: Option<State>, events: set<Event>, idempotency: map<Key, IdempotencyRow>)

  const NO_ROWS := Rows(None, {}, map[])

  function Bare(state: State): State { state.(events := [], idempotency := map[]) }

  function EncodeSubmission(submission: Submission): IdempotencyRow {
    IdempotencyRow(submission.request.userText, Settings.EncodeOptional(submission.request.settings), submission.summary,
                   submission.interrupted)
  }

  function DecodeSubmission(row: IdempotencyRow): Option<Submission> {
    var settings := Settings.DecodeOptional(row.settings);
    if settings.None? then None else Some(Submission(Request(row.userText, settings.value), row.summary, row.interrupted))
  }

  function EncodeKeys(idempotency: map<Key, Submission>): map<Key, IdempotencyRow> {
    map key | key in idempotency :: EncodeSubmission(idempotency[key])
  }

  /** One transaction: the state row replaced, the events added, the keys made those of the state. */
  function Saved(rows: Rows, state: State, newEvents: seq<Event>, replaceEvents: bool): Rows {
    Rows(Some(Bare(state)),
         (if replaceEvents then {} else rows.events) + (set event | event in newEvents),
         EncodeKeys(state.idempotency))
  }

  /** The rows that stand for exactly this state. */
  ghost predicate StandFor(rows: Rows, state: State) {
    && rows.state == Some(Bare(state))
    && rows.events == (set event | event in state.events)
    && rows.idempotency == EncodeKeys(state.idempotency)
  }

  /** A transition that names exactly the events it appends leaves the rows standing for the new state. */
  lemma SavedStandsFor(rows: Rows, previous: State, state: State, newEvents: seq<Event>)
    requires StandFor(rows, previous) && state.events == previous.events + newEvents
    ensures StandFor(Saved(rows, state, newEvents, false), state)
  {
  }

  lemma FirstSaveStandsFor(rows: Rows, state: State)
    ensures StandFor(Saved(rows, state, state.events, true), state)
  {
  }

  // ---------------------------------------------------------------- reading rows in order

  ghost predicate InOrder(events: seq<Event>) {
    forall i, j :: 0 <= i < j < |events| ==> events[i] != events[j] && events[i].sequence <= events[j].sequence
  }

  ghost predicate SameElements(a: seq<Event>, b: seq<Event>) {
    forall event :: event in a <==> event in b
  }

  /** Rows with distinct sequence numbers have only one order. */
  lemma {:induction false} OrderIsUnique(a: seq<Event>, b: seq<Event>, top: nat)
    requires Ascending(a, top) && InOrder(b) && SameElements(a, b)
    ensures a == b
  {
    if a == [] {
      NothingInIsEmpty(b);
    } else {
      assert a[0] in b;
      FirstIsSame(a, b, top);
      RestIsSame(a, b, top);
      OrderIsUnique(a[1..], b[1..], top);
    }
  }

  lemma NothingInIsEmpty(b: seq<Event>)
    requires forall event :: event !in b
    ensures b == []
  {
    if b != [] {
      HeadIsIn(b);
    }
  }

  lemma HeadIsIn(b: seq<Event>)
    requires b != []
    ensures exists event :: event in b
  {
    assert b[0] in b;
  }

  lemma FirstIsSame(a: seq<Event>, b: seq<Event>, top: nat)
    requires Ascending(a, top) && InOrder(b) && SameElements(a, b) && a != [] && b != []
    ensures a[0] == b[0]
  {
    assert a[0] in b && b[0] in a;
    var k :| 0 <= k < |b| && b[k] == a[0];
    var m :| 0 <= m < |a| && a[m] == b[0];
  }

  lemma RestIsSame(a: seq<Event>, b: seq<Event>, top: nat)
    requires Ascending(a, top) && InOrder(b) && SameElements(a, b) && a != [] && b != [] && a[0] == b[0]
    ensures Ascending(a[1..], top) && InOrder(b[1..]) && SameElements(a[1..], b[1..])
  {
    forall event ensures event in a[1..] <==> event in b[1..] {
      assert event in a <==> event == a[0] || event in a[1..];
      assert event in b <==> event == b[0] || event in b[1..];
      assert a[0] !in a[1..] && b[0] !in b[1..];
    }
  }

  lemma {:induction false} LowestExists(rows: set<Event>)
    requires rows != {}
    ensures exists event :: event in rows && forall other :: other in rows ==> event.sequence <= other.sequence
  {
    var event :| event in rows;
    if other :| other in rows && other.sequence < event.sequence {
      assert other in rows - {event};
      LowestExists(rows - {event});
      var lowest :| lowest in rows - {event} && forall other :: other in rows - {event} ==> lowest.sequence <= other.sequence;
      assert forall another :: another in rows ==> lowest.sequence <= another.sequence;
    }
  }

  /** ORDER BY sequence. */
  method OrderRows(rows: set<Event>) returns (events: seq<Event>)
    ensures InOrder(events) && (forall event :: event in events <==> event in rows)
  {
    events := [];
    var rest := rows;
    while rest != {}
      invariant rest <= rows && InOrder(events)
      invariant forall event :: event in events <==> event in rows - rest
      invariant forall done, open :: done in events && open in rest ==> done.sequence <= open.sequence
      decreases rest
    {
      LowestExists(rest);
      var lowest :| lowest in rest && forall other :: other in rest ==> lowest.sequence <= other.sequence;
      events := events + [lowest];
      rest := rest - {lowest};
    }
  }

  // ---------------------------------------------------------------- the two stores

  /** A load either finds nothing, finds a state, or meets rows it cannot decode. */
  datatype Found = Missing | Invalid | Found(state: State)

  class LocalThreadStore {
    var stateRows: map<ThreadId, State>
    var eventRows: map<ThreadId, set<Event>>
    var idempotencyRows: map<ThreadId, map<Key, IdempotencyRow>>

    constructor ()
      ensures forall id :: RowsOf(id) == NO_ROWS
    {
      stateRows, eventRows, idempotencyRows := map[], map[], map[];
    }

    function RowsOf(id: ThreadId): Rows
      reads this
    {
      Rows(if id in stateRows then Some(stateRows[id]) else None,
           if id in eventRows then eventRows[id] else {},
           if id in idempotencyRows then idempotencyRows[id] else map[])
    }

    /** Rows of this Thread only. */
    method SaveState(id: ThreadId, state: State, newEvents: seq<Event>, replaceEvents: bool)
      modifies this
      ensures RowsOf(id) == Saved(old(RowsOf(id)), state, newEvents, replaceEvents)
      ensures forall other :: other != id ==> RowsOf(other) == old(RowsOf(other))
    {
      stateRows := stateRows[id := Bare(state)];
      var events := if replaceEvents || id !in eventRows then {} else eventRows[id];
      ghost var before := events;
      var next := 0;
      while next < |newEvents|
        invariant 0 <= next <= |newEvents|
        invariant events == before + (set event | event in newEvents[..next])
        invariant stateRows == old(stateRows)[id := Bare(state)]
        invariant eventRows == old(eventRows) && idempotencyRows == old(idempotencyRows)
      {
        assert newEvents[..next + 1] == newEvents[..next] + [newEvents[next]];
        events := events + {newEvents[next]};
        next := next + 1;
      }
      assert newEvents[..next] == newEvents;
      eventRows := eventRows[id := events];
      var keys := SaveKeys(if id in idempotencyRows then idempotencyRows[id] else map[], state.idempotency);
      idempotencyRows := idempotencyRows[id := keys];
    }

    /** Deletes the rows of keys that are gone, and writes the others. */
    method SaveKeys(rows: map<Key, IdempotencyRow>, idempotency: map<Key, Submission>) returns (saved: map<Key, IdempotencyRow>)
      ensures saved == EncodeKeys(idempotency)
    {
      saved := rows - (rows.Keys - idempotency.Keys);
      var keys := idempotency.Keys;
      while keys != {}
        invariant keys <= idempotency.Keys && saved.Keys <= idempotency.Keys
        invariant forall key :: key in idempotency.Keys - keys ==>
          key in saved && saved[key] == EncodeSubmission(idempotency[key])
        decreases keys
      {
        var key :| key in keys;
        saved := saved[key := EncodeSubmission(idempotency[key])];
        keys := keys - {key};
      }
      assert saved.Keys == idempotency.Keys;
    }

    /** Rows that stand for a sound state are read back as that state. */
    method GetThread(id: ThreadId) returns (found: Found)
      ensures RowsOf(id).state.None? ==> found == Missing
      ensures forall state :: StandFor(RowsOf(id), state) && StateOk(state) ==> found == Found(state)
    {
      if id !in stateRows {
        return Missing;
      }
      var events := OrderRows(if id in eventRows then eventRows[id] else {});
      var ok, idempotency := LoadKeys(if id in idempotencyRows then idempotencyRows[id] else map[]);
      found := if ok then Found(stateRows[id].(events := events, idempotency := idempotency)) else Invalid;
      forall state | StandFor(RowsOf(id), state) && StateOk(state) ensures found == Found(state) {
        OrderIsUnique(state.events, events, state.eventSequence);
        forall key | key in state.idempotency ensures DecodeSubmission(RowsOf(id).idempotency[key]) == Some(state.idempotency[key]) {
          assert SubmissionOk(state, key);
          Settings.OptionalRoundTrips(state.idempotency[key].request.settings);
        }
        assert idempotency == state.idempotency;
      }
    }

    method LoadKeys(rows: map<Key, IdempotencyRow>) returns (ok: bool, idempotency: map<Key, Submission>)
      ensures ok <==> forall key :: key in rows ==> DecodeSubmission(rows[key]).Some?
      ensures ok ==> idempotency.Keys == rows.Keys
      ensures ok ==> forall key :: key in rows ==> DecodeSubmission(rows[key]) == Some(idempotency[key])
    {
      idempotency := map[];
      var keys := rows.Keys;
      while keys != {}
        invariant keys <= rows.Keys && idempotency.Keys == rows.Keys - keys
        invariant forall key :: key in idempotency ==> DecodeSubmission(rows[key]) == Some(idempotency[key])
        decreases keys
      {
        var key :| key in keys;
        var submission := DecodeSubmission(rows[key]);
        if submission.None? {
          return false, idempotency;
        }
        idempotency := idempotency[key := submission.value];
        keys := keys - {key};
      }
      ok := true;
    }
  }

  class InMemoryThreadStore {
    var states: map<ThreadId, State>
    var order: seq<ThreadId>

    constructor ()
      ensures states == map[] && order == []
    {
      states, order := map[], [];
    }

    /** The order names each stored Thread once. */
    ghost predicate Consistent()
      reads this
    {
      (forall id :: id in order <==> id in states) && Distinct(order)
    }

    /** Replaces the copy; a new Thread goes to the end of the order. The new events are ignored. */
    method SaveTransition(id: ThreadId, state: State, newEvents: seq<Event>)
      requires Consistent()
      modifies this
      ensures Consistent() && states == old(states)[id := state]
      ensures order == old(order) + if id in old(states) then [] else [id]
    {
      if id !in states {
        order := order + [id];
      }
      states := states[id := state];
    }

    method GetThread(id: ThreadId) returns (found: Found)
      ensures found == if id in states then Found(states[id]) else Missing
    {
      found := if id in states then Found(states[id]) else Missing;
    }
  }

  // ---------------------------------------------------------------- every transition of every run

  predicate WritesStore(w: World, step: Step) {
    match step
    case Crash => false
    case Restore(_, _) => Interrupted(w.stored)
    case _ => w.memory.Some? && Writes(w.memory.value, step)
  }

  /** The events a write names as new: the one durable event it is made for, and none otherwise. */
  function Named(w: World, step: Step): seq<Event> {
    match step
    case Emit(_, _) => if w.memory.None? then [] else Visible(w.memory.value, ApplyIn(w.memory.value, step), step)
    case Finish(_, _) => if w.memory.None? then [] else Visible(w.memory.value, ApplyIn(w.memory.value, step), step)
    case Restore(capacity, freshId) =>
      var issued := IssuedBefore(w.stored, freshId);
      RestoredEvents(Loaded(w.stored, capacity, issued), Restored(w.stored, capacity, issued, freshId))
    case _ => []
  }

  /** What a write names as new is exactly what its state has beyond the stored one. */
  lemma NamedAreAppended(w: World, step: Step)
    requires Inv(w) && Enabled(w, step) && WritesStore(w, step)
    ensures Apply(w, step).stored.events == w.stored.events + Named(w, step)
  {
    if step.Restore? {
      RestoreNamesItsEvent(w.stored, step.capacity, step.freshId);
    } else {
      WriteNamesItsEvent(w.memory.value, step);
    }
  }

  lemma RestoreNamesItsEvent(stored: State, capacity: nat, freshId: TurnId)
    requires StateOk(stored) && Interrupted(stored)
    ensures var issued := IssuedBefore(stored, freshId);
      var restored := Restored(stored, capacity, issued, freshId);
      restored.state.events == stored.events + RestoredEvents(Loaded(stored, capacity, issued), restored)
  {
    RestoredInterrupted(stored, capacity, freshId);
    LoadedOk(stored, capacity, IssuedBefore(stored, freshId));
  }

  lemma WriteNamesItsEvent(record: Record, step: Step)
    requires RecordOk(record) && EnabledIn(record, step) && Writes(record, step)
    ensures ApplyIn(record, step).state.events == record.state.events
      + if step.Emit? || step.Finish? then Visible(record, ApplyIn(record, step), step) else []
  {
    if step.Finish? {
      EndedFields(record, Summary(record.state.active.value.turnId, step.status, step.finalText, false));
    } else if !step.Emit? {
      assert record.state.events + [] == record.state.events;
    }
  }

  /** A write that does not happen changes nothing. */
  lemma UnwrittenStays(w: World, step: Step)
    requires Inv(w) && Enabled(w, step) && !WritesStore(w, step)
    ensures Apply(w, step).stored == w.stored
  {
  }

  /** One call of the store: the whole state, and the events it names as new. */
  datatype Transition = Transition(state: State, newEvents: seq<Event>)

  /** The store calls of the first `i` steps, creation first. */
  ghost function Transitions(worlds: seq<World>, steps: seq<Step>, i: nat): seq<Transition>
    requires IsRun(worlds, steps) && i < |worlds|
  {
    if i == 0 then [Transition(worlds[0].stored, [])]
    else
      Transitions(worlds, steps, i - 1)
      + if WritesStore(worlds[i - 1], steps[i - 1]) then [Transition(worlds[i].stored, Named(worlds[i - 1], steps[i - 1]))] else []
  }

  /** The rows after these calls. */
  function RowsAfter(transitions: seq<Transition>): Rows {
    if transitions == [] then NO_ROWS
    else
      var last := transitions[|transitions| - 1];
      Saved(RowsAfter(transitions[..|transitions| - 1]), last.state, last.newEvents, false)
  }

  lemma RowsAfterMore(transitions: seq<Transition>, more: Transition)
    ensures RowsAfter(transitions + [more]) == Saved(RowsAfter(transitions), more.state, more.newEvents, false)
  {
    assert (transitions + [more])[..|transitions|] == transitions;
  }

  /** The calls end with this state, and the rows after them stand for it. */
  ghost predicate EndWith(calls: seq<Transition>, state: State) {
    calls != [] && calls[|calls| - 1].state == state && StandFor(RowsAfter(calls), state)
  }

  lemma WriteEndsWith(calls: seq<Transition>, before: State, after: State, named: seq<Event>)
    requires EndWith(calls, before) && after.events == before.events + named
    ensures EndWith(calls + [Transition(after, named)], after)
  {
    RowsAfterMore(calls, Transition(after, named));
    SavedStandsFor(RowsAfter(calls), before, after, named);
  }

  /** At every point of every run, the rows stand for exactly what a whole copy holds. */
  lemma {:induction false} RowsFollowTheRun(worlds: seq<World>, steps: seq<Step>, i: nat)
    requires IsRun(worlds, steps) && i < |worlds|
    ensures EndWith(Transitions(worlds, steps, i), worlds[i].stored)
  {
    if i > 0 {
      RowsFollowTheRun(worlds, steps, i - 1);
      RunKeepsInv(worlds, steps, i - 1);
      var calls := Transitions(worlds, steps, i - 1);
      assert calls + [] == calls;
      RowsFollowStep(calls, worlds[i - 1], steps[i - 1]);
    } else {
      var prompt :| worlds[0] == Created(prompt);
      FirstCallEndsWith(worlds[0].stored);
    }
  }

  lemma RowsFollowStep(calls: seq<Transition>, w: World, step: Step)
    requires Inv(w) && Enabled(w, step) && EndWith(calls, w.stored)
    ensures WritesStore(w, step) ==> EndWith(calls + [Transition(Apply(w, step).stored, Named(w, step))], Apply(w, step).stored)
    ensures !WritesStore(w, step) ==> EndWith(calls, Apply(w, step).stored)
  {
    if WritesStore(w, step) {
      NamedAreAppended(w, step);
      WriteEndsWith(calls, w.stored, Apply(w, step).stored, Named(w, step));
    } else {
      UnwrittenStays(w, step);
    }
  }

  lemma FirstCallEndsWith(state: State)
    requires state.events == []
    ensures EndWith([Transition(state, [])], state)
  {
    RowsAfterMore([], Transition(state, []));
    assert [] + [Transition(state, [])] == [Transition(state, [])];
    FirstSaveStandsFor(NO_ROWS, state);
  }

  // ---------------------------------------------------------------- the two stores agree

  /** The same calls go to both stores. */
  method SaveToBoth(rows: LocalThreadStore, copies: InMemoryThreadStore, id: ThreadId, transitions: seq<Transition>)
    requires rows.RowsOf(id) == NO_ROWS && copies.Consistent()
    modifies rows, copies
    ensures rows.RowsOf(id) == RowsAfter(transitions) && copies.Consistent()
    ensures transitions != [] ==> id in copies.states && copies.states[id] == transitions[|transitions| - 1].state
    ensures forall other :: other != id ==> rows.RowsOf(other) == old(rows.RowsOf(other))
    ensures copies.states - {id} == old(copies.states) - {id}
  {
    var next := 0;
    while next < |transitions|
      invariant 0 <= next <= |transitions|
      invariant rows.RowsOf(id) == RowsAfter(transitions[..next]) && copies.Consistent()
      invariant next > 0 ==> id in copies.states && copies.states[id] == transitions[next - 1].state
      invariant forall other :: other != id ==> rows.RowsOf(other) == old(rows.RowsOf(other))
      invariant copies.states - {id} == old(copies.states) - {id}
    {
      var call := transitions[next];
      RowsAfterMore(transitions[..next], call);
      assert transitions[..next + 1] == transitions[..next] + [call];
      rows.SaveState(id, call.state, call.newEvents, false);
      copies.SaveTransition(id, call.state, call.newEvents);
      next := next + 1;
    }
    assert transitions[..next] == transitions;
  }

  /** After any number of steps of any run, the Thread read back from its rows and the whole copy are the same
      state: the one the Runtime stored last. */
  method StoresAgree(rows: LocalThreadStore, copies: InMemoryThreadStore, id: ThreadId, transitions: seq<Transition>,
      ghost worlds: seq<World>, ghost steps: seq<Step>, ghost i: nat)
    returns (fromRows: Found, fromCopy: Found)
    requires rows.RowsOf(id) == NO_ROWS && copies.Consistent()
    requires IsRun(worlds, steps) && i < |worlds| && transitions == Transitions(worlds, steps, i)
    modifies rows, copies
    ensures fromRows == fromCopy == Found(worlds[i].stored)
  {
    RowsFollowTheRun(worlds, steps, i);
    RunKeepsInv(worlds, steps, i);
    SaveToBoth(rows, copies, id, transitions);
    fromRows := rows.GetThread(id);
    fromCopy := copies.GetThread(id);
  }
}
