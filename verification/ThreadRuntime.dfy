/** The Runtime's record of one Thread, updated in place; every method is one or more steps of the run
    model (agent/runtime/thread_runtime.py, agent/runtime/events.py). */
module ThreadRuntime {
  import opened Common
  import opened Transcript
  import opened ThreadState
  import opened ThreadRuns

  class ThreadRecord {
    const capacity: nat
    var status: ThreadStatus
    var conversation: seq<Message>
    var completedTurns: nat
    var latestTurn: Option<Summary>
    var turns: seq<Summary>
    var durableEvents: seq<Event>
    var activeTurn: Option<Active>
    var idempotentSubmissions: map<Key, Submission>
    var settingsVersion: nat
    var preflight: Option<Preflight>
    var closing: bool
    var issued: set<TurnId>
    var futures: set<Key>
    var threadSequence: nat
    var sequenceWatermark: nat
    var ring: seq<Event>             // the newest events, at most `capacity`
    var terminal: set<TurnId>        // the Turns whose emitter has sent its terminal event
    var store: State
    ghost var seen: seq<Event>

    function Current(): State
      reads this
    {
      State(status, conversation, completedTurns, latestTurn, turns, durableEvents, sequenceWatermark, activeTurn,
            idempotentSubmissions, settingsVersion)
    }

    function View(): Record
      reads this
    {
      Record(Current(), threadSequence, preflight, closing, issued, futures)
    }

    ghost function Whole(): World
      reads this
    {
      World(store, Some(View()), seen)
    }

    /** What the methods rely on among themselves; that every state is sound is proved of the steps. */
    ghost predicate Valid()
      reads this
    {
      && RingOk()
      && terminal == IdSet(turns) && terminal <= issued
      && (activeTurn.Some? ==> activeTurn.value.turnId in issued - terminal && preflight.None? && !status.Idle?)
      && (preflight.Some? ==> preflight.value.turnId in issued - terminal)
    }

    ghost predicate RingOk()
      reads this
    {
      && 0 < capacity && |ring| <= capacity && threadSequence <= sequenceWatermark
      && forall i :: 0 <= i < |durableEvents| ==> durableEvents[i].sequence <= threadSequence
    }

    constructor Create(capacity: nat, systemPrompt: string)
      requires capacity > 0
      ensures this.capacity == capacity && ring == [] && terminal == {}
      ensures Current() == State(Idle, [System(systemPrompt)], 0, None, [], [], 0, None, map[], 0)
      ensures View() == Record(Current(), 0, None, false, {}, {}) && store == Current() && seen == []
    {
      this.capacity := capacity;
      status, conversation, completedTurns, latestTurn := Idle, [System(systemPrompt)], 0, None;
      turns, durableEvents, activeTurn, idempotentSubmissions := [], [], None, map[];
      settingsVersion, preflight, closing, issued, futures := 0, None, false, {}, {};
      threadSequence, sequenceWatermark, ring, terminal, seen := 0, 0, [], {}, [];
      store := State(Idle, [System(systemPrompt)], 0, None, [], [], 0, None, map[], 0);
    }

    /** The fields as the store has them. */
    constructor Load(stored: State, capacity: nat, freshId: TurnId, ghost seenBefore: seq<Event>)
      requires Ascending(stored.events, stored.eventSequence)
      ensures this.capacity == capacity && ring == Retained(stored.events, capacity)
      ensures View() == Loaded(stored, capacity, IssuedBefore(stored, freshId)) && terminal == IdSet(stored.turns)
      ensures store == stored && seen == seenBefore
    {
      this.capacity := capacity;
      status, conversation, completedTurns, latestTurn := stored.status, stored.messages, stored.completedTurns, stored.latest;
      turns, durableEvents, activeTurn := stored.turns, stored.events, stored.active;
      idempotentSubmissions, settingsVersion := stored.idempotency, stored.settingsVersion;
      preflight, closing, futures := None, false, {};
      issued := IssuedBefore(stored, freshId);
      var recent := Retained(stored.events, capacity);
      var largest := Largest(recent);
      threadSequence := if largest > stored.eventSequence then largest else stored.eventSequence;
      sequenceWatermark := if largest > stored.eventSequence then largest else stored.eventSequence;
      ring, terminal, store, seen := recent, IdSet(stored.turns), stored, seenBefore;
    }

    /** Reads a Thread back after a restart, and ends the Turn that died with the last process, under a fresh
        id when no marker names it. A marker left stale by an older version is only cleared. */
    static method Restore(stored: State, capacity: nat, freshId: TurnId, ghost seenBefore: seq<Event>)
      returns (record: ThreadRecord)
      requires capacity > 0 && Fresh(stored, freshId)
      requires Ascending(stored.events, stored.eventSequence) && Ascending(seenBefore, stored.eventSequence)
      requires StateOk(stored) || CoherentlyTerminal(stored) || (stored.active.None? && Interrupted(stored))
      ensures fresh(record) && record.Valid()
      ensures record.Whole() == Apply(World(stored, None, seenBefore), Step.Restore(capacity, freshId))
    {
      record := new ThreadRecord.Load(stored, capacity, freshId, seenBefore);
      LoadedSequence(stored, capacity, IssuedBefore(stored, freshId));
      if CoherentlyTerminal(stored) {
        ClearedWorld(stored, capacity, freshId, seenBefore);
        record.ClearStaleMarker();
      } else if Interrupted(stored) {
        LoadedValid(stored, freshId);
        RecoveredWorld(stored, capacity, freshId, seenBefore);
        record.RecoverActiveRecord(freshId);
      } else {
        QuietWorld(stored, capacity, freshId, seenBefore);
      }
    }

    method ClearStaleMarker()
      modifies this`status, this`activeTurn, this`store
      ensures View() == old(View()).(state := Current()) && store == Current()
      ensures Current() == old(Current()).(active := None, status := if old(status).Closed? then old(status) else Idle)
    {
      status := if status.Closed? then status else Idle;
      activeTurn := None;
      PersistRecord();
    }

    /** The Turn interrupted by the restart becomes one terminal failure; its open calls are answered. */
    method RecoverActiveRecord(freshId: TurnId)
      requires Valid()
      requires activeTurn.None? ==> freshId in issued - terminal && preflight.None? && !status.Idle?
      modifies this
      ensures Valid() && View() == ThreadState.Recovered(old(View()), freshId)
      ensures store == Current()
      ensures seen == old(seen) + [Event(threadSequence, Some(latestTurn.value.turnId), Terminal(latestTurn.value))]
    {
      if activeTurn.None? {
        activeTurn := Some(Active(freshId, None, RESTARTED_TEXT));
      }
      var summary := Summary(activeTurn.value.turnId, TurnFailed, activeTurn.value.lastText, true);
      conversation := Transcript.Recovered(conversation);
      EndTurn(summary);
      PersistRecord();
    }

    /** Writes the whole state in one transition. */
    method PersistRecord()
      modifies this`store
      ensures store == Current()
    {
      store := State(status, conversation, completedTurns, latestTurn, turns, durableEvents, sequenceWatermark, activeTurn,
                     idempotentSubmissions, settingsVersion);
    }

    /** The next sequence number. Numbers are reserved in the store before they are used, except for a
        terminal event, whose own write carries the reservation. */
    method NextSequence(checkpoint: bool) returns (sequence: nat)
      modifies this`threadSequence, this`sequenceWatermark, this`store
      ensures sequence == threadSequence == old(threadSequence) + 1
      ensures var reserve := old(threadSequence) >= old(sequenceWatermark);
        && sequenceWatermark == (if reserve then
             (if old(threadSequence) > old(sequenceWatermark) then old(threadSequence) else old(sequenceWatermark)) + RESERVATION_SIZE
             else old(sequenceWatermark))
        && store == if reserve && checkpoint then old(Current()).(eventSequence := sequenceWatermark) else old(store)
    {
      if threadSequence >= sequenceWatermark {
        sequenceWatermark :=
          (if threadSequence > sequenceWatermark then threadSequence else sequenceWatermark) + RESERVATION_SIZE;
        if checkpoint {
          PersistRecord();
        }
      }
      threadSequence := threadSequence + 1;
      sequence := threadSequence;
    }

    /** Into the ring, dropping the oldest event at capacity; a durable event is stored at once. */
    method Append(event: Event)
      requires event !in durableEvents && event.sequence == threadSequence && capacity > 0 && |ring| <= capacity
      modifies this`ring, this`durableEvents, this`store, this`seen
      ensures seen == old(seen) + [event]
      ensures durableEvents == old(durableEvents) + if event.kind.Transient? then [] else [event]
      ensures store == if event.kind.Transient? then old(store) else Current()
      ensures |ring| <= capacity && ring == Retained(old(ring) + [event], capacity)
    {
      ring := ring + [event];
      if |ring| > capacity {
        ring := ring[1..];
      }
      if !event.kind.Transient? {
        if event !in durableEvents {
          durableEvents := durableEvents + [event];
        }
        PersistRecord();
      }
      seen := seen + [event];
    }

    /** Emits an event of a Turn, or of the Thread; the channel of a Turn is sealed by its terminal event. */
    method Emit(turn: Option<TurnId>, kind: Kind, checkpoint: bool)
      requires RingOk() && (kind.Terminal? ==> turn.Some?)
      modifies this`threadSequence, this`sequenceWatermark, this`ring, this`durableEvents, this`store, this`seen, this`terminal
      ensures RingOk()
      ensures var gated := turn.Some? && turn.value in old(terminal);
        var before := old(View());
        var reserved := before.(state := ToppedUp(before.state, before.threadSequence));
        if gated then View() == before && store == old(store) && seen == old(seen) && terminal == old(terminal)
        else
          && View() == WithEvent(reserved, turn, kind)
          && seen == old(seen) + [Event(threadSequence, turn, kind)]
          && store == (if !kind.Transient? then Current()
                       else if reserved != before && checkpoint then reserved.state else old(store))
          && terminal == old(terminal) + if kind.Terminal? then {turn.value} else {}
    {
      if turn.Some? && turn.value in terminal {
        return;
      }
      Send(turn, kind, checkpoint);
      if kind.Terminal? {
        terminal := terminal + {turn.value};
      }
    }

    method Send(turn: Option<TurnId>, kind: Kind, checkpoint: bool)
      requires RingOk()
      modifies this`threadSequence, this`sequenceWatermark, this`ring, this`durableEvents, this`store, this`seen
      ensures RingOk()
      ensures var before := old(View());
        var reserved := before.(state := ToppedUp(before.state, before.threadSequence));
        && View() == WithEvent(reserved, turn, kind)
        && seen == old(seen) + [Event(threadSequence, turn, kind)]
        && store == (if !kind.Transient? then Current()
                     else if reserved != before && checkpoint then reserved.state else old(store))
    {
      var sequence := NextSequence(checkpoint);
      Append(Event(sequence, turn, kind));
    }

    /** An ordinary event is a reservation, if one is due, and the event itself: two writes at most. */
    method EmitOrdinary(turn: Option<TurnId>, transient: bool)
      requires Valid()
      modifies this`threadSequence, this`sequenceWatermark, this`ring, this`durableEvents, this`store, this`seen, this`terminal
      ensures Valid()
      ensures Whole() == Emitted(old(Whole()), turn, if transient then Transient else Ordinary)
    {
      EmittedIs(Whole(), turn, if transient then Transient else Ordinary);
      InIdSet(turns);
      Emit(turn, if transient then Transient else Ordinary, true);
    }

    /** The checks of run_turn before its first wait, and the reservation of the Turn slot. */
    method StartTurn(request: Request, key: Option<Key>, turnId: TurnId) returns (outcome: Outcome)
      requires Valid() && turnId !in issued
      modifies this`preflight, this`issued
      ensures Valid()
      ensures outcome == Submit(old(View()), request, key)
      ensures Whole() == if outcome.Accepted? then Apply(old(Whole()), StartPreflight(Preflight(turnId, request, key)))
                         else old(Whole())
    {
      if key.Some? && key.value in idempotentSubmissions {
        var existing := idempotentSubmissions[key.value];
        if existing.request != request {
          return Conflict;
        }
        if existing.interrupted {
          return KeyInterrupted;
        }
        if existing.summary.Some? {
          return Replay(existing.summary.value);
        }
        return if key.value in futures then Join else NoFuture;
      }
      if !status.Idle? || preflight.Some? {
        return if status.Closed? || closing then ThreadClosed else ThreadBusy;
      }
      preflight := Some(Preflight(turnId, request, key));
      issued := issued + {turnId};
      outcome := Accepted;
    }

    /** The Turn enters the fields: its user message, its marker, its submission and future. */
    method MarkBegun()
      requires Valid() && preflight.Some?
      modifies this`preflight, this`status, this`conversation, this`activeTurn, this`futures, this`idempotentSubmissions
      ensures Valid() && View() == Begun(old(View()))
    {
      var submission := preflight.value;
      preflight := None;
      status := Running;
      conversation := conversation + [User(submission.request.userText)];
      activeTurn := Some(Active(submission.turnId, submission.key, ""));
      futures := futures + if submission.key.Some? then {submission.key.value} else {};
      idempotentSubmissions := if submission.key.None? then idempotentSubmissions
        else idempotentSubmissions[submission.key.value := Submission(submission.request, None, false)];
    }

    /** After the preflight: a Thread closed meanwhile refuses the Turn, and so may the workspace, its lease, the
        size of the request or the provider, which `rejected` stands for; otherwise it begins. */
    method BeginTurn(rejected: bool) returns (begun: bool)
      requires Valid() && preflight.Some?
      modifies this
      ensures Valid()
      ensures begun == (!rejected && !old(status).Closed? && !old(closing))
      ensures var id := old(preflight.value.turnId);
        Whole() == if begun then Emitted(Apply(old(Whole()), Step.Begin), Some(id), Ordinary)
                   else Apply(Emitted(old(Whole()), Some(id), Ordinary), DropPreflight)
    {
      var turnId := preflight.value.turnId;
      begun := !rejected && !status.Closed? && !closing;
      if begun {
        BeginStep(Whole());
        MarkBegun();
        EmitOrdinary(Some(turnId), false);
      } else {
        EmitOrdinary(Some(turnId), false);
        FreeSlot();
      }
    }

    method FreeSlot()
      requires Valid()
      modifies this`preflight
      ensures Valid() && Whole() == Apply(old(Whole()), DropPreflight)
    {
      assert seen + [] == seen;
      preflight := None;
    }

    /** The outcome enters the fields, so that the terminal event finds them all in place. */
    method SettleTurn(summary: Summary)
      requires activeTurn.Some?
      modifies this`completedTurns, this`latestTurn, this`turns, this`idempotentSubmissions, this`status, this`activeTurn
      ensures Current() == Settled(old(Current()), summary, closing)
    {
      var key := activeTurn.value.key;
      completedTurns := completedTurns + 1;
      latestTurn := Some(summary);
      turns := turns + [summary];
      if key.Some? && key.value in idempotentSubmissions {
        var submission := idempotentSubmissions[key.value];
        idempotentSubmissions :=
          idempotentSubmissions[key.value := submission.(summary := Some(summary), interrupted := summary.restarted)];
      }
      status := if closing then ThreadStatus.Closed else Idle;
      activeTurn := None;
    }

    /** Settles the active Turn and seals it, in one write. */
    method EndTurn(summary: Summary)
      requires Valid() && activeTurn.Some? && summary.turnId == activeTurn.value.turnId
      modifies this
      ensures Valid() && View() == Ended(old(View()), summary)
      ensures store == Current() && latestTurn == Some(summary)
      ensures seen == old(seen) + [Event(threadSequence, Some(summary.turnId), Terminal(summary))]
    {
      IdSetAfter(turns, summary);
      SettleTurn(summary);
      Emit(Some(summary.turnId), Terminal(summary), false);
    }

    /** The outcome of the active Turn. */
    method FinishTurn(turnStatus: TurnStatus, finalText: string)
      requires Valid() && activeTurn.Some?
      modifies this
      ensures Valid()
      ensures Whole() == Apply(old(Whole()), Finish(turnStatus, finalText))
    {
      EndTurn(Summary(activeTurn.value.turnId, turnStatus, finalText, false));
    }

    method SetWaiting(waiting: bool)
      requires Valid() && activeTurn.Some?
      modifies this`status
      ensures Valid() && Whole() == Apply(old(Whole()), Step.SetWaiting(waiting))
    {
      assert seen + [] == seen;
      status := if waiting then WaitingApproval else Running;
    }

    /** Closes an idle Thread at once; during a Turn the request is announced, the Turn is to be cancelled, and the
        close waits for its end. */
    method CloseThread() returns (accepted: bool, cancels: bool)
      requires Valid()
      modifies this
      ensures Valid()
      ensures accepted == (!old(status).Closed? && !old(closing)) && cancels == (accepted && old(activeTurn).Some?)
      ensures var closed := Apply(old(Whole()), Step.CloseThread);
        Whole() == if accepted && old(activeTurn).Some? then Emitted(closed, Some(old(activeTurn.value.turnId)), Ordinary)
                   else closed
    {
      accepted := MarkClosing();
      cancels := accepted && activeTurn.Some?;
      if cancels {
        EmitOrdinary(Some(activeTurn.value.turnId), false);
      }
    }

    method MarkClosing() returns (accepted: bool)
      requires Valid()
      modifies this`closing, this`status, this`store
      ensures Valid() && activeTurn == old(activeTurn)
      ensures accepted == (!old(status).Closed? && !old(closing))
      ensures Whole() == Apply(old(Whole()), Step.CloseThread)
    {
      ClosingWorld(Whole());
      if status.Closed? || closing {
        return false;
      }
      accepted := true;
      closing := true;
      if activeTurn.None? {
        CloseIdle();
      }
    }

    method CloseIdle()
      modifies this`status, this`store
      ensures Current() == old(Current()).(status := ThreadStatus.Closed) && store == Current()
    {
      status := ThreadStatus.Closed;
      PersistRecord();
    }

    /** A settings change must name the current version; a closed Thread takes none. */
    method UpdateSettings(expectedVersion: nat) returns (updated: bool)
      requires Valid()
      modifies this
      ensures Valid()
      ensures updated == (!old(status).Closed? && !old(closing) && old(settingsVersion) == expectedVersion)
      ensures Whole() == if updated then Emitted(Apply(old(Whole()), Step.UpdateSettings), None, Ordinary) else old(Whole())
    {
      if status.Closed? || closing || settingsVersion != expectedVersion {
        return false;
      }
      updated := true;
      RaiseVersion();
      EmitOrdinary(None, false);
    }

    method RaiseVersion()
      requires Valid()
      modifies this`settingsVersion
      ensures Valid() && Whole() == Apply(old(Whole()), Step.UpdateSettings)
    {
      assert seen + [] == seen;
      settingsVersion := settingsVersion + 1;
    }
  }

  /** An emission as steps of the run model. */
  ghost function Emitted(w: World, turn: Option<TurnId>, kind: Kind): World
    requires w.memory.Some?
  {
    if Gated(w.memory.value, turn) then w
    else if w.memory.value.threadSequence >= w.memory.value.state.eventSequence then
      Apply(Apply(w, Reserve), Step.Emit(turn, kind))
    else Apply(w, Step.Emit(turn, kind))
  }

  /** What a close request does to the record and the store. */
  lemma ClosingWorld(w: World)
    requires w.memory.Some?
    ensures var record := w.memory.value;
      var closed := record.(closing := true, state := record.state.(status := ThreadStatus.Closed));
      Apply(w, Step.CloseThread) ==
        if record.state.status.Closed? || record.closing then w
        else if record.state.active.None? then World(closed.state, Some(closed), w.seen)
        else World(w.stored, Some(record.(closing := true)), w.seen)
  {
    assert w.seen + [] == w.seen;
  }

  lemma BeginStep(w: World)
    requires w.memory.Some? && w.memory.value.preflight.Some?
    ensures Apply(w, Step.Begin) == World(w.stored, Some(Begun(w.memory.value)), w.seen)
  {
    assert w.seen + [] == w.seen;
  }

  lemma EmittedIs(w: World, turn: Option<TurnId>, kind: Kind)
    requires w.memory.Some? && !kind.Terminal?
    ensures Gated(w.memory.value, turn) ==> Emitted(w, turn, kind) == w
    ensures !Gated(w.memory.value, turn) ==>
      var record := w.memory.value;
      var reserved := record.(state := ToppedUp(record.state, record.threadSequence));
      var after := WithEvent(reserved, turn, kind);
      Emitted(w, turn, kind) ==
        World(if !kind.Transient? then after.state else if reserved != record then reserved.state else w.stored,
              Some(after), w.seen + [Event(record.threadSequence + 1, turn, kind)])
  {
    assert w.seen + [] == w.seen;
  }

  /** An emission keeps every invariant of the world. */
  lemma EmittedKeepsInv(w: World, turn: Option<TurnId>, kind: Kind)
    requires Inv(w) && w.memory.Some? && !kind.Terminal? && (turn.Some? ==> turn.value in w.memory.value.issued)
    ensures Inv(Emitted(w, turn, kind))
  {
    if !Gated(w.memory.value, turn) {
      if w.memory.value.threadSequence >= w.memory.value.state.eventSequence {
        ReservingKeepsInv(w);
        EmittingKeepsInv(Apply(w, Reserve), turn, kind);
      } else {
        EmittingKeepsInv(w, turn, kind);
      }
    }
  }

  lemma ReservingKeepsInv(w: World)
    requires Inv(w) && w.memory.Some? && w.memory.value.threadSequence >= w.memory.value.state.eventSequence
    ensures Inv(Apply(w, Reserve)) && Apply(w, Reserve).memory == Some(WithReservation(w.memory.value))
    ensures w.memory.value.threadSequence < WithReservation(w.memory.value).state.eventSequence
  {
    StepKeepsInv(w, Reserve);
  }

  lemma EmittingKeepsInv(w: World, turn: Option<TurnId>, kind: Kind)
    requires Inv(w) && w.memory.Some? && !kind.Terminal? && (turn.Some? ==> turn.value in w.memory.value.issued)
    requires w.memory.value.threadSequence < w.memory.value.state.eventSequence
    ensures Inv(Apply(w, Step.Emit(turn, kind)))
  {
    StepKeepsInv(w, Step.Emit(turn, kind));
  }

  function IdSet(turns: seq<Summary>): set<TurnId> {
    set i | 0 <= i < |turns| :: turns[i].turnId
  }

  lemma InIdSet(turns: seq<Summary>)
    ensures forall id :: id in IdSet(turns) <==> id in TurnIds(turns)
  {
    forall id | id in IdSet(turns) ensures id in TurnIds(turns) {
      var i :| 0 <= i < |turns| && turns[i].turnId == id;
      assert TurnIds(turns)[i] == id;
    }
  }

  lemma IdSetAfter(turns: seq<Summary>, summary: Summary)
    ensures IdSet(turns + [summary]) == IdSet(turns) + {summary.turnId}
  {
    var more := turns + [summary];
    assert more[|turns|] == summary;
    forall id | id in IdSet(turns) ensures id in IdSet(more) {
      var i :| 0 <= i < |turns| && turns[i].turnId == id;
      assert more[i] == turns[i];
    }
  }

  /** The interrupted Turn, marked or not, has no summary yet. */
  lemma LoadedValid(stored: State, freshId: TurnId)
    requires Interrupted(stored) && Fresh(stored, freshId) && (StateOk(stored) || stored.active.None?)
    ensures !stored.status.Idle? && freshId !in IdSet(stored.turns)
    ensures stored.active.Some? ==> stored.active.value.turnId !in IdSet(stored.turns)
  {
    InIdSet(stored.turns);
  }

  /** A recovered Thread, stored and shown. */
  lemma RecoveredWorld(stored: State, capacity: nat, freshId: TurnId, seen: seq<Event>)
    requires Interrupted(stored) && !CoherentlyTerminal(stored)
    ensures var recovered := ThreadState.Recovered(Loaded(stored, capacity, IssuedBefore(stored, freshId)), freshId);
      && recovered.state.latest.Some?
      && Apply(World(stored, None, seen), Step.Restore(capacity, freshId)) == World(recovered.state, Some(recovered),
           seen + [Event(recovered.threadSequence, Some(recovered.state.latest.value.turnId), Terminal(recovered.state.latest.value))])
  {
  }

  lemma ClearedWorld(stored: State, capacity: nat, freshId: TurnId, seen: seq<Event>)
    requires CoherentlyTerminal(stored)
    ensures var loaded := Loaded(stored, capacity, IssuedBefore(stored, freshId));
      var cleared := loaded.(state :=
        loaded.state.(active := None, status := if stored.status.Closed? then stored.status else Idle));
      Apply(World(stored, None, seen), Step.Restore(capacity, freshId)) == World(cleared.state, Some(cleared), seen)
  {
    assert seen + [] == seen;
  }

  lemma QuietWorld(stored: State, capacity: nat, freshId: TurnId, seen: seq<Event>)
    requires !Interrupted(stored)
    ensures var loaded := Loaded(stored, capacity, IssuedBefore(stored, freshId));
      Apply(World(stored, None, seen), Step.Restore(capacity, freshId)) == World(stored, Some(loaded), seen)
  {
    assert seen + [] == seen;
  }
}
