/** Reading the ring of recent events by cursor, and the polling stream on top of it
    (agent/runtime/events.py, agent/host/event_stream.py). */
module EventStream {
  import opened Common

  type EventId = string

  /** The newest events, at most `capacity`. */
  function Newest(log: seq<EventId>, capacity: nat): seq<EventId> {
    if |log| <= capacity then log else log[|log| - capacity..]
  }

  /** As many as may be kept, and the last ones. */
  lemma NewestIs(log: seq<EventId>, capacity: nat)
    ensures |Newest(log, capacity)| == if |log| < capacity then |log| else capacity
    ensures forall i :: 0 <= i < |Newest(log, capacity)| ==> Newest(log, capacity)[i] == log[|log| - |Newest(log, capacity)| + i]
  {
  }

  /** Position of the first occurrence; the length of the log when there is none. */
  function IndexOf(log: seq<EventId>, id: EventId): (i: nat)
    ensures i <= |log| && (i < |log| ==> log[i] == id)
    ensures i < |log| <==> id in log
  {
    if log == [] then 0
    else
      var i := IndexOf(log[..|log| - 1], id);
      assert log == log[..|log| - 1] + [log[|log| - 1]];
      if i < |log| - 1 then i else if log[|log| - 1] == id then |log| - 1 else |log|
  }

  lemma IndexOfAppended(log: seq<EventId>, more: EventId, id: EventId)
    requires id in log
    ensures IndexOf(log + [more], id) == IndexOf(log, id)
  {
    assert (log + [more])[..|log|] == log;
  }

  lemma OnlyIndex(log: seq<EventId>, i: nat)
    requires Distinct(log) && i < |log|
    ensures IndexOf(log, log[i]) == i
  {
  }

  // ---------------------------------------------------------------- the ring

  datatype Batch = Batch(events: seq<EventId>, expired: bool, latest: Option<EventId>)

  class EventRing {
    const capacity: nat
    var ring: seq<EventId>
    ghost var log: seq<EventId>   // every event since the process started, retained ones of before first

    ghost predicate Valid()
      reads this
    {
      capacity > 0 && ring == Newest(log, capacity) && Distinct(log)
    }

    constructor (capacity: nat, restored: seq<EventId>)
      requires capacity > 0 && Distinct(restored)
      ensures Valid() && this.capacity == capacity && log == Newest(restored, capacity)
    {
      this.capacity := capacity;
      ring, log := Newest(restored, capacity), Newest(restored, capacity);
    }

    method Append(id: EventId)
      requires Valid() && id !in log
      modifies this
      ensures Valid() && log == old(log) + [id]
    {
      ring := ring + [id];
      if |ring| > capacity {
        ring := ring[1..];
      }
      log := log + [id];
    }

    /** Everything retained without a cursor; what follows the cursor if it is retained; nothing, and the
        note that it expired, if it is not. */
    method Read(after: Option<EventId>) returns (batch: Batch)
      requires Valid()
      ensures batch.expired <==> after.Some? && after.value !in Newest(log, capacity)
      ensures after.None? ==> batch.events == Newest(log, capacity)
      ensures after.Some? && batch.expired ==> batch.events == []
      ensures after.Some? && !batch.expired ==> after.value in log && batch.events == log[IndexOf(log, after.value) + 1..]
      ensures batch.latest == if log == [] then None else Some(log[|log| - 1])
    {
      var latest := if ring == [] then None else Some(ring[|ring| - 1]);
      if after.None? {
        return Batch(ring, false, latest);
      }
      var position := 0;
      while position < |ring| && ring[position] != after.value
        invariant 0 <= position <= |ring| && after.value !in ring[..position]
      {
        position := position + 1;
      }
      if position == |ring| {
        assert ring[..position] == ring;
        return Batch([], true, latest);
      }
      OnlyIndex(log, |log| - |ring| + position);
      batch := Batch(ring[position + 1..], false, latest);
    }
  }

  // ---------------------------------------------------------------- frames and what they promise

  datatype Frame = EventFrame(id: EventId) | Snapshot(cursor: Option<EventId>)

  /** Where a reader stands in the log. */
  datatype Place = Anywhere | At(position: nat) | Broken

  /** An event frame carries the event right behind the place; a snapshot never goes back. */
  function Follow(log: seq<EventId>, place: Place, frame: Frame): Place {
    match frame
    case EventFrame(id) =>
      if id !in log || place.Broken? then Broken
      else if place.At? && IndexOf(log, id) != place.position + 1 then Broken
      else At(IndexOf(log, id))
    case Snapshot(None) => if place.Anywhere? then Anywhere else Broken
    case Snapshot(Some(id)) =>
      if id !in log || place.Broken? || (place.At? && IndexOf(log, id) < place.position) then Broken
      else At(IndexOf(log, id))
  }

  function FollowAll(log: seq<EventId>, place: Place, frames: seq<Frame>): Place {
    if frames == [] then place
    else Follow(log, FollowAll(log, place, frames[..|frames| - 1]), frames[|frames| - 1])
  }

  lemma FollowedNext(log: seq<EventId>, place: Place, frames: seq<Frame>, frame: Frame)
    ensures FollowAll(log, place, frames + [frame]) == Follow(log, FollowAll(log, place, frames), frame)
  {
    assert (frames + [frame])[..|frames|] == frames;
  }

  /** A reader stands at the event of the frame it was sent last. */
  lemma PlaceIsTheLastFrame(log: seq<EventId>, place: Place, frames: seq<Frame>, frame: Frame)
    requires FollowAll(log, place, frames + [frame]).At?
    ensures var at := FollowAll(log, place, frames + [frame]).position;
      at < |log| && (frame == EventFrame(log[at]) || frame == Snapshot(Some(log[at])))
  {
    FollowedNext(log, place, frames, frame);
  }

  /** A longer log does not change what was right. */
  lemma {:induction false} FollowedStays(log: seq<EventId>, more: EventId, place: Place, frames: seq<Frame>)
    requires FollowAll(log, place, frames) != Broken
    ensures FollowAll(log + [more], place, frames) == FollowAll(log, place, frames)
  {
    if frames != [] {
      var frame := frames[|frames| - 1];
      FollowedStays(log, more, place, frames[..|frames| - 1]);
      if frame.EventFrame? {
        IndexOfAppended(log, more, frame.id);
      } else if frame.cursor.Some? {
        IndexOfAppended(log, more, frame.cursor.value);
      }
    }
  }

  /** Event frames behind a place are the consecutive log: no gap and no duplicate. */
  lemma {:induction false} EventFramesAreTheLog(log: seq<EventId>, position: nat, frames: seq<Frame>)
    requires FollowAll(log, At(position), frames) != Broken
    requires forall k :: 0 <= k < |frames| ==> frames[k].EventFrame?
    ensures FollowAll(log, At(position), frames) == At(position + |frames|)
    ensures frames != [] ==> position + |frames| < |log|
    ensures forall k :: 0 <= k < |frames| && position + 1 + k < |log| ==> frames[k].id == log[position + 1 + k]
  {
    if frames != [] {
      EventFramesAreTheLog(log, position, frames[..|frames| - 1]);
    }
  }

  /** No event is sent twice, snapshots in between or not. */
  lemma {:induction false} PlacesNeverGoBack(log: seq<EventId>, position: nat, frames: seq<Frame>)
    requires FollowAll(log, At(position), frames) != Broken
    ensures FollowAll(log, At(position), frames).At?
    ensures FollowAll(log, At(position), frames).position >= position
    ensures forall k :: 0 <= k < |frames| && frames[k].EventFrame? ==>
      frames[k].id in log && position < IndexOf(log, frames[k].id) <= FollowAll(log, At(position), frames).position
    ensures forall k, l :: 0 <= k < l < |frames| && frames[k].EventFrame? && frames[l].EventFrame? ==> frames[k].id != frames[l].id
  {
    if frames != [] {
      var n := |frames| - 1;
      PlacesNeverGoBack(log, position, frames[..n]);
      assert forall k :: 0 <= k < n ==> frames[..n][k] == frames[k];
    }
  }

  // ---------------------------------------------------------------- the polling stream

  /** What one pass of the loop meets: how many events arrive while each of its frames is sent, the host failure
      at its two looks, and how many events arrive while it waits for the next pass. */
  datatype Plan = Plan(arrives: nat -> nat, failureThen: Option<string>, failureNow: Option<string>, whileWaiting: nat)

  ghost predicate Quiet(plan: Plan) {
    forall k: nat :: plan.arrives(k) == 0
  }

  /** The reader has everything up to this position. */
  predicate Reached(place: Place, position: int) {
    place.At? && place.position >= position
  }

  class EventStreamAdapter {
    const events: EventRing
    ghost const start: Place
    var cursor: Option<EventId>
    var pending: seq<EventId>                // read, not yet sent
    var reportedHostFailure: Option<string>
    var frames: seq<Frame>
    ghost var from: nat                      // where the pending events are in the log

    /** What was sent follows the log, the cursor is where it left off, and what is pending comes next. */
    ghost predicate Valid()
      reads this, events
    {
      && events.Valid()
      && Placed(events.log, FollowAll(events.log, start, frames), cursor)
      && PendingFollows(events.log, FollowAll(events.log, start, frames), pending, from)
    }

    /** A cursor the log knows is a place; another one, or none, promises nothing yet. */
    constructor (events: EventRing, afterEventId: Option<EventId>)
      requires events.Valid()
      ensures Valid() && this.events == events && cursor == afterEventId && frames == [] && pending == []
      ensures start == if afterEventId.Some? && afterEventId.value in events.log
                       then At(IndexOf(events.log, afterEventId.value)) else Anywhere
    {
      this.events := events;
      cursor, pending, reportedHostFailure, frames, from := afterEventId, [], None, [], 0;
      start := if afterEventId.Some? && afterEventId.value in events.log
               then At(IndexOf(events.log, afterEventId.value)) else Anywhere;
    }

    /** Something happens in the Thread while the stream waits; its id is no one's cursor yet. */
    method EventArrives(id: EventId)
      requires Valid() && id !in events.log && cursor != Some(id)
      modifies events
      ensures Valid() && events.log == old(events.log) + [id]
      ensures FollowAll(events.log, start, frames) == old(FollowAll(events.log, start, frames))
    {
      FollowedStays(events.log, id, start, frames);
      if cursor.Some? && cursor.value in events.log {
        IndexOfAppended(events.log, id, cursor.value);
      }
      events.Append(id);
    }

    /** Asks for what follows the cursor; an expired cursor is answered by a snapshot of the newest state,
        which also shows the host failure there is. */
    method Poll(failure: Option<string>)
      requires Valid() && pending == []
      modifies this
      ensures Valid()
      ensures var newest := if events.log == [] then None else Some(events.log[|events.log| - 1]);
        if old(cursor).Some? && old(cursor).value !in Newest(events.log, events.capacity)
        then frames == old(frames) + [Snapshot(newest)] && cursor == newest && pending == [] && reportedHostFailure == failure
        else
          && frames == old(frames) && cursor == old(cursor) && reportedHostFailure == old(reportedHostFailure)
          && pending == if cursor.None? then Newest(events.log, events.capacity) else events.log[IndexOf(events.log, cursor.value) + 1..]
      ensures from + |pending| == |events.log|
      ensures pending == [] && events.log != [] ==> Reached(FollowAll(events.log, start, frames), |events.log| - 1)
    {
      var batch := events.Read(cursor);
      if batch.expired {
        SendSnapshot(batch.latest);
        reportedHostFailure := failure;
      } else {
        from := if cursor.None? then |events.log| - |batch.events| else IndexOf(events.log, cursor.value) + 1;
        pending := batch.events;
      }
    }

    method SendSnapshot(newest: Option<EventId>)
      requires Valid() && pending == []
      requires newest == if events.log == [] then None else Some(events.log[|events.log| - 1])
      modifies this`frames, this`cursor, this`from
      ensures Valid() && frames == old(frames) + [Snapshot(newest)] && cursor == newest && from == |events.log|
      ensures events.log != [] ==> Reached(FollowAll(events.log, start, frames), |events.log| - 1)
    {
      FollowedNext(events.log, start, frames, Snapshot(newest));
      NewestIsLast(events.log);
      frames := frames + [Snapshot(newest)];
      cursor := newest;
      from := |events.log|;
    }

    /** Sends the next event of the batch. */
    method Deliver()
      requires Valid() && pending != []
      modifies this
      ensures Valid()
      ensures frames == old(frames) + [EventFrame(old(pending[0]))] && cursor == Some(old(pending[0]))
      ensures reportedHostFailure == old(reportedHostFailure)
      ensures pending == old(pending)[1..] && from == old(from) + 1
      ensures FollowAll(events.log, start, frames) == At(old(from))
    {
      FollowedNext(events.log, start, frames, EventFrame(pending[0]));
      OnlyIndex(events.log, from);
      frames := frames + [EventFrame(pending[0])];
      cursor := Some(pending[0]);
      pending := pending[1..];
      from := from + 1;
    }

    /** Behind a batch, a new host failure is reported by a snapshot, once. */
    method CheckHost(failure: Option<string>)
      requires Valid() && pending == []
      modifies this
      ensures Valid() && pending == []
      ensures var newest := if events.log == [] then None else Some(events.log[|events.log| - 1]);
        if failure.Some? && failure != old(reportedHostFailure)
        then frames == old(frames) + [Snapshot(newest)] && cursor == newest
        else frames == old(frames) && cursor == old(cursor)
      ensures forall position: nat :: position < |events.log| && Reached(old(FollowAll(events.log, start, frames)), position) ==>
        Reached(FollowAll(events.log, start, frames), position)
      ensures reportedHostFailure == if failure.Some? then failure else None
    {
      if failure.Some? && failure != reportedHostFailure {
        var batch := events.Read(None);
        SendSnapshot(batch.latest);
        reportedHostFailure := failure;
      } else if failure.None? {
        reportedHostFailure := None;
      }
    }

    /** Whether the coming events are the next of `supply`, and none of them has the id the reader came with. */
    ghost predicate Supplied(base: seq<EventId>, supply: seq<EventId>, used: nat)
      reads this, events
    {
      && Distinct(base + supply) && used <= |supply| && events.log == base + supply[..used]
      && (cursor.Some? ==> cursor.value in events.log || cursor.value !in supply)
    }

    /** So many events arrive, as far as there are any. */
    method Arrivals(arrivals: nat, supply: seq<EventId>, used: nat, ghost base: seq<EventId>) returns (now: nat)
      requires Valid() && Supplied(base, supply, used)
      modifies events
      ensures Valid() && Supplied(base, supply, now)
      ensures now == if used + arrivals < |supply| then used + arrivals else |supply|
      ensures FollowAll(events.log, start, frames) == old(FollowAll(events.log, start, frames))
    {
      now := used;
      while now < used + arrivals && now < |supply|
        invariant Valid() && Supplied(base, supply, now) && used <= now <= used + arrivals
        invariant FollowAll(events.log, start, frames) == old(FollowAll(events.log, start, frames))
      {
        NextIsNew(base, supply, now);
        EventArrives(supply[now]);
        now := now + 1;
      }
    }

    /** Sends the next event of the batch while others arrive. `due` is how many there were at the poll. */
    method DeliverNext(arrivals: nat, supply: seq<EventId>, used: nat, ghost base: seq<EventId>, ghost due: nat) returns (now: nat)
      requires Valid() && Supplied(base, supply, used) && pending != [] && from + |pending| == due
      modifies this, events
      ensures Valid() && Supplied(base, supply, now) && used <= now && (arrivals == 0 ==> now == used)
      ensures old(frames) <= frames && pending == old(pending)[1..] && from + |pending| == due
      ensures pending == [] ==> Reached(FollowAll(events.log, start, frames), due - 1)
    {
      Deliver();
      now := Arrivals(arrivals, supply, used, base);
    }

    /** Sends the batch, each event on its own. */
    method DeliverAll(plan: Plan, first: nat, supply: seq<EventId>, used: nat, ghost base: seq<EventId>, ghost due: nat)
      returns (now: nat, sent: nat)
      requires Valid() && Supplied(base, supply, used) && from + |pending| == due
      requires pending == [] && due > 0 ==> Reached(FollowAll(events.log, start, frames), due - 1)
      modifies this, events
      ensures Valid() && pending == [] && Supplied(base, supply, now) && used <= now
      ensures old(frames) <= frames && (Quiet(plan) ==> now == used)
      ensures due > 0 ==> Reached(FollowAll(events.log, start, frames), due - 1)
    {
      now, sent := used, first;
      while pending != []
        invariant Valid() && used <= now && Supplied(base, supply, now)
        invariant old(frames) <= frames && (Quiet(plan) ==> now == used) && from + |pending| == due
        invariant pending == [] && due > 0 ==> Reached(FollowAll(events.log, start, frames), due - 1)
        decreases |pending|
      {
        now := DeliverNext(plan.arrives(sent), supply, now, base, due);
        sent := sent + 1;
      }
    }

    /** The poll, and what arrives while its snapshot is sent. */
    method Begin(plan: Plan, supply: seq<EventId>, used: nat, ghost base: seq<EventId>) returns (now: nat, sent: nat)
      requires Valid() && pending == [] && Supplied(base, supply, used)
      modifies this, events
      ensures Valid() && used <= now && Supplied(base, supply, now)
      ensures old(frames) <= frames && (Quiet(plan) ==> now == used) && from + |pending| == |old(events.log)|
      ensures pending == [] && old(events.log) != [] ==>
        Reached(FollowAll(events.log, start, frames), |old(events.log)| - 1)
    {
      var before := |frames|;
      Poll(plan.failureThen);
      now, sent := used, 0;
      if |frames| > before {
        now := Arrivals(plan.arrives(0), supply, used, base);
        sent := 1;
      }
    }

    /** The host check, and what arrives while its snapshot is sent. */
    method End(plan: Plan, sent: nat, supply: seq<EventId>, used: nat, ghost base: seq<EventId>, ghost due: nat) returns (now: nat)
      requires Valid() && pending == [] && Supplied(base, supply, used) && due <= |events.log|
      requires due > 0 ==> Reached(FollowAll(events.log, start, frames), due - 1)
      modifies this, events
      ensures Valid() && pending == [] && Supplied(base, supply, now) && used <= now
      ensures old(frames) <= frames && (Quiet(plan) ==> now == used)
      ensures due > 0 ==> Reached(FollowAll(events.log, start, frames), due - 1)
    {
      var before := |frames|;
      CheckHost(plan.failureNow);
      now := used;
      if |frames| > before {
        now := Arrivals(plan.arrives(sent), supply, used, base);
      }
    }

    /** One pass of the loop: the batch behind the cursor, then the host check. While a frame is sent, the next
        events of `supply` may arrive. Everything there was at the poll is sent. */
    method Round(plan: Plan, supply: seq<EventId>, used: nat, ghost base: seq<EventId>) returns (now: nat)
      requires Valid() && pending == [] && Supplied(base, supply, used)
      modifies this, events
      ensures Valid() && pending == [] && used <= now && Supplied(base, supply, now)
      ensures old(frames) <= frames && (Quiet(plan) ==> now == used)
      ensures old(events.log) != [] ==> Reached(FollowAll(events.log, start, frames), |old(events.log)| - 1)
    {
      ghost var due := |events.log|;
      var sent;
      now, sent := Begin(plan, supply, used, base);
      now, sent := DeliverAll(plan, sent, supply, now, base, due);
      now := End(plan, sent, supply, now, base, due);
    }

    /** The polling loop, for any number of rounds and any arrivals: what was sent always follows the log, and it
        reaches everything that was there at the last poll. */
    method Stream(plans: seq<Plan>, supply: seq<EventId>) returns (ghost polled: nat)
      requires Valid() && pending == [] && Distinct(events.log + supply)
      requires cursor.Some? ==> cursor.value !in supply
      modifies this, events
      ensures Valid() && pending == [] && old(frames) <= frames
      ensures FollowAll(events.log, start, frames) != Broken
      ensures |old(events.log)| <= polled <= |events.log|
      ensures plans != [] && polled > 0 ==> Reached(FollowAll(events.log, start, frames), polled - 1)
      ensures plans != [] && Quiet(plans[|plans| - 1]) && plans[|plans| - 1].whileWaiting == 0 ==> polled == |events.log|
    {
      ghost var base := events.log;
      assert base + supply[..0] == base;
      var used := 0;
      polled := |base|;
      for i := 0 to |plans|
        invariant Valid() && pending == [] && Supplied(base, supply, used)
        invariant old(frames) <= frames && |base| <= polled <= |events.log|
        invariant i > 0 && polled > 0 ==> Reached(FollowAll(events.log, start, frames), polled - 1)
        invariant i > 0 && Quiet(plans[i - 1]) && plans[i - 1].whileWaiting == 0 ==> polled == |events.log|
      {
        polled := |events.log|;
        used := Round(plans[i], supply, used, base);
        used := Arrivals(plans[i].whileWaiting, supply, used, base);
      }
    }
  }

  lemma NextIsNew(base: seq<EventId>, supply: seq<EventId>, n: nat)
    requires Distinct(base + supply) && n < |supply|
    ensures supply[n] !in base + supply[..n] && base + supply[..n] + [supply[n]] == base + supply[..n + 1]
  {
    var all := base + supply;
    assert all[|base| + n] == supply[n];
    assert base + supply[..n] == all[..|base| + n];
    assert forall i :: 0 <= i < |base| + n ==> all[i] != supply[n];
  }

  ghost predicate Placed(log: seq<EventId>, place: Place, cursor: Option<EventId>) {
    if place.Anywhere? then cursor.None? || cursor.value !in log
    else cursor.Some? && cursor.value in log && place == At(IndexOf(log, cursor.value))
  }

  ghost predicate PendingFollows(log: seq<EventId>, place: Place, pending: seq<EventId>, from: nat) {
    pending != [] ==>
      from + |pending| <= |log| && pending == log[from..from + |pending|] && (place.At? ==> from == place.position + 1)
  }

  lemma NewestIsLast(log: seq<EventId>)
    requires Distinct(log)
    ensures log != [] ==> IndexOf(log, log[|log| - 1]) == |log| - 1
  {
    if log != [] {
      OnlyIndex(log, |log| - 1);
    }
  }
}
