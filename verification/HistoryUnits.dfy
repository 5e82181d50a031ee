/** Atomic units of a transcript: a message, or an assistant message with all the results of its calls
    (agent/runtime/history/units.py). */
module HistoryUnits {
  import opened Transcript

  /** Positions `start` to `end`, both inclusive. An open unit misses a result. */
  datatype Unit = Unit(start: nat, end: nat, tool: bool, complete: bool, system: bool)

  function IdSet(calls: seq<ToolCall>): set<CallId> {
    set i | 0 <= i < |calls| :: calls[i].id
  }

  /** The calls still expected after reading from `probe` on, and the last position that held a result. */
  function Scan(history: seq<Message>, expected: set<CallId>, probe: nat, end: nat): (set<CallId>, nat)
    decreases |history| - probe
  {
    if expected == {} || probe >= |history| then (expected, end)
    else if history[probe].Answer? && history[probe].callId in expected then
      Scan(history, expected - {history[probe].callId}, probe + 1, probe)
    else Scan(history, expected, probe + 1, end)
  }

  lemma {:induction false} ScanStays(history: seq<Message>, expected: set<CallId>, probe: nat, end: nat)
    requires end < probe && end < |history|
    ensures end <= Scan(history, expected, probe, end).1 < |history|
    decreases |history| - probe
  {
    if expected == {} || probe >= |history| {
    } else if history[probe].Answer? && history[probe].callId in expected {
      ScanStays(history, expected - {history[probe].callId}, probe + 1, probe);
    } else {
      ScanStays(history, expected, probe + 1, end);
    }
  }

  function HasSystem(messages: seq<Message>): bool {
    exists i :: 0 <= i < |messages| && messages[i].System?
  }

  function UnitAt(history: seq<Message>, index: nat): (unit: Unit)
    requires index < |history|
    ensures unit.start == index && index <= unit.end < |history|
  {
    var message := history[index];
    if message.Assistant? && message.calls != [] then
      ScanStays(history, IdSet(message.calls), index + 1, index);
      var (expected, last) := Scan(history, IdSet(message.calls), index + 1, index);
      var end := if expected == {} then last else |history| - 1;
      Unit(index, end, true, expected == {}, HasSystem(history[index..end + 1]))
    else
      Unit(index, index, message.Answer?, !message.Answer?, message.System?)
  }

  function ParseFrom(history: seq<Message>, index: nat): seq<Unit>
    requires index <= |history|
    decreases |history| - index
  {
    if index == |history| then []
    else
      var unit := UnitAt(history, index);
      [unit] + ParseFrom(history, unit.end + 1)
  }

  function Parse(history: seq<Message>): seq<Unit> { ParseFrom(history, 0) }

  /** Units that follow each other without gap or overlap, from `from` to `to`. */
  ghost predicate Tiles(units: seq<Unit>, from: nat, to: nat) {
    if units == [] then from == to
    else units[0].start == from && units[0].start <= units[0].end && Tiles(units[1..], units[0].end + 1, to)
  }

  lemma {:induction false} ParseTiles(history: seq<Message>, index: nat)
    requires index <= |history|
    ensures Tiles(ParseFrom(history, index), index, |history|)
    decreases |history| - index
  {
    if index < |history| {
      var unit := UnitAt(history, index);
      ParseTiles(history, unit.end + 1);
      assert ([unit] + ParseFrom(history, unit.end + 1))[1..] == ParseFrom(history, unit.end + 1);
    }
  }

  lemma {:induction false} TilesAscend(units: seq<Unit>, from: nat, to: nat, i: nat, j: nat)
    requires Tiles(units, from, to) && i < j < |units|
    ensures from <= units[i].start <= units[i].end < units[j].start <= units[j].end < to
  {
    if i == 0 {
      TileInside(units[1..], units[0].end + 1, to, j - 1);
    } else {
      TilesAscend(units[1..], units[0].end + 1, to, i - 1, j - 1);
    }
  }

  lemma {:induction false} TileInside(units: seq<Unit>, from: nat, to: nat, i: nat)
    requires Tiles(units, from, to) && i < |units|
    ensures from <= units[i].start <= units[i].end < to
  {
    if i > 0 {
      TileInside(units[1..], units[0].end + 1, to, i - 1);
      assert units[1..][i - 1] == units[i];
    }
    TilesForward(units[1..], units[0].end + 1, to);
  }

  lemma {:induction false} TilesForward(units: seq<Unit>, from: nat, to: nat)
    requires Tiles(units, from, to)
    ensures from <= to
  {
    if units != [] {
      TilesForward(units[1..], units[0].end + 1, to);
    }
  }

  // ---------------------------------------------------------------- complete units outlive appends

  lemma {:induction false} ScanStable(history: seq<Message>, more: seq<Message>, expected: set<CallId>, probe: nat, end: nat)
    requires probe <= |history| && Scan(history, expected, probe, end).0 == {}
    ensures Scan(history + more, expected, probe, end) == Scan(history, expected, probe, end)
    decreases |history| - probe
  {
    if expected == {} || probe >= |history| {
    } else if history[probe].Answer? && history[probe].callId in expected {
      ScanStable(history, more, expected - {history[probe].callId}, probe + 1, probe);
    } else {
      ScanStable(history, more, expected, probe + 1, end);
    }
  }

  lemma UnitStable(history: seq<Message>, more: seq<Message>, index: nat)
    requires index < |history| && UnitAt(history, index).complete
    ensures UnitAt(history + more, index) == UnitAt(history, index)
  {
    var message := history[index];
    if message.Assistant? && message.calls != [] {
      ScanStable(history, more, IdSet(message.calls), index + 1, index);
      var end := UnitAt(history, index).end;
      assert (history + more)[index..end + 1] == history[index..end + 1];
    }
  }

  ghost predicate CompleteTo(units: seq<Unit>, k: nat) {
    k <= |units| && forall i :: 0 <= i < k ==> units[i].complete
  }

  /** Appending to the transcript does not change the complete units at its beginning. */
  lemma {:induction false} CompletePrefixIsStable(history: seq<Message>, more: seq<Message>, index: nat, k: nat)
    requires index <= |history| && CompleteTo(ParseFrom(history, index), k)
    ensures k <= |ParseFrom(history + more, index)|
    ensures ParseFrom(history + more, index)[..k] == ParseFrom(history, index)[..k]
    decreases |history| - index
  {
    if k > 0 {
      var unit := UnitAt(history, index);
      var rest := ParseFrom(history, unit.end + 1);
      CompleteRest(unit, rest, k);
      UnitStable(history, more, index);
      CompletePrefixIsStable(history, more, unit.end + 1, k - 1);
      TakeCons(unit, ParseFrom(history + more, unit.end + 1), k);
      TakeCons(unit, rest, k);
    }
  }

  lemma CompleteRest(unit: Unit, rest: seq<Unit>, k: nat)
    requires 0 < k && CompleteTo([unit] + rest, k)
    ensures unit.complete && CompleteTo(rest, k - 1)
  {
    assert ([unit] + rest)[0] == unit;
    assert forall i :: 0 <= i < |rest| ==> rest[i] == ([unit] + rest)[i + 1];
  }

  lemma TakeCons(unit: Unit, rest: seq<Unit>, k: nat)
    requires 0 < k <= |rest| + 1
    ensures ([unit] + rest)[..k] == [unit] + rest[..k - 1]
  {
  }

  // ---------------------------------------------------------------- units by themselves

  function MessagesOf(history: seq<Message>, unit: Unit): seq<Message>
    requires unit.start <= unit.end < |history|
  {
    history[unit.start..unit.end + 1]
  }

  /** Messages that form one complete unit, whatever follows. */
  ghost predicate Atomic(messages: seq<Message>) {
    messages != [] && UnitAt(messages, 0).complete && UnitAt(messages, 0).end == |messages| - 1
  }

  lemma {:induction false} ScanShift(history: seq<Message>, k: nat, expected: set<CallId>, probe: nat, end: nat)
    requires k <= end < probe && k <= |history|
    ensures Scan(history[k..], expected, probe - k, end - k).0 == Scan(history, expected, probe, end).0
    ensures Scan(history[k..], expected, probe - k, end - k).1 + k == Scan(history, expected, probe, end).1
    decreases |history| - probe
  {
    if expected == {} || probe >= |history| {
    } else {
      assert history[k..][probe - k] == history[probe];
      if history[probe].Answer? && history[probe].callId in expected {
        ScanShift(history, k, expected - {history[probe].callId}, probe + 1, probe);
      } else {
        ScanShift(history, k, expected, probe + 1, end);
      }
    }
  }

  /** A completed scan needs nothing behind the last result it found. */
  lemma {:induction false} ScanCut(history: seq<Message>, expected: set<CallId>, probe: nat, end: nat, to: nat)
    requires end < probe <= |history| && end < |history|
    requires Scan(history, expected, probe, end).0 == {} && Scan(history, expected, probe, end).1 < to <= |history|
    ensures Scan(history[..to], expected, probe, end) == Scan(history, expected, probe, end)
    decreases |history| - probe
  {
    if expected == {} || probe >= |history| {
    } else {
      ScanStays(history, expected, probe, end);
      if history[probe].Answer? && history[probe].callId in expected {
        ScanStays(history, expected - {history[probe].callId}, probe + 1, probe);
        ScanCut(history, expected - {history[probe].callId}, probe + 1, probe, to);
      } else {
        ScanFindsLater(history, expected, probe + 1, end);
        ScanCut(history, expected, probe + 1, end, to);
      }
    }
  }

  lemma {:induction false} ScanFindsLater(history: seq<Message>, expected: set<CallId>, probe: nat, end: nat)
    requires expected != {} && Scan(history, expected, probe, end).0 == {}
    ensures probe <= Scan(history, expected, probe, end).1
    decreases |history| - probe
  {
    if probe < |history| {
      if history[probe].Answer? && history[probe].callId in expected {
        ScanStays(history, expected - {history[probe].callId}, probe + 1, probe);
      } else {
        ScanFindsLater(history, expected, probe + 1, end);
      }
    }
  }

  lemma CompleteUnitIsAtomic(history: seq<Message>, index: nat)
    requires index < |history| && UnitAt(history, index).complete
    ensures Atomic(MessagesOf(history, UnitAt(history, index)))
  {
    var unit := UnitAt(history, index);
    var messages := MessagesOf(history, unit);
    var message := history[index];
    assert messages[0] == message;
    if message.Assistant? && message.calls != [] {
      ScanShift(history, index, IdSet(message.calls), index + 1, index);
      ScanCut(history[index..], IdSet(message.calls), 1, 0, |messages|);
      assert history[index..][..|messages|] == messages;
    }
  }

  function Flatten(parts: seq<seq<Message>>): seq<Message> {
    if parts == [] then [] else parts[0] + Flatten(parts[1..])
  }

  /** Complete units laid end to end are parsed back into themselves. */
  ghost predicate PartsOf(units: seq<Unit>, history: seq<Message>, parts: seq<seq<Message>>) {
    && |units| == |parts|
    && forall i :: 0 <= i < |units| ==>
         units[i].start <= units[i].end < |history| && MessagesOf(history, units[i]) == parts[i]
  }

  lemma FirstPartParses(history: seq<Message>, from: nat, part: seq<Message>, rest: seq<Message>)
    requires Atomic(part) && from <= |history| && history[from..] == part + rest
    ensures from < |history|
    ensures var unit := UnitAt(history, from);
      unit.complete && unit.end + 1 == from + |part| && MessagesOf(history, unit) == part
    ensures history[from + |part|..] == rest
  {
    UnitStable(part, rest, 0);
    UnitShift(history, from);
    assert history[from..][..|part|] == part;
    assert history[from..][|part|..] == rest;
  }

  lemma HeadParses(history: seq<Message>, from: nat, parts: seq<seq<Message>>)
    requires parts != [] && Atomic(parts[0]) && from <= |history| && history[from..] == Flatten(parts)
    ensures from < |history| && from + |parts[0]| <= |history| && history[from + |parts[0]|..] == Flatten(parts[1..])
    ensures var unit := UnitAt(history, from);
      unit.complete && unit.start <= unit.end < |history| && MessagesOf(history, unit) == parts[0]
    ensures ParseFrom(history, from) == [UnitAt(history, from)] + ParseFrom(history, from + |parts[0]|)
    ensures parts[0] != []
  {
    FirstPartParses(history, from, parts[0], Flatten(parts[1..]));
    FirstOfParse(history, from);
  }

  lemma NothingParsesToNothing(history: seq<Message>, from: nat)
    requires from <= |history| && history[from..] == []
    ensures ParseFrom(history, from) == []
  {
    assert |history[from..]| == 0;
  }

  lemma {:induction false} AtomicPartsParseBack(history: seq<Message>, from: nat, parts: seq<seq<Message>>)
    requires forall i :: 0 <= i < |parts| ==> Atomic(parts[i])
    requires from <= |history| && history[from..] == Flatten(parts)
    ensures PartsOf(ParseFrom(history, from), history, parts) && CompleteTo(ParseFrom(history, from), |parts|)
    decreases |parts|
  {
    if parts == [] {
      NothingParsesToNothing(history, from);
    } else {
      HeadParses(history, from, parts);
      var unit, next := UnitAt(history, from), from + |parts[0]|;
      AtomicPartsParseBack(history, next, parts[1..]);
      ConsPartsOf(unit, ParseFrom(history, next), history, parts);
    }
  }

  lemma FirstOfParse(history: seq<Message>, from: nat)
    requires from < |history|
    ensures ParseFrom(history, from) == [UnitAt(history, from)] + ParseFrom(history, UnitAt(history, from).end + 1)
  {
  }

  lemma ConsPartsOf(unit: Unit, rest: seq<Unit>, history: seq<Message>, parts: seq<seq<Message>>)
    requires parts != [] && unit.complete && unit.start <= unit.end < |history| && MessagesOf(history, unit) == parts[0]
    requires PartsOf(rest, history, parts[1..]) && CompleteTo(rest, |parts| - 1)
    ensures PartsOf([unit] + rest, history, parts) && CompleteTo([unit] + rest, |parts|)
  {
    assert forall i :: 0 < i < |parts| ==> parts[i] == parts[1..][i - 1];
  }

  lemma UnitShift(history: seq<Message>, index: nat)
    requires index < |history|
    ensures UnitAt(history[index..], 0).end + index == UnitAt(history, index).end
    ensures UnitAt(history[index..], 0).complete == UnitAt(history, index).complete
  {
    var message := history[index];
    if message.Assistant? && message.calls != [] {
      ScanShift(history, index, IdSet(message.calls), index + 1, index);
    }
  }
}
