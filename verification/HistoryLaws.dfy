/** What the parser, the selection and the checkpoint decide, in terms of the messages alone (agent/runtime/history,
    agent/runtime/context_manager.py). */
module HistoryLaws {
  import opened Common
  import opened Transcript
  import opened HistoryUnits
  import opened HistorySelection
  import opened Compaction
  import opened CompactionCoverage
  import opened ContextReduction

  // ---------------------------------------------------------------- units

  /** A result for the call stands at a position from `from` on, before `to`. */
  ghost predicate AnsweredIn(history: seq<Message>, id: CallId, from: nat, to: nat) {
    exists j :: from <= j < to && j < |history| && history[j].Answer? && history[j].callId == id
  }

  ghost predicate AllAnsweredIn(history: seq<Message>, ids: set<CallId>, from: nat, to: nat) {
    forall id :: id in ids ==> AnsweredIn(history, id, from, to)
  }

  lemma {:induction false} ScanFindsAll(history: seq<Message>, expected: set<CallId>, probe: nat, end: nat)
    requires end < probe && end < |history|
    ensures var (left, last) := Scan(history, expected, probe, end);
      && (left == {} <==> AllAnsweredIn(history, expected, probe, |history|))
      && (left == {} && expected != {} ==>
            probe <= last && AllAnsweredIn(history, expected, probe, last + 1) && !AllAnsweredIn(history, expected, probe, last))
    decreases |history| - probe
  {
    if expected == {} {
    } else if probe >= |history| {
      NoneAnsweredBehind(history, expected, probe);
    } else if history[probe].Answer? && history[probe].callId in expected {
      var id := history[probe].callId;
      ScanFindsAll(history, expected - {id}, probe + 1, probe);
      var last := Scan(history, expected - {id}, probe + 1, probe).1;
      OneAnswered(history, expected, id, probe, |history|);
      ScanStays(history, expected - {id}, probe + 1, probe);
      OneAnswered(history, expected, id, probe, last + 1);
      if last > probe {
        OneAnswered(history, expected, id, probe, last);
      } else {
        NoneAnsweredBehind(history, expected, probe);
      }
    } else {
      ScanFindsAll(history, expected, probe + 1, end);
      var last := Scan(history, expected, probe + 1, end).1;
      NotAnsweredHere(history, expected, probe, |history|);
      NotAnsweredHere(history, expected, probe, last + 1);
      NotAnsweredHere(history, expected, probe, last);
    }
  }

  lemma NoneAnsweredBehind(history: seq<Message>, expected: set<CallId>, probe: nat)
    requires expected != {}
    ensures !AllAnsweredIn(history, expected, probe, probe)
    ensures probe >= |history| ==> !AllAnsweredIn(history, expected, probe, |history|)
  {
    var id :| id in expected;
    assert !AnsweredIn(history, id, probe, probe);
    assert probe >= |history| ==> !AnsweredIn(history, id, probe, |history|);
  }

  lemma OneAnswered(history: seq<Message>, expected: set<CallId>, id: CallId, probe: nat, to: nat)
    requires probe < |history| && history[probe].Answer? && history[probe].callId == id && id in expected && probe < to
    ensures AllAnsweredIn(history, expected, probe, to) <==> AllAnsweredIn(history, expected - {id}, probe + 1, to)
  {
    assert AnsweredIn(history, id, probe, to);
    forall other | other != id ensures AnsweredIn(history, other, probe, to) <==> AnsweredIn(history, other, probe + 1, to) {
    }
  }

  lemma NotAnsweredHere(history: seq<Message>, expected: set<CallId>, probe: nat, to: nat)
    requires probe < |history| && !(history[probe].Answer? && history[probe].callId in expected)
    ensures AllAnsweredIn(history, expected, probe, to) <==> AllAnsweredIn(history, expected, probe + 1, to)
  {
    forall id | id in expected ensures AnsweredIn(history, id, probe, to) <==> AnsweredIn(history, id, probe + 1, to) {
    }
  }

  /** A unit is a message, or an assistant message and everything up to the result that answers the last of its
      calls; it is open while a call has no result, and then reaches to the end. */
  lemma UnitIs(history: seq<Message>, index: nat)
    requires index < |history|
    ensures var message, unit := history[index], UnitAt(history, index);
      && unit.start == index
      && (unit.tool <==> message.Answer? || (message.Assistant? && message.calls != []))
      && (unit.system <==> exists i :: index <= i <= unit.end && history[i].System?)
      && (!(message.Assistant? && message.calls != []) ==> unit.end == index && (unit.complete <==> !message.Answer?))
      && (message.Assistant? && message.calls != [] ==> CallsUnitIs(history, index, unit))
  {
    var message, unit := history[index], UnitAt(history, index);
    if message.Assistant? && message.calls != [] {
      assert message.calls[0].id in IdSet(message.calls);
      ScanFindsAll(history, IdSet(message.calls), index + 1, index);
      SystemInside(history, index, unit.end);
    }
  }

  ghost predicate CallsUnitIs(history: seq<Message>, index: nat, unit: Unit)
    requires index < |history| && history[index].Assistant?
  {
    var ids := IdSet(history[index].calls);
    && (unit.complete <==> AllAnsweredIn(history, ids, index + 1, |history|))
    && (unit.complete ==> AllAnsweredIn(history, ids, index + 1, unit.end + 1) && !AllAnsweredIn(history, ids, index + 1, unit.end))
    && (!unit.complete ==> unit.end == |history| - 1)
  }

  lemma SystemInside(history: seq<Message>, start: nat, end: nat)
    requires start <= end < |history|
    ensures HasSystem(history[start..end + 1]) <==> exists i :: start <= i <= end && history[i].System?
  {
    var part := history[start..end + 1];
    if i :| start <= i <= end && history[i].System? {
      assert part[i - start].System?;
    }
  }

  // ---------------------------------------------------------------- the selection

  /** No newer unit holds a call or a result. */
  ghost predicate IsNewestTool(units: seq<Unit>, i: nat)
    requires i < |units|
  {
    units[i].tool && forall j :: i < j < |units| ==> !units[j].tool
  }

  /** A selection keeps system messages, and of what the checkpoint does not cover the open units, the newest tool
      interaction, and everything from the cut on. */
  lemma SelectionKeepsExactly(units: seq<Unit>, covered: int, target: nat, tokens: set<nat> -> nat, retained: set<nat>, cut: nat, i: nat)
    requires Selected(units, covered, target, tokens, retained, cut) && i < |units|
    ensures i in retained <==>
      units[i].system || (units[i].end > covered && (!units[i].complete || IsNewestTool(units, i) || cut <= i))
  {
    if IsNewestTool(units, i) {
      assert LatestTool(units) == i;
    }
  }

  /** The walk stops only once what it keeps meets the target, and before each unit it took the target was not met. */
  lemma SelectionMeetsTarget(units: seq<Unit>, covered: int, target: nat, tokens: set<nat> -> nat, retained: set<nat>, cut: nat)
    requires Selected(units, covered, target, tokens, retained, cut)
    ensures cut == 0 || tokens(retained) >= target
    ensures forall i :: cut <= i < |units| && Walked(units, covered, i) ==>
      var before := set j | j in retained && (j > i || !Walked(units, covered, j));
      before == {} || tokens(before) < target
  {
    forall i | cut <= i < |units| && Walked(units, covered, i)
      ensures var before := set j | j in retained && (j > i || !Walked(units, covered, j));
        before == {} || tokens(before) < target
    {
      var before := set j | j in retained && (j > i || !Walked(units, covered, j));
      assert Open(units, covered, i);
      assert before == WalkedTo(units, covered, i + 1);
    }
  }

  /** A unit that only the walk can take. */
  ghost predicate Walked(units: seq<Unit>, covered: int, i: nat) {
    i < |units| && !units[i].system && units[i].end > covered && units[i].complete && !IsNewestTool(units, i)
  }

  // ---------------------------------------------------------------- the coverage

  /** The coverage ends where the hint says, if a unit that was sent ends there, and else with the last unit sent. */
  lemma CoverageEndsAt(units: seq<Unit>, sent: seq<nat>, hint: Option<int>)
    requires sent != [] && (forall k :: 0 <= k < |sent| ==> sent[k] < |units|) && Ascending(units)
    requires forall j, k :: 0 <= j < k < |sent| ==> sent[j] < sent[k]
    ensures var end := CoverageEnd(Ends(units, sent), hint);
      if hint.Some? && EndsASent(units, sent, hint.value) then end == hint.value else end == units[sent[|sent| - 1]].end
  {
    var ends := Ends(units, sent);
    assert forall k :: 0 <= k < |ends| ==> ends[k] <= ends[|ends| - 1];
    if hint.Some? && EndsASent(units, sent, hint.value) {
      var k :| 0 <= k < |sent| && units[sent[k]].end == hint.value;
      assert ends[k] == hint.value;
    }
  }

  ghost predicate EndsASent(units: seq<Unit>, sent: seq<nat>, end: int)
    requires forall k :: 0 <= k < |sent| ==> sent[k] < |units|
  {
    exists k :: 0 <= k < |sent| && units[sent[k]].end == end
  }

  /** The hint is the end of the newest unit that is neither kept raw nor covered. */
  lemma {:induction false} HintIs(units: seq<Unit>, retained: set<nat>, covered: int, n: nat, end: int)
    requires n <= |units| && Ascending(units)
    ensures CompactEnd(units, retained, covered, n) == Some(end) <==>
      exists i :: 0 <= i < n && i !in retained && units[i].end == end > covered
        && forall j :: i < j < n ==> j in retained || units[j].end <= covered
  {
    if n > 0 {
      HintIs(units, retained, covered, n - 1, end);
    }
  }

  // ---------------------------------------------------------------- the checkpoint

  lemma UnitCut(history: seq<Message>, index: nat, to: nat)
    requires index < |history| && UnitAt(history, index).complete && UnitAt(history, index).end < to <= |history|
    ensures UnitAt(history[..to], index) == UnitAt(history, index)
  {
    var message := history[index];
    if message.Assistant? && message.calls != [] {
      ScanCut(history, IdSet(message.calls), index + 1, index, to);
      var end := UnitAt(history, index).end;
      assert history[..to][index..end + 1] == history[index..end + 1];
    }
  }

  /** Cutting the history behind complete units keeps these. */
  lemma {:induction false} CutKeepsUnits(history: seq<Message>, to: nat, index: nat, k: nat)
    requires index <= to <= |history| && CompleteTo(ParseFrom(history, index), k)
    requires forall i :: 0 <= i < k ==> ParseFrom(history, index)[i].end < to
    ensures k <= |ParseFrom(history[..to], index)|
    ensures ParseFrom(history[..to], index)[..k] == ParseFrom(history, index)[..k]
    decreases k
  {
    if k > 0 {
      var unit := UnitAt(history, index);
      var rest := ParseFrom(history, unit.end + 1);
      FirstOfParse(history, index);
      CompleteRest(unit, rest, k);
      RestBelow(unit, rest, k, to);
      CutKeepsUnits(history, to, unit.end + 1, k - 1);
      UnitCut(history, index, to);
      FirstOfParse(history[..to], index);
      TakeCons(unit, rest, k);
      TakeCons(unit, ParseFrom(history[..to], unit.end + 1), k);
    }
  }

  lemma RestBelow(unit: Unit, rest: seq<Unit>, k: nat, to: nat)
    requires 0 < k <= |rest| + 1 && forall i :: 0 <= i < k ==> ([unit] + rest)[i].end < to
    ensures unit.end < to && forall i :: 0 <= i < k - 1 ==> rest[i].end < to
  {
    assert ([unit] + rest)[0] == unit;
    assert forall i :: 0 <= i < |rest| ==> rest[i] == ([unit] + rest)[i + 1];
  }

  /** A checkpoint is used for exactly the histories that begin with what it covers. */
  lemma CheckpointFitsIff(checkpoint: Checkpoint, history: seq<Message>, other: seq<Message>)
    requires ValidFor(checkpoint, history) && Settled(Parse(history), checkpoint.coveredThrough)
    ensures var end := checkpoint.coveredThrough + 1;
      Usable(Some(checkpoint), other) ==
        if end <= |other| && other[..end] == history[..end] then Some(checkpoint) else None
  {
    var end := checkpoint.coveredThrough + 1;
    if end <= |other| && other[..end] == history[..end] && end > 0 {
      var k :| 0 <= k < |Parse(history)| && Parse(history)[k].end == checkpoint.coveredThrough;
      UnitsInside(history);
      CutKeepsUnits(history, end, 0, k + 1);
      UnitStays(history, other, end, k);
    }
  }

  lemma UnitStays(history: seq<Message>, other: seq<Message>, end: nat, k: nat)
    requires k < |Parse(history)| && CompleteTo(Parse(history), k + 1)
    requires end <= |history| && end <= |other| && other[..end] == history[..end]
    requires k + 1 <= |Parse(history[..end])| && Parse(history[..end])[..k + 1] == Parse(history)[..k + 1]
    ensures k < |Parse(other)| && Parse(other)[k] == Parse(history)[k]
  {
    var base, more := other[..end], other[end..];
    var units := Parse(history)[..k + 1];
    forall i | 0 <= i < k + 1 ensures Parse(base)[i].complete {
      assert Parse(base)[i] == Parse(base)[..k + 1][i] && Parse(history)[i] == units[i];
    }
    CompletePrefixIsStable(base, more, 0, k + 1);
    assert base + more == other;
    assert Parse(other)[k] == Parse(other)[..k + 1][k] && Parse(history)[k] == units[k];
  }

  /** The selector goes by the checkpoint exactly when the pruned copy still begins with what it covers, and by nothing
      covered otherwise. */
  lemma SelectorCoverageIs(checkpoint: Checkpoint, history: seq<Message>, pruned: seq<Message>)
    requires ValidFor(checkpoint, history) && Settled(Parse(history), checkpoint.coveredThrough)
    ensures var end := checkpoint.coveredThrough + 1;
      SelectorCoverage(Some(checkpoint), pruned) ==
        if end <= |pruned| && pruned[..end] == history[..end] then checkpoint.coveredThrough else -1
    ensures SelectorCoverage(None, pruned) == -1
  {
    CheckpointFitsIff(checkpoint, history, pruned);
  }

  /** An honest checkpoint: every message it covers is a system message or belongs to a unit that was sent. */
  lemma HonestCovers(history: seq<Message>, checkpoint: Checkpoint, sent: set<nat>, position: nat) returns (i: nat)
    requires HonestAt(history, Some(checkpoint), sent) && SoundAt(history, Some(checkpoint))
    requires position <= checkpoint.coveredThrough
    ensures i < |Parse(history)| && Parse(history)[i].start <= position <= Parse(history)[i].end
    ensures Parse(history)[i].system || i in sent
  {
    UnitsInside(history);
    ParseTiles(history, 0);
    i := TileAt(Parse(history), 0, |history|, position);
    var k :| 0 <= k < |Parse(history)| && Parse(history)[k].end == checkpoint.coveredThrough;
    if i > k {
      TilesAscend(Parse(history), 0, |history|, k, i);
    }
  }

  lemma {:induction false} TileAt(units: seq<Unit>, from: nat, to: nat, position: nat) returns (i: nat)
    requires Tiles(units, from, to) && from <= position < to
    ensures i < |units| && units[i].start <= position <= units[i].end
  {
    if position <= units[0].end {
      i := 0;
    } else {
      i := TileAt(units[1..], units[0].end + 1, to, position);
      i := i + 1;
    }
  }
}
