/** Rolling semantic compaction: what is sent to the summarizer, and how far a checkpoint may then claim
    to cover the transcript (agent/runtime/history/compaction.py). */
module Compaction {
  import opened Common
  import opened Transcript
  import opened HistoryUnits
  import opened HistorySelection

  /** The fingerprint of a prefix is taken to identify it, so the prefix itself stands for it. */
  datatype Checkpoint = Checkpoint(coveredThrough: int, anchor: seq<Message>, summary: string)

  predicate ValidFor(checkpoint: Checkpoint, history: seq<Message>) {
    && -1 <= checkpoint.coveredThrough < |history|
    && (checkpoint.coveredThrough >= 0 ==>
          exists i :: 0 <= i < |Parse(history)| && Parse(history)[i].end == checkpoint.coveredThrough)
    && checkpoint.anchor == history[..checkpoint.coveredThrough + 1]
  }

  // ---------------------------------------------------------------- the source of one request

  lemma {:induction false} FlattenAppend(parts: seq<seq<Message>>, part: seq<Message>)
    ensures Flatten(parts + [part]) == Flatten(parts) + part
  {
    if parts == [] {
      assert parts + [part] == [part];
      assert Flatten([part]) == part + Flatten([]);
    } else {
      assert (parts + [part])[0] == parts[0] && (parts + [part])[1..] == parts[1..] + [part];
      FlattenAppend(parts[1..], part);
    }
  }

  lemma FlattenNext(parts: seq<seq<Message>>, k: nat)
    requires k < |parts|
    ensures Flatten(parts[..k + 1]) == Flatten(parts[..k]) + parts[k]
  {
    FlattenAppend(parts[..k], parts[k]);
    assert parts[..k + 1] == parts[..k] + [parts[k]];
  }

  lemma {:induction false} FlattenPrefix(parts: seq<seq<Message>>, k: nat, n: nat)
    requires k <= n <= |parts|
    ensures Flatten(parts[..k]) <= Flatten(parts[..n])
    ensures k < n && (forall i :: 0 <= i < n ==> parts[i] != []) ==> |Flatten(parts[..k])| < |Flatten(parts[..n])|
  {
    if k < n {
      FlattenPrefix(parts, k, n - 1);
      FlattenNext(parts, n - 1);
    }
  }

  /** How many leading parts a budgeted request holds: all of them if they fit together, otherwise up to
      the first one that does not fit behind the ones before it. */
  ghost predicate Bounded(parts: seq<seq<Message>>, size: seq<Message> -> nat, budget: Option<nat>, k: nat) {
    && k <= |parts|
    && if budget.None? || size(Flatten(parts)) <= budget.value then k == |parts|
       else k < |parts| && size(Flatten(parts[..k + 1])) > budget.value
            && forall i :: 0 < i <= k ==> size(Flatten(parts[..i])) <= budget.value
  }

  /** The longest chronological prefix of whole units that the request budget allows; None when not even
      the first unit fits. The size of a request is any function of its source. */
  method BoundedSource(parts: seq<seq<Message>>, size: seq<Message> -> nat, budget: Option<nat>)
    returns (kept: Option<nat>)
    requires parts != []
    ensures kept.Some? ==> 0 < kept.value && Bounded(parts, size, budget, kept.value)
    ensures kept.Some? && budget.Some? ==> size(Flatten(parts[..kept.value])) <= budget.value
    ensures kept.None? ==> budget.Some? && size(parts[0]) > budget.value
  {
    assert parts[..|parts|] == parts;
    if budget.None? || size(Flatten(parts)) <= budget.value {
      return Some(|parts|);
    }
    var k := 0;
    while k < |parts| && size(Flatten(parts[..k + 1])) <= budget.value
      invariant 0 <= k <= |parts|
      invariant forall i :: 0 < i <= k ==> size(Flatten(parts[..i])) <= budget.value
    {
      k := k + 1;
    }
    if k == 0 {
      FlattenNext(parts, 0);
      assert Flatten(parts[..1]) == parts[0];
      return None;
    }
    kept := Some(k);
  }

  /** How many leading parts make up exactly this source; 0 when none do, or an open one is in between. */
  method UnitsMatchingSource(parts: seq<seq<Message>>, complete: seq<bool>, source: seq<Message>) returns (matched: nat)
    requires |complete| == |parts| && forall i :: 0 <= i < |parts| ==> parts[i] != []
    ensures matched <= |parts|
    ensures matched > 0 ==> Flatten(parts[..matched]) == source && forall i :: 0 <= i < matched ==> complete[i]
    ensures matched == 0 && source != [] ==>
      forall k :: 0 < k <= |parts| && Flatten(parts[..k]) == source ==> !(forall i :: 0 <= i < k ==> complete[i])
  {
    if source == [] {
      return 0;
    }
    var cursor: nat := 0;
    matched := 0;
    while matched < |parts| && cursor != |source|
      invariant matched <= |parts| && cursor <= |source|
      invariant Flatten(parts[..matched]) == source[..cursor]
      invariant forall i :: 0 <= i < matched ==> complete[i]
      decreases |parts| - matched
    {
      FlattenNext(parts, matched);
      var count := |parts[matched]|;
      if !complete[matched] || cursor + count > |source| || source[cursor..cursor + count] != parts[matched] {
        forall k | 0 < k <= |parts| && Flatten(parts[..k]) == source ensures !(forall i :: 0 <= i < k ==> complete[i]) {
          MismatchStops(parts, source, matched, cursor, k);
        }
        return 0;
      }
      assert source[..cursor + count] == source[..cursor] + parts[matched];
      cursor := cursor + count;
      matched := matched + 1;
    }
    if cursor != |source| {
      forall k | 0 < k <= |parts| ensures Flatten(parts[..k]) != source {
        FlattenPrefix(parts, k, |parts|);
      }
      return 0;
    }
    assert source[..cursor] == source;
  }

  lemma MismatchStops(parts: seq<seq<Message>>, source: seq<Message>, matched: nat, cursor: nat, k: nat)
    requires matched < |parts| && cursor < |source| && Flatten(parts[..matched]) == source[..cursor]
    requires 0 < k <= |parts| && Flatten(parts[..k]) == source
    requires forall i :: 0 <= i < |parts| ==> parts[i] != []
    ensures matched < k && cursor + |parts[matched]| <= |source|
    ensures source[cursor..cursor + |parts[matched]|] == parts[matched]
  {
    if k <= matched {
      FlattenPrefix(parts, k, matched);
    } else {
      FlattenNext(parts, matched);
      FlattenPrefix(parts, matched + 1, k);
    }
  }

  // ---------------------------------------------------------------- one request to the summarizer

  /** `text` is the reply without the blanks around it. */
  datatype Reply = ProviderFails | Replies(text: string)

  /** The only reasons for a failed request: no usable reply, or a first unit that is already too large. */
  ghost predicate CannotCompact(reply: Reply, firstSize: nat, budget: Option<nat>) {
    reply.ProviderFails? || reply.text == "" || (budget.Some? && firstSize > budget.value)
  }

  class LLMHistoryCompactor {
    const budget: Option<nat>
    var lastCompactionSource: Option<seq<Message>>

    constructor (budget: Option<nat>)
      ensures this.budget == budget && lastCompactionSource == None
    {
      this.budget, lastCompactionSource := budget, None;
    }

    /** Summarizes what fits of the region; exposes exactly that as its source. An empty reply counts as
        a failure. The ghost parts say how the region is made of complete units. */
    method Compact(region: seq<Message>, size: seq<Message> -> nat, reply: Reply, ghost parts: seq<seq<Message>>)
      returns (text: Option<string>, ghost kept: nat)
      requires parts != [] && region == Flatten(parts) && forall i :: 0 <= i < |parts| ==> Atomic(parts[i])
      modifies this
      ensures text.Some? ==> 0 < kept <= |parts| && Bounded(parts, size, budget, kept)
      ensures text.Some? ==> lastCompactionSource == Some(Flatten(parts[..kept]))
      ensures text.Some? ==> reply.Replies? && text.value == reply.text != ""
      ensures text.None? ==> CannotCompact(reply, size(parts[0]), budget)
    {
      kept := 0;
      var units := Parse(region);
      ParseTiles(region, 0);
      AtomicPartsParseBack(region, 0, parts);
      var own := UnitMessages(region, units);
      assert own == parts;
      var fit := BoundedSource(own, size, budget);
      if fit.None? {
        return None, 0;
      }
      kept := fit.value;
      lastCompactionSource := Some(Flatten(own[..fit.value]));
      if reply.ProviderFails? || reply.text == "" {
        return None, kept;
      }
      text := Some(reply.text);
    }
  }

  function UnitMessages(history: seq<Message>, units: seq<Unit>): (parts: seq<seq<Message>>)
    requires forall i :: 0 <= i < |units| ==> units[i].start <= units[i].end < |history|
    ensures PartsOf(units, history, parts)
  {
    seq(|units|, i requires 0 <= i < |units| => MessagesOf(history, units[i]))
  }

  // ---------------------------------------------------------------- one rolling step

  /** Positions of the units that may be sent: neither kept raw nor covered already. */
  function Available(units: seq<Unit>, retained: set<nat>, covered: int, n: nat): (available: seq<nat>)
    requires n <= |units|
    ensures forall k :: 0 <= k < |available| ==>
      available[k] < n && available[k] !in retained && !Covered(units[available[k]], covered)
    ensures forall j, k :: 0 <= j < k < |available| ==> available[j] < available[k]
    ensures forall i :: 0 <= i < n && i !in retained && !Covered(units[i], covered) ==> i in available
  {
    if n == 0 then []
    else
      var before := Available(units, retained, covered, n - 1);
      if n - 1 !in retained && !Covered(units[n - 1], covered) then before + [n - 1] else before
  }

  /** Only complete units that are not system messages may be sent. */
  ghost predicate MayCompact(units: seq<Unit>, retained: set<nat>, covered: int) {
    forall i :: 0 <= i < |units| && i !in retained && !Covered(units[i], covered) ==> units[i].complete && !units[i].system
  }

  lemma SelectionMayCompact(units: seq<Unit>, covered: int, cut: nat, weight: nat -> nat)
    requires cut <= |units|
    ensures MayCompact(units, WalkedTo(units, covered, cut), covered)
    ensures MayCompact(units, Promoted(units, WalkedTo(units, covered, cut), weight), covered)
  {
  }

  /** Pruning shortens results in place: every message stays what it is and answers what it answered. */
  ghost predicate SameShape(a: seq<Message>, b: seq<Message>) {
    |a| == |b| && forall i :: 0 <= i < |a| ==>
      (a[i] == b[i] || (a[i].Answer? && b[i].Answer? && a[i].callId == b[i].callId))
  }

  lemma {:induction false} ScanSame(a: seq<Message>, b: seq<Message>, expected: set<CallId>, probe: nat, end: nat)
    requires SameShape(a, b)
    ensures Scan(a, expected, probe, end) == Scan(b, expected, probe, end)
    decreases |a| - probe
  {
    if expected != {} && probe < |a| {
      if a[probe].Answer? && a[probe].callId in expected {
        ScanSame(a, b, expected - {a[probe].callId}, probe + 1, probe);
      } else {
        ScanSame(a, b, expected, probe + 1, end);
      }
    }
  }

  lemma SameSystem(a: seq<Message>, b: seq<Message>)
    requires SameShape(a, b)
    ensures HasSystem(a) == HasSystem(b)
  {
    if i :| 0 <= i < |a| && a[i].System? {
      assert b[i].System?;
    }
    if i :| 0 <= i < |b| && b[i].System? {
      assert a[i].System?;
    }
  }

  lemma SameUnit(a: seq<Message>, b: seq<Message>, index: nat)
    requires SameShape(a, b) && index < |a|
    ensures UnitAt(a, index) == UnitAt(b, index)
  {
    if a[index].Assistant? {
      ScanSame(a, b, IdSet(a[index].calls), index + 1, index);
      var end := UnitAt(a, index).end;
      SameSystem(a[index..end + 1], b[index..end + 1]);
    }
  }

  lemma {:induction false} SameShapeSameUnits(a: seq<Message>, b: seq<Message>, index: nat)
    requires SameShape(a, b) && index <= |a|
    ensures ParseFrom(a, index) == ParseFrom(b, index)
    decreases |a| - index
  {
    if index < |a| {
      SameUnit(a, b, index);
      SameShapeSameUnits(a, b, UnitAt(a, index).end + 1);
    }
  }

  datatype Result = Nothing | Failed(previous: Option<Checkpoint>) | Compacted(checkpoint: Checkpoint, sent: seq<nat>)

  /** A checkpoint that does not fit the history is ignored. */
  function Usable(previous: Option<Checkpoint>, history: seq<Message>): Option<Checkpoint> {
    if previous.Some? && ValidFor(previous.value, history) then previous else None
  }

  function Coverage(previous: Option<Checkpoint>): int {
    if previous.Some? then previous.value.coveredThrough else -1
  }

  /** What a successful step may claim: a chronological prefix of what was available was sent, and the
      coverage moves forward to the end of a complete unit that was sent, with none sent behind it
      unless the hint asked for less. */
  ghost predicate StepOk(units: seq<Unit>, retained: set<nat>, covered: int, hint: Option<int>, through: int, sent: seq<nat>) {
    SentFrom(Available(units, retained, covered, |units|), units, covered, hint, through, sent)
  }

  ghost predicate SentFrom(available: seq<nat>, units: seq<Unit>, covered: int, hint: Option<int>, through: int, sent: seq<nat>) {
    && sent != [] && sent <= available
    && (forall k :: 0 <= k < |sent| ==> sent[k] < |units| && units[sent[k]].complete)
    && (exists k :: 0 <= k < |sent| && units[sent[k]].end == through)
    && (hint.None? || hint.value >= units[sent[|sent| - 1]].end ==> through == units[sent[|sent| - 1]].end)
    && through > covered
  }

  lemma UnitsInside(history: seq<Message>)
    ensures forall i :: 0 <= i < |Parse(history)| ==> Parse(history)[i].start <= Parse(history)[i].end < |history|
    ensures forall i, j :: 0 <= i < j < |Parse(history)| ==> Parse(history)[i].end < Parse(history)[j].end
  {
    var units := Parse(history);
    ParseTiles(history, 0);
    forall i | 0 <= i < |units| ensures units[i].start <= units[i].end < |history| {
      TileInside(units, 0, |history|, i);
    }
    forall i, j | 0 <= i < j < |units| ensures units[i].end < units[j].end {
      TilesAscend(units, 0, |history|, i, j);
    }
  }

  lemma {:induction false} UnitOfParse(history: seq<Message>, index: nat, i: nat)
    requires index <= |history| && i < |ParseFrom(history, index)|
    ensures ParseFrom(history, index)[i].start < |history|
    ensures ParseFrom(history, index)[i] == UnitAt(history, ParseFrom(history, index)[i].start)
    decreases |history| - index
  {
    if i > 0 {
      UnitOfParse(history, UnitAt(history, index).end + 1, i - 1);
    }
  }

  /** The messages of the units at the given positions. */
  function PartsAt(history: seq<Message>, units: seq<Unit>, positions: seq<nat>): (parts: seq<seq<Message>>)
    requires forall i :: 0 <= i < |units| ==> units[i].start <= units[i].end < |history|
    requires forall k :: 0 <= k < |positions| ==> positions[k] < |units|
    ensures |parts| == |positions|
    ensures forall k :: 0 <= k < |parts| ==> parts[k] == MessagesOf(history, units[positions[k]]) && parts[k] != []
  {
    seq(|positions|, k requires 0 <= k < |positions| => MessagesOf(history, units[positions[k]]))
  }

  /** The summarizer was sent exactly the messages of the units at these positions. */
  ghost predicate SourceIs(history: seq<Message>, positions: seq<nat>, source: Option<seq<Message>>) {
    && (forall i :: 0 <= i < |Parse(history)| ==> Parse(history)[i].start <= Parse(history)[i].end < |history|)
    && (forall k :: 0 <= k < |positions| ==> positions[k] < |Parse(history)|)
    && source == Some(Flatten(PartsAt(history, Parse(history), positions)))
  }

  /** The first `k` of these units are what the request budget allows. */
  ghost predicate FitsBudget(history: seq<Message>, positions: seq<nat>, size: seq<Message> -> nat, budget: Option<nat>, k: nat) {
    && (forall i :: 0 <= i < |Parse(history)| ==> Parse(history)[i].start <= Parse(history)[i].end < |history|)
    && (forall k :: 0 <= k < |positions| ==> positions[k] < |Parse(history)|)
    && k <= |positions| && Bounded(PartsAt(history, Parse(history), positions), size, budget, k)
  }

  /** What was sent and how far the coverage goes, as known before the step: the units the budget allows, and
      the end that these and the hint give. */
  ghost predicate IsOutcome(pruned: seq<Message>, available: seq<nat>, hint: Option<int>, size: seq<Message> -> nat,
      budget: Option<nat>, through: int, sent: seq<nat>)
  {
    && 0 < |sent| <= |available| && sent == available[..|sent|] && FitsBudget(pruned, available, size, budget, |sent|)
    && (forall k :: 0 <= k < |sent| ==> sent[k] < |Parse(pruned)|)
    && through == CoverageEnd(Ends(Parse(pruned), sent), hint)
  }

  /** The first available unit on its own. */
  ghost predicate StepCannotCompact(pruned: seq<Message>, available: seq<nat>, size: seq<Message> -> nat, reply: Reply,
      budget: Option<nat>)
  {
    && available != [] && available[0] < |Parse(pruned)|
    && Parse(pruned)[available[0]].start <= Parse(pruned)[available[0]].end < |pruned|
    && CannotCompact(reply, size(MessagesOf(pruned, Parse(pruned)[available[0]])), budget)
  }

  lemma PartsAreAtomic(history: seq<Message>, positions: seq<nat>)
    requires forall k :: 0 <= k < |positions| ==> positions[k] < |Parse(history)| && Parse(history)[positions[k]].complete
    ensures forall i :: 0 <= i < |Parse(history)| ==> Parse(history)[i].start <= Parse(history)[i].end < |history|
    ensures forall k :: 0 <= k < |positions| ==> Atomic(MessagesOf(history, Parse(history)[positions[k]]))
  {
    UnitsInside(history);
    forall k | 0 <= k < |positions| ensures Atomic(MessagesOf(history, Parse(history)[positions[k]])) {
      UnitOfParse(history, 0, positions[k]);
      CompleteUnitIsAtomic(history, Parse(history)[positions[k]].start);
    }
  }

  /** The end of the coverage, from what was sent and the hint; the hint can only hold it back, and only
      to the end of a unit that was sent. */
  function CoverageEnd(ends: seq<nat>, hint: Option<int>): (end: int)
    requires ends != []
    ensures exists k :: 0 <= k < |ends| && ends[k] == end
    ensures hint.None? || hint.value >= ends[|ends| - 1] ==> end == ends[|ends| - 1]
  {
    var last := ends[|ends| - 1];
    var bounded := if hint.Some? && hint.value < last then hint.value else last;
    if exists k :: 0 <= k < |ends| && ends[k] == bounded then bounded else last
  }

  /** One rolling step over a pruned copy of the history. A step that fails leaves the previous
      checkpoint; a step with nothing available does nothing. */
  method RollingCompact(history: seq<Message>, pruned: seq<Message>, retained: set<nat>, previous: Option<Checkpoint>,
      hint: Option<int>, compactor: LLMHistoryCompactor, size: seq<Message> -> nat, reply: Reply)
    returns (result: Result)
    requires SameShape(history, pruned) && MayCompact(Parse(history), retained, Coverage(Usable(previous, history)))
    modifies compactor
    ensures result.Nothing? <==>
      Available(Parse(history), retained, Coverage(Usable(previous, history)), |Parse(history)|) == []
    ensures result.Failed? ==> result.previous == Usable(previous, history)
    ensures result.Failed? ==> StepCannotCompact(pruned,
      Available(Parse(history), retained, Coverage(Usable(previous, history)), |Parse(history)|), size, reply, compactor.budget)
    ensures result.Compacted? ==> SourceIs(pruned, result.sent, compactor.lastCompactionSource)
    ensures result.Compacted? ==> ValidFor(result.checkpoint, history)
    ensures result.Compacted? ==>
      StepOk(Parse(history), retained, Coverage(Usable(previous, history)), hint, result.checkpoint.coveredThrough, result.sent)
    ensures result.Compacted? ==>
      IsOutcome(pruned, Available(Parse(history), retained, Coverage(Usable(previous, history)), |Parse(history)|), hint, size,
                compactor.budget, result.checkpoint.coveredThrough, result.sent)
    ensures result.Compacted? ==> reply.Replies? && result.checkpoint.summary == reply.text != ""
  {
    var valid := Usable(previous, history);
    SameShapeSameUnits(history, pruned, 0);
    result := CompactBehind(history, pruned, retained, valid, hint, compactor, size, reply);
  }

  method CompactBehind(history: seq<Message>, pruned: seq<Message>, retained: set<nat>, valid: Option<Checkpoint>,
      hint: Option<int>, compactor: LLMHistoryCompactor, size: seq<Message> -> nat, reply: Reply)
    returns (result: Result)
    requires Parse(pruned) == Parse(history) && MayCompact(Parse(history), retained, Coverage(valid))
    modifies compactor
    ensures result.Nothing? <==> Available(Parse(history), retained, Coverage(valid), |Parse(history)|) == []
    ensures result.Failed? ==> result.previous == valid
    ensures result.Failed? ==> StepCannotCompact(pruned,
      Available(Parse(history), retained, Coverage(valid), |Parse(history)|), size, reply, compactor.budget)
    ensures result.Compacted? ==> SourceIs(pruned, result.sent, compactor.lastCompactionSource)
    ensures result.Compacted? ==> ValidFor(result.checkpoint, history)
    ensures result.Compacted? ==>
      StepOk(Parse(history), retained, Coverage(valid), hint, result.checkpoint.coveredThrough, result.sent)
    ensures result.Compacted? ==>
      IsOutcome(pruned, Available(Parse(history), retained, Coverage(valid), |Parse(history)|), hint, size, compactor.budget,
                result.checkpoint.coveredThrough, result.sent)
    ensures result.Compacted? ==> reply.Replies? && result.checkpoint.summary == reply.text != ""
  {
    var units := Parse(history);
    var available := Available(units, retained, Coverage(valid), |units|);
    if available == [] {
      return Nothing;
    }
    var text, matched := SendAvailable(pruned, available, compactor, size, reply);
    if text.None? || matched == 0 {
      return Failed(valid);
    }
    var through, sent := Advance(units, retained, Coverage(valid), hint, matched);
    assert sent == available[..matched];
    UnitEndFits(history, through, text.value);
    result := Compacted(Checkpoint(through, history[..through + 1], text.value), sent);
  }

  /** The coverage over the first `matched` available units. */
  method Advance(units: seq<Unit>, retained: set<nat>, covered: int, hint: Option<int>, matched: nat)
    returns (through: int, sent: seq<nat>)
    requires MayCompact(units, retained, covered)
    requires 0 < matched <= |Available(units, retained, covered, |units|)|
    ensures StepOk(units, retained, covered, hint, through, sent)
    ensures sent == Available(units, retained, covered, |units|)[..matched]
    ensures (forall k :: 0 <= k < |sent| ==> sent[k] < |units|) && through == CoverageEnd(Ends(units, sent), hint)
  {
    sent := Available(units, retained, covered, |units|)[..matched];
    SentAreComplete(units, retained, covered, sent);
    var ends := Ends(units, sent);
    through := CoverageEnd(ends, hint);
    CoverageIsOk(Available(units, retained, covered, |units|), units, covered, hint, through, sent, ends);
  }

  lemma CoverageIsOk(available: seq<nat>, units: seq<Unit>, covered: int, hint: Option<int>, through: int, sent: seq<nat>, ends: seq<nat>)
    requires sent != [] && sent <= available
    requires forall k :: 0 <= k < |sent| ==> sent[k] < |units| && units[sent[k]].complete && units[sent[k]].end > covered
    requires |ends| == |sent| && forall k :: 0 <= k < |sent| ==> ends[k] == units[sent[k]].end
    requires exists k :: 0 <= k < |ends| && ends[k] == through
    requires hint.None? || hint.value >= ends[|ends| - 1] ==> through == ends[|ends| - 1]
    ensures SentFrom(available, units, covered, hint, through, sent)
  {
    var k :| 0 <= k < |ends| && ends[k] == through;
    assert units[sent[k]].end == through;
  }

  lemma SentAreComplete(units: seq<Unit>, retained: set<nat>, covered: int, sent: seq<nat>)
    requires MayCompact(units, retained, covered) && sent <= Available(units, retained, covered, |units|)
    ensures forall k :: 0 <= k < |sent| ==> sent[k] < |units| && units[sent[k]].complete && units[sent[k]].end > covered
  {
    var available := Available(units, retained, covered, |units|);
    forall k | 0 <= k < |sent| ensures sent[k] < |units| && units[sent[k]].complete && units[sent[k]].end > covered {
      assert sent[k] == available[k];
    }
  }

  /** Sends the available units, and counts how many of them the exposed source stands for. */
  method SendAvailable(pruned: seq<Message>, available: seq<nat>, compactor: LLMHistoryCompactor,
      size: seq<Message> -> nat, reply: Reply)
    returns (text: Option<string>, matched: nat)
    requires available != []
    requires forall k :: 0 <= k < |available| ==> available[k] < |Parse(pruned)| && Parse(pruned)[available[k]].complete
    modifies compactor
    ensures text.Some? ==> reply.Replies? && text.value == reply.text != "" && 0 < matched <= |available|
    ensures text.Some? ==> SourceIs(pruned, available[..matched], compactor.lastCompactionSource)
    ensures text.Some? ==> FitsBudget(pruned, available, size, compactor.budget, matched)
    ensures text.None? ==> StepCannotCompact(pruned, available, size, reply, compactor.budget)
  {
    matched := 0;
    var units := Parse(pruned);
    UnitsInside(pruned);
    PartsAreAtomic(pruned, available);
    var parts := PartsAt(pruned, units, available);
    ghost var kept;
    text, kept := compactor.Compact(Flatten(parts), size, reply, parts);
    if text.Some? {
      var flags := seq(|available|, k requires 0 <= k < |available| => units[available[k]].complete);
      matched := UnitsMatchingSource(parts, flags, compactor.lastCompactionSource.value);
      FlattenPrefix(parts, 0, kept);
      SamePrefix(parts, matched, kept);
      assert PartsAt(pruned, units, available[..matched]) == parts[..matched];
    }
  }

  /** Prefixes with the same messages are the same prefix. */
  lemma SamePrefix(parts: seq<seq<Message>>, a: nat, b: nat)
    requires a <= |parts| && b <= |parts| && Flatten(parts[..a]) == Flatten(parts[..b])
    requires forall i :: 0 <= i < |parts| ==> parts[i] != []
    ensures a == b
  {
    if a < b {
      FlattenPrefix(parts, a, b);
    } else if b < a {
      FlattenPrefix(parts, b, a);
    }
  }

  function Ends(units: seq<Unit>, positions: seq<nat>): (ends: seq<nat>)
    requires forall k :: 0 <= k < |positions| ==> positions[k] < |units|
    ensures |ends| == |positions| && forall k :: 0 <= k < |ends| ==> ends[k] == units[positions[k]].end
  {
    seq(|positions|, k requires 0 <= k < |positions| => units[positions[k]].end)
  }

  lemma UnitEndFits(history: seq<Message>, end: int, summary: string)
    requires exists i :: 0 <= i < |Parse(history)| && Parse(history)[i].end == end
    ensures 0 <= end < |history| && ValidFor(Checkpoint(end, history[..end + 1], summary), history)
  {
    UnitsInside(history);
  }
}
