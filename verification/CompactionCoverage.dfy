/** What a rolling checkpoint covers was sent to the summarizer: when it is true of one step, and that it
    then holds over whole runs of steps and appends (agent/runtime/history/compaction.py). */
module CompactionCoverage {
  import opened Common
  import opened Transcript
  import opened HistoryUnits
  import opened HistorySelection
  import opened Compaction

  // ---------------------------------------------------------------- one step

  ghost predicate Ascending(units: seq<Unit>) {
    forall i, j :: 0 <= i < j < |units| ==> units[i].end < units[j].end
  }

  /** Every unit newly under the coverage was sent in this step; system messages aside. */
  ghost predicate NothingSkipped(units: seq<Unit>, covered: int, through: int, sent: seq<nat>) {
    forall i :: 0 <= i < |units| && !units[i].system && covered < units[i].end <= through ==> i in sent
  }

  lemma SentIsInitial(units: seq<Unit>, retained: set<nat>, covered: int, sent: seq<nat>, i: nat)
    requires sent != [] && sent <= Available(units, retained, covered, |units|)
    requires i < |units| && !Covered(units[i], covered) && i <= sent[|sent| - 1]
    ensures i in sent <==> i !in retained
  {
    var available := Available(units, retained, covered, |units|);
    if i !in retained {
      var k :| 0 <= k < |available| && available[k] == i;
      assert forall m :: |sent| <= m < |available| ==> available[|sent| - 1] < available[m];
    }
  }

  /** A unit kept raw lies under this end. */
  ghost predicate RawUnder(units: seq<Unit>, retained: set<nat>, covered: int, through: int) {
    exists i :: 0 <= i < |units| && !units[i].system && covered < units[i].end <= through && i in retained
  }

  lemma NothingSkippedIffNoneRaw(units: seq<Unit>, retained: set<nat>, covered: int, hint: Option<int>, through: int, sent: seq<nat>)
    requires StepOk(units, retained, covered, hint, through, sent) && Ascending(units)
    ensures NothingSkipped(units, covered, through, sent) <==> !RawUnder(units, retained, covered, through)
  {
    var k :| 0 <= k < |sent| && units[sent[k]].end == through;
    assert sent[k] == Available(units, retained, covered, |units|)[k];
    assert sent[k] <= sent[|sent| - 1] by {
      assert sent[|sent| - 1] == Available(units, retained, covered, |units|)[|sent| - 1];
    }
    forall i | 0 <= i < |units| && covered < units[i].end <= through ensures i in sent <==> i !in retained {
      assert i <= sent[k];
      SentIsInitial(units, retained, covered, sent, i);
    }
  }

  /** The outcome of a step is determined before it: by what may be sent, the hint, the sizes and the budget. */
  lemma OutcomeIsUnique(pruned: seq<Message>, available: seq<nat>, hint: Option<int>, size: seq<Message> -> nat, budget: Option<nat>,
      through: int, sent: seq<nat>, otherThrough: int, otherSent: seq<nat>)
    requires IsOutcome(pruned, available, hint, size, budget, through, sent)
    requires IsOutcome(pruned, available, hint, size, budget, otherThrough, otherSent)
    ensures through == otherThrough && sent == otherSent
  {
    BoundedIsUnique(PartsAt(pruned, Parse(pruned), available), size, budget, |sent|, |otherSent|);
  }

  lemma BoundedIsUnique(parts: seq<seq<Message>>, size: seq<Message> -> nat, budget: Option<nat>, k: nat, l: nat)
    requires Bounded(parts, size, budget, k) && Bounded(parts, size, budget, l)
    ensures k == l
  {
    if k < l {
      NotBoundedBeyond(parts, size, budget, k, l);
    } else if l < k {
      NotBoundedBeyond(parts, size, budget, l, k);
    }
  }

  lemma NotBoundedBeyond(parts: seq<seq<Message>>, size: seq<Message> -> nat, budget: Option<nat>, k: nat, l: nat)
    requires Bounded(parts, size, budget, k) && k < l <= |parts|
    ensures !Bounded(parts, size, budget, l)
  {
    assert size(Flatten(parts[..k + 1])) > budget.value;
  }

  /** Which steps cover a unit they do not send, said before the step: those whose outcome has a unit kept raw
      under its end. The units kept raw, the available ones, the hint, the sizes and the budget are all given. */
  lemma NothingSkippedIff(pruned: seq<Message>, retained: set<nat>, covered: int, hint: Option<int>, size: seq<Message> -> nat,
      budget: Option<nat>, through: int, sent: seq<nat>)
    requires MayCompact(Parse(pruned), retained, covered)
    requires IsOutcome(pruned, Available(Parse(pruned), retained, covered, |Parse(pruned)|), hint, size, budget, through, sent)
    ensures NothingSkipped(Parse(pruned), covered, through, sent) <==> !RawUnder(Parse(pruned), retained, covered, through)
  {
    var units := Parse(pruned);
    UnitsInside(pruned);
    OutcomeIsStep(units, retained, covered, hint, through, sent);
    NothingSkippedIffNoneRaw(units, retained, covered, hint, through, sent);
  }

  lemma OutcomeIsStep(units: seq<Unit>, retained: set<nat>, covered: int, hint: Option<int>, through: int, sent: seq<nat>)
    requires MayCompact(units, retained, covered)
    requires sent != [] && sent <= Available(units, retained, covered, |units|)
    requires (forall k :: 0 <= k < |sent| ==> sent[k] < |units|) && through == CoverageEnd(Ends(units, sent), hint)
    ensures StepOk(units, retained, covered, hint, through, sent)
  {
    var available := Available(units, retained, covered, |units|);
    SentAreComplete(units, retained, covered, sent);
    SentUpTo(available, units, covered, hint, through, sent);
  }

  lemma SentUpTo(available: seq<nat>, units: seq<Unit>, covered: int, hint: Option<int>, through: int, sent: seq<nat>)
    requires sent != [] && sent <= available
    requires forall k :: 0 <= k < |sent| ==> sent[k] < |units| && units[sent[k]].complete && units[sent[k]].end > covered
    requires through == CoverageEnd(Ends(units, sent), hint)
    ensures SentFrom(available, units, covered, hint, through, sent)
  {
    var ends := Ends(units, sent);
    CoverageIsOk(available, units, covered, hint, through, sent, ends);
  }

  /** A chronological selection is such a step, whatever the request budget cuts off and the hint holds back. */
  lemma ChronologicalSkipsNothing(units: seq<Unit>, retained: set<nat>, covered: int, hint: Option<int>, through: int, sent: seq<nat>)
    requires StepOk(units, retained, covered, hint, through, sent) && Ascending(units)
    requires Chronological(units, covered, retained)
    ensures NothingSkipped(units, covered, through, sent)
  {
    NothingSkippedIffNoneRaw(units, retained, covered, hint, through, sent);
    var k :| 0 <= k < |sent| && units[sent[k]].end == through;
    var last := sent[k];
    assert last == Available(units, retained, covered, |units|)[k];
    NoneRawBefore(units, retained, covered, through, last);
  }

  lemma NoneRawBefore(units: seq<Unit>, retained: set<nat>, covered: int, through: int, last: nat)
    requires Ascending(units) && Chronological(units, covered, retained)
    requires last < |units| && units[last].end == through && last !in retained && !Covered(units[last], covered)
    ensures !RawUnder(units, retained, covered, through)
  {
  }

  // ---------------------------------------------------------------- what a checkpoint covers

  /** The coverage ends with a unit, and all units under it are complete. */
  ghost predicate Settled(units: seq<Unit>, covered: int) {
    && covered >= -1
    && (covered == -1 || exists k :: 0 <= k < |units| && units[k].end == covered)
    && forall i :: 0 <= i < |units| && units[i].end <= covered ==> units[i].complete
  }

  /** Every unit under the coverage was sent at some time. */
  ghost predicate Honest(units: seq<Unit>, covered: int, sent: set<nat>) {
    forall i :: 0 <= i < |units| && units[i].end <= covered ==> units[i].system || i in sent
  }

  /** Units under the coverage are the same units, at the same places, after an append. */
  lemma CoveredUnitsStay(history: seq<Message>, more: seq<Message>, covered: int)
    requires Settled(Parse(history), covered)
    ensures Settled(Parse(history + more), covered)
    ensures forall i :: 0 <= i < |Parse(history + more)| && Parse(history + more)[i].end <= covered ==>
      i < |Parse(history)| && Parse(history + more)[i] == Parse(history)[i]
  {
    var units, after := Parse(history), Parse(history + more);
    UnitsInside(history);
    UnitsInside(history + more);
    if covered >= 0 {
      var k :| 0 <= k < |units| && units[k].end == covered;
      CompletePrefixIsStable(history, more, 0, k + 1);
      SamePrefixSettles(units, after, k);
    }
  }

  lemma SamePrefixSettles(units: seq<Unit>, after: seq<Unit>, k: nat)
    requires Ascending(after) && k < |units| && k < |after| && after[..k + 1] == units[..k + 1] && units[k].end >= -1
    requires forall i :: 0 <= i <= k ==> units[i].complete
    ensures Settled(after, units[k].end)
    ensures forall i :: 0 <= i < |after| && after[i].end <= units[k].end ==> i < |units| && after[i] == units[i]
  {
    assert forall i :: 0 <= i <= k ==> after[i] == after[..k + 1][i] && units[i] == units[..k + 1][i];
    assert after[k].end == units[k].end;
  }

  /** The transcript grew: what was true of the coverage stays true. */
  lemma GrowingKeepsHonest(history: seq<Message>, more: seq<Message>, covered: int, sent: set<nat>)
    requires Settled(Parse(history), covered) && Honest(Parse(history), covered, sent)
    ensures Honest(Parse(history + more), covered, sent)
  {
    CoveredUnitsStay(history, more, covered);
  }

  /** A checkpoint that covers complete units stays valid when the transcript grows. */
  lemma CheckpointOutlivesAppends(history: seq<Message>, more: seq<Message>, checkpoint: Checkpoint)
    requires ValidFor(checkpoint, history) && Settled(Parse(history), checkpoint.coveredThrough)
    ensures ValidFor(checkpoint, history + more)
  {
    var covered := checkpoint.coveredThrough;
    assert (history + more)[..covered + 1] == history[..covered + 1];
    CoveredUnitsStay(history, more, covered);
  }

  /** A step moves the coverage forward over complete units only. */
  lemma StepSettles(units: seq<Unit>, retained: set<nat>, covered: int, hint: Option<int>, through: int, sent: seq<nat>)
    requires OnlyLastOpen(units) && Ascending(units) && covered >= -1 && StepOk(units, retained, covered, hint, through, sent)
    ensures Settled(units, through) && through > covered
  {
    var k :| 0 <= k < |sent| && units[sent[k]].end == through;
    forall i | 0 <= i < |units| && units[i].end <= through ensures units[i].complete {
      assert i <= sent[k];
    }
  }

  lemma StepKeepsHonest(units: seq<Unit>, covered: int, sentBefore: set<nat>, through: int, sent: seq<nat>)
    requires Honest(units, covered, sentBefore) && NothingSkipped(units, covered, through, sent)
    ensures Honest(units, through, sentBefore + (set i | i in sent))
  {
  }

  // ---------------------------------------------------------------- legal transcripts

  /** The calls answered in order behind an assistant message are all found by the scan. */
  lemma {:induction false} ScanInOrder(history: seq<Message>, ids: seq<CallId>, index: nat, k: nat)
    requires k <= |ids| && index + k < |history|
    requires Distinct(ids)
    requires forall j :: 0 <= j < |ids| && index + 1 + j < |history| ==> Answers(history[index + 1 + j], ids[j])
    ensures var scan := Scan(history, (set j | k <= j < |ids| :: ids[j]), index + 1 + k, index + k);
      && (scan.0 == {} <==> index + |ids| < |history|)
      && (scan.0 == {} ==> scan.1 == index + |ids|)
    decreases |ids| - k
  {
    var expected := set j | k <= j < |ids| :: ids[j];
    if k < |ids| {
      assert ids[k] in expected;
      if index + 1 + k < |history| {
        assert Answers(history[index + 1 + k], ids[k]);
        RemoveFirst(ids, k);
        ScanInOrder(history, ids, index, k + 1);
      }
    } else {
      assert expected == {};
    }
  }

  predicate Answers(message: Message, id: CallId) { message.Answer? && message.callId == id }

  lemma RemoveFirst(ids: seq<CallId>, k: nat)
    requires k < |ids| && Distinct(ids)
    ensures (set j | k <= j < |ids| :: ids[j]) - {ids[k]} == (set j | k + 1 <= j < |ids| :: ids[j])
  {
  }

  /** Call ids of one message are distinct when those of the whole transcript are. */
  lemma MessageIdsDistinct(messages: seq<Message>, i: nat)
    requires Distinct(CallIds(messages)) && i < |messages| && messages[i].Assistant?
    ensures Distinct(Ids(messages[i].calls))
  {
    var calls := messages[i].calls;
    forall j, k | 0 <= j < k < |calls| ensures Ids(calls)[j] != Ids(calls)[k] {
      CallIdAt(messages, i, j);
      CallIdAt(messages, i, k);
    }
  }

  lemma AnswerBehind(history: seq<Message>, i: nat, j: nat)
    requires Legal(history) && i < j < |history| && history[i].Assistant? && j <= i + |history[i].calls|
    ensures Answers(history[j], history[i].calls[j - i - 1].id)
  {
    LegalMeansAnsweredInPlace(history, i);
  }

  lemma AssistantUnit(history: seq<Message>, index: nat)
    requires Legal(history) && Distinct(CallIds(history)) && index < |history|
    requires history[index].Assistant? && history[index].calls != []
    ensures UnitAt(history, index).complete <==> index + |history[index].calls| < |history|
    ensures UnitAt(history, index).complete ==> UnitAt(history, index).end == index + |history[index].calls|
    ensures !UnitAt(history, index).complete ==> UnitAt(history, index).end == |history| - 1
  {
    var ids := Ids(history[index].calls);
    MessageIdsDistinct(history, index);
    forall j | 0 <= j < |ids| && index + 1 + j < |history| ensures Answers(history[index + 1 + j], ids[j]) {
      AnswerBehind(history, index, index + 1 + j);
    }
    ScanInOrder(history, ids, index, 0);
    assert (set j | 0 <= j < |ids| :: ids[j]) == IdSet(history[index].calls);
  }

  /** The position `n` is the end of the transcript, or a message that is no result. */
  predicate StartsUnit(history: seq<Message>, n: nat) {
    n < |history| ==> !history[n].Answer?
  }

  /** A result stands only inside the unit of its call, so behind a complete unit another one starts. */
  lemma UnitsStartBehindUnits(history: seq<Message>, index: nat)
    requires Legal(history) && Distinct(CallIds(history)) && index < |history|
    requires StartsUnit(history, index) && UnitAt(history, index).complete
    ensures StartsUnit(history, UnitAt(history, index).end + 1)
  {
    var next := UnitAt(history, index).end + 1;
    if history[index].Assistant? && history[index].calls != [] {
      AssistantUnit(history, index);
    }
    if next < |history| && history[next].Answer? {
      var i, k := EveryAnswerHasItsCall(history, next);
      if i < index {
        AnswerBehind(history, i, index);
      } else if i > index {
        AnswerBehind(history, index, i);
      }
    }
  }

  /** In a legal transcript with distinct call ids only the last unit can be open, so the parser's units
      are what the steps above assume. */
  lemma {:induction false} OnlyLastOpenFrom(history: seq<Message>, index: nat)
    requires Legal(history) && Distinct(CallIds(history)) && index <= |history| && StartsUnit(history, index)
    ensures OnlyLastOpen(ParseFrom(history, index))
    decreases |history| - index
  {
    if index < |history| {
      var unit := UnitAt(history, index);
      if history[index].Assistant? && history[index].calls != [] {
        AssistantUnit(history, index);
      }
      if unit.complete {
        UnitsStartBehindUnits(history, index);
        OnlyLastOpenFrom(history, unit.end + 1);
        ConsOnlyLastOpen(unit, ParseFrom(history, unit.end + 1));
      }
    }
  }

  lemma ConsOnlyLastOpen(unit: Unit, rest: seq<Unit>)
    requires unit.complete && OnlyLastOpen(rest)
    ensures OnlyLastOpen([unit] + rest)
  {
  }

  lemma LegalHasOnlyLastOpen(history: seq<Message>)
    requires Legal(history) && Distinct(CallIds(history))
    ensures OnlyLastOpen(Parse(history))
  {
    if history != [] && history[0].Answer? {
      var i, k := EveryAnswerHasItsCall(history, 0);
    }
    OnlyLastOpenFrom(history, 0);
  }

  // ---------------------------------------------------------------- where the condition fails

  const ASKED := [
    System(""), User("q"), Assistant("", [ToolCall("c", "run", "")]),
    Answer("c", ToolResult(Output("large"), None)), User("next")]

  lemma AskedUnits()
    ensures Parse(ASKED) == [
      Unit(0, 0, false, true, true), Unit(1, 1, false, true, false),
      Unit(2, 3, true, true, false), Unit(4, 4, false, true, false)]
  {
    assert IdSet(ASKED[2].calls) == {"c"} by {
      assert ASKED[2].calls[0].id == "c";
    }
    assert Scan(ASKED, {"c"}, 3, 2) == Scan(ASKED, {"c"} - {"c"}, 4, 3);
    assert !HasSystem(ASKED[2..4]);
    assert ParseFrom(ASKED, 5) == [];
    assert ParseFrom(ASKED, 4) == [UnitAt(ASKED, 4)];
    assert ParseFrom(ASKED, 2) == [UnitAt(ASKED, 2)] + ParseFrom(ASKED, 4);
    assert ParseFrom(ASKED, 1) == [UnitAt(ASKED, 1)] + ParseFrom(ASKED, 2);
    assert ParseFrom(ASKED, 0) == [UnitAt(ASKED, 0)] + ParseFrom(ASKED, 1);
  }

  /** A tool interaction that meets the raw target alone is kept raw while the newer user message is
      compacted: the step sends units 1 and 3 and then covers unit 2, which no request ever held. */
  lemma LargeToolResultIsCoveredUnsent(target: nat, tokens: set<nat> -> nat)
    requires tokens({0, 2}) >= target
    ensures var units := Parse(ASKED);
      var retained := WalkedTo(units, -1, 4);
      && Open(units, -1, 3) && retained == {0, 2} && tokens(retained) >= target
      && StepOk(units, retained, -1, None, 4, [1, 3]) && !NothingSkipped(units, -1, 4, [1, 3])
  {
    AskedUnits();
    AskedIsCoveredUnsent(Parse(ASKED));
  }

  lemma AskedIsCoveredUnsent(units: seq<Unit>)
    requires units == [
      Unit(0, 0, false, true, true), Unit(1, 1, false, true, false),
      Unit(2, 3, true, true, false), Unit(4, 4, false, true, false)]
    ensures Open(units, -1, 3) && WalkedTo(units, -1, 4) == {0, 2}
    ensures StepOk(units, {0, 2}, -1, None, 4, [1, 3]) && !NothingSkipped(units, -1, 4, [1, 3])
  {
    assert LatestTool(units) == 2;
    AskedAvailable(units);
    assert units[[1, 3][1]].end == 4;
    assert 2 !in [1, 3];
  }

  lemma AskedAvailable(units: seq<Unit>)
    requires |units| == 4 && forall i :: 0 <= i < 4 ==> !Covered(units[i], -1)
    ensures Available(units, {0, 2}, -1, 4) == [1, 3]
  {
    assert Available(units, {0, 2}, -1, 1) == [];
    assert Available(units, {0, 2}, -1, 2) == [1];
    assert Available(units, {0, 2}, -1, 3) == [1];
  }
}
