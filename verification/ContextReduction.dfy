/** One reduction of the context under pressure: prune a copy, select, promote when the request does not fit,
    and compact behind the checkpoint (agent/runtime/context_manager.py). */
module ContextReduction {
  import opened Common
  import opened Transcript
  import opened HistoryUnits
  import opened HistorySelection
  import opened Compaction
  import opened CompactionCoverage

  /** What is given from outside: the token target and counts, whether the request is over the hard limit,
      the sizes of compaction requests, and the reply of the summarizer. */
  datatype Pressure = Pressure(
    target: nat, tokens: set<nat> -> nat, weight: nat -> nat, overflow: bool, size: seq<Message> -> nat, reply: Reply)

  // ---------------------------------------------------------------- selecting with less coverage

  /** The selector checks the checkpoint against the pruned copy, where it may fail although it is valid. */
  function SelectorCoverage(checkpoint: Option<Checkpoint>, pruned: seq<Message>): int {
    Coverage(Usable(checkpoint, pruned))
  }

  /** What is chronological for less coverage is so for more, and so is what may be compacted. */
  lemma MoreCoverage(units: seq<Unit>, retained: set<nat>, less: int, covered: int)
    requires less <= covered
    ensures Chronological(units, less, retained) ==> Chronological(units, covered, retained)
    ensures MayCompact(units, retained, less) ==> MayCompact(units, retained, covered)
  {
  }

  /** The end of the newest unit given to compaction; promotion counts covered ones, too. */
  function CompactEnd(units: seq<Unit>, retained: set<nat>, covered: int, n: nat): (end: Option<int>)
    requires n <= |units|
  {
    if n == 0 then None
    else if n - 1 !in retained && !Covered(units[n - 1], covered) then Some(units[n - 1].end)
    else CompactEnd(units, retained, covered, n - 1)
  }

  lemma {:induction false} CompactEndIsNewest(units: seq<Unit>, retained: set<nat>, covered: int, n: nat, i: nat)
    requires Ascending(units) && i < n <= |units| && i !in retained && !Covered(units[i], covered)
    ensures var end := CompactEnd(units, retained, covered, n); end.Some? && end.value >= units[i].end
  {
    if !(n - 1 !in retained && !Covered(units[n - 1], covered)) {
      CompactEndIsNewest(units, retained, covered, n - 1, i);
    }
  }

  /** The hint that a selection gives never holds the coverage back: it ends with the last unit sent. */
  lemma SelectionHintIsNoLimit(units: seq<Unit>, retained: set<nat>, less: int, covered: int, through: int, sent: seq<nat>)
    requires Ascending(units) && less <= covered
    requires StepOk(units, retained, covered, CompactEnd(units, retained, less, |units|), through, sent)
    ensures through == units[sent[|sent| - 1]].end
  {
    var available := Available(units, retained, covered, |units|);
    assert sent[|sent| - 1] == available[|sent| - 1];
    CompactEndIsNewest(units, retained, less, |units|, sent[|sent| - 1]);
  }

  /** The coverage moved strictly forward to the end of the last unit sent, over complete units. */
  ghost predicate MovedTo(units: seq<Unit>, covered: int, through: int, sent: seq<nat>) {
    && Settled(units, through) && through > covered
    && sent != [] && sent[|sent| - 1] < |units| && through == units[sent[|sent| - 1]].end
  }

  /** What a step that moved the coverage has done to it. */
  lemma Moved(units: seq<Unit>, retained: set<nat>, less: int, covered: int, hint: Option<int>, through: int, sent: seq<nat>,
      sentBefore: set<nat>)
    requires OnlyLastOpen(units) && Ascending(units) && -1 <= less <= covered
    requires hint == CompactEnd(units, retained, less, |units|) || hint == CompactEnd(units, retained, -1, |units|)
    requires StepOk(units, retained, covered, hint, through, sent)
    ensures MovedTo(units, covered, through, sent)
    ensures Chronological(units, less, retained) && Honest(units, covered, sentBefore) ==>
      Honest(units, through, sentBefore + (set i | i in sent))
  {
    StepSettles(units, retained, covered, hint, through, sent);
    if hint == CompactEnd(units, retained, less, |units|) {
      SelectionHintIsNoLimit(units, retained, less, covered, through, sent);
    } else {
      SelectionHintIsNoLimit(units, retained, -1, covered, through, sent);
    }
    if Chronological(units, less, retained) && Honest(units, covered, sentBefore) {
      MoreCoverage(units, retained, less, covered);
      ChronologicalSkipsNothing(units, retained, covered, hint, through, sent);
      StepKeepsHonest(units, covered, sentBefore, through, sent);
    }
  }

  /** How a reduction ends: with nothing when nothing may be sent, with a failure only for the listed causes, and
      otherwise with what the budget and the hint allow, under the summary that was given. */
  ghost predicate EndsAs(pruned: seq<Message>, available: seq<nat>, hint: Option<int>, p: Pressure, budget: Option<nat>, result: Result) {
    match result
    case Nothing => available == []
    case Failed(_) => StepCannotCompact(pruned, available, p.size, p.reply, budget)
    case Compacted(checkpoint, sent) =>
      && IsOutcome(pruned, available, hint, p.size, budget, checkpoint.coveredThrough, sent)
      && p.reply.Replies? && checkpoint.summary == p.reply.text != ""
  }

  /** The rolling step behind a selection made with no more coverage than the checkpoint has. */
  method CompactSelected(history: seq<Message>, pruned: seq<Message>, retained: set<nat>, checkpoint: Option<Checkpoint>,
      hint: Option<int>, compactor: LLMHistoryCompactor, p: Pressure, ghost less: int, ghost units: seq<Unit>, ghost available: seq<nat>)
    returns (result: Result)
    requires SameShape(history, pruned) && units == Parse(history) && Usable(checkpoint, history) == checkpoint
    requires less <= Coverage(checkpoint) && MayCompact(units, retained, less)
    requires available == Available(units, retained, Coverage(checkpoint), |units|)
    modifies compactor
    ensures EndsAs(pruned, available, hint, p, compactor.budget, result)
    ensures result.Compacted? ==> ValidFor(result.checkpoint, history) && SourceIs(pruned, result.sent, compactor.lastCompactionSource)
    ensures result.Compacted? ==>
      StepOk(units, retained, Coverage(checkpoint), hint, result.checkpoint.coveredThrough, result.sent)
  {
    MoreCoverage(units, retained, less, Coverage(checkpoint));
    result := RollingCompact(history, pruned, retained, checkpoint, hint, compactor, p.size, p.reply);
  }

  /** What is kept raw and the hint are those of the selection, or under hard pressure of its promotion if
      that gives up anything. */
  ghost predicate IsChoice(units: seq<Unit>, less: int, p: Pressure, retained: set<nat>, hint: Option<int>) {
    exists cut, selected :: Selected(units, less, p.target, p.tokens, selected, cut) &&
      if p.overflow && Promoted(units, selected, p.weight) != selected
      then retained == Promoted(units, selected, p.weight) && hint == CompactEnd(units, retained, -1, |units|)
      else retained == selected && hint == CompactEnd(units, retained, less, |units|)
  }

  /** There is only one such choice, so a reduction is determined before it. */
  lemma ChoiceIsUnique(units: seq<Unit>, less: int, p: Pressure, retained: set<nat>, hint: Option<int>,
      otherRetained: set<nat>, otherHint: Option<int>)
    requires IsChoice(units, less, p, retained, hint) && IsChoice(units, less, p, otherRetained, otherHint)
    ensures retained == otherRetained && hint == otherHint
  {
    var cut, selected :| Selected(units, less, p.target, p.tokens, selected, cut) &&
      if p.overflow && Promoted(units, selected, p.weight) != selected
      then retained == Promoted(units, selected, p.weight) && hint == CompactEnd(units, retained, -1, |units|)
      else retained == selected && hint == CompactEnd(units, retained, less, |units|);
    var otherCut, otherSelected :| Selected(units, less, p.target, p.tokens, otherSelected, otherCut) &&
      if p.overflow && Promoted(units, otherSelected, p.weight) != otherSelected
      then otherRetained == Promoted(units, otherSelected, p.weight) && otherHint == CompactEnd(units, otherRetained, -1, |units|)
      else otherRetained == otherSelected && otherHint == CompactEnd(units, otherRetained, less, |units|);
    SelectionIsUnique(units, less, p.target, p.tokens, selected, cut, otherSelected, otherCut);
  }

  /** The units to keep: the selection, and under hard pressure what promotion leaves of it. */
  method Choose(units: seq<Unit>, less: int, p: Pressure) returns (retained: set<nat>, hint: Option<int>)
    requires OnlyLastOpen(units) && Ascending(units)
    ensures MayCompact(units, retained, less)
    ensures KeepsOrder(units, less, p.target, p.tokens) ==> Chronological(units, less, retained)
    ensures IsChoice(units, less, p, retained, hint)
  {
    var cut;
    retained, cut := Select(units, less, p.target, p.tokens);
    SelectionMayCompact(units, less, cut, p.weight);
    ChronologicalIffKeepsOrder(units, less, p.target, p.tokens, retained, cut);
    hint := CompactEnd(units, retained, less, |units|);
    if p.overflow {
      if Chronological(units, less, retained) {
        PromotionKeepsChronology(units, less, retained, p.weight);
      }
      var promoted := Promoted(units, retained, p.weight);
      if promoted != retained {
        retained := promoted;
        hint := CompactEnd(units, retained, -1, |units|);
      }
    }
  }

  lemma NoHintNothingAvailable(units: seq<Unit>, less: int, p: Pressure, retained: set<nat>, hint: Option<int>, covered: int)
    requires Ascending(units) && -1 <= less <= covered && IsChoice(units, less, p, retained, hint) && hint.None?
    ensures Available(units, retained, covered, |units|) == []
  {
    var available := Available(units, retained, covered, |units|);
    if available != [] {
      CompactEndIsNewest(units, retained, less, |units|, available[0]);
      CompactEndIsNewest(units, retained, -1, |units|, available[0]);
    }
  }

  // ---------------------------------------------------------------- the state of the Thread's context

  /** The history is a legal transcript, and the checkpoint is valid and covers complete units. */
  ghost predicate SoundAt(history: seq<Message>, checkpoint: Option<Checkpoint>) {
    && Legal(history) && Distinct(CallIds(history)) && Settled(Parse(history), Coverage(checkpoint))
    && (checkpoint.Some? ==> ValidFor(checkpoint.value, history))
  }

  /** Every unit the checkpoint covers was sent to the summarizer. */
  ghost predicate HonestAt(history: seq<Message>, checkpoint: Option<Checkpoint>, sent: set<nat>) {
    Honest(Parse(history), Coverage(checkpoint), sent)
  }

  /** Known before a reduction: its selection will be chronological. */
  ghost predicate OrderAt(history: seq<Message>, pruned: seq<Message>, checkpoint: Option<Checkpoint>, p: Pressure) {
    KeepsOrder(Parse(history), SelectorCoverage(checkpoint, pruned), p.target, p.tokens)
  }

  function CheckpointAfter(checkpoint: Option<Checkpoint>, result: Result): Option<Checkpoint> {
    if result.Compacted? then Some(result.checkpoint) else checkpoint
  }

  function SentBy(result: Result): set<nat> {
    if result.Compacted? then set i | i in result.sent else {}
  }

  /** What a reduction did: the one choice, its one end, and a checkpoint left alone or moved strictly forward. */
  ghost predicate Reduced(history: seq<Message>, pruned: seq<Message>, checkpoint: Option<Checkpoint>, p: Pressure,
      budget: Option<nat>, source: Option<seq<Message>>, result: Result, retained: set<nat>, hint: Option<int>)
  {
    var units := Parse(history);
    && IsChoice(units, SelectorCoverage(checkpoint, pruned), p, retained, hint)
    && EndsAs(pruned, Available(units, retained, Coverage(checkpoint), |units|), hint, p, budget, result)
    && (result.Compacted? ==> SourceIs(pruned, result.sent, source))
    && (result.Compacted? ==> MovedTo(units, Coverage(checkpoint), result.checkpoint.coveredThrough, result.sent))
  }

  lemma SoundUnits(history: seq<Message>, pruned: seq<Message>, checkpoint: Option<Checkpoint>)
    requires SameShape(history, pruned) && SoundAt(history, checkpoint)
    ensures Parse(pruned) == Parse(history) && OnlyLastOpen(Parse(history)) && Ascending(Parse(history))
    ensures Usable(checkpoint, history) == checkpoint && -1 <= SelectorCoverage(checkpoint, pruned) <= Coverage(checkpoint)
  {
    SameShapeSameUnits(history, pruned, 0);
    LegalHasOnlyLastOpen(history);
    UnitsInside(history);
  }

  lemma StaysSound(history: seq<Message>, covered: int, checkpoint: Option<Checkpoint>, result: Result)
    requires SoundAt(history, checkpoint)
    requires result.Compacted? ==> ValidFor(result.checkpoint, history)
    requires result.Compacted? ==> MovedTo(Parse(history), covered, result.checkpoint.coveredThrough, result.sent)
    ensures SoundAt(history, CheckpointAfter(checkpoint, result))
  {
  }

  /** Select, promote and compact, on values. */
  method ReduceOnce(history: seq<Message>, pruned: seq<Message>, checkpoint: Option<Checkpoint>, compactor: LLMHistoryCompactor,
      p: Pressure, ghost sent: set<nat>)
    returns (result: Result, ghost retained: set<nat>, ghost hint: Option<int>)
    requires SameShape(history, pruned) && SoundAt(history, checkpoint)
    modifies compactor
    ensures Reduced(history, pruned, checkpoint, p, compactor.budget, compactor.lastCompactionSource, result, retained, hint)
    ensures SoundAt(history, CheckpointAfter(checkpoint, result))
    ensures HonestAt(history, checkpoint, sent) && OrderAt(history, pruned, checkpoint, p) ==>
      HonestAt(history, CheckpointAfter(checkpoint, result), sent + SentBy(result))
  {
    SoundUnits(history, pruned, checkpoint);
    result, retained, hint := CompactChosen(history, pruned, checkpoint, compactor, p, SelectorCoverage(checkpoint, pruned),
      Parse(history), Coverage(checkpoint), sent);
    StaysSound(history, Coverage(checkpoint), checkpoint, result);
  }

  method CompactChosen(history: seq<Message>, pruned: seq<Message>, checkpoint: Option<Checkpoint>, compactor: LLMHistoryCompactor,
      p: Pressure, less: int, ghost units: seq<Unit>, ghost covered: int, ghost sent: set<nat>)
    returns (result: Result, ghost retained: set<nat>, ghost hint: Option<int>)
    requires SameShape(history, pruned) && units == Parse(history) && Usable(checkpoint, history) == checkpoint
    requires Parse(pruned) == units && OnlyLastOpen(units) && Ascending(units) && -1 <= less <= covered == Coverage(checkpoint)
    modifies compactor
    ensures IsChoice(units, less, p, retained, hint)
    ensures EndsAs(pruned, Available(units, retained, covered, |units|), hint, p, compactor.budget, result)
    ensures result.Compacted? ==> ValidFor(result.checkpoint, history) && SourceIs(pruned, result.sent, compactor.lastCompactionSource)
    ensures result.Compacted? ==> MovedTo(units, covered, result.checkpoint.coveredThrough, result.sent)
    ensures result.Compacted? && KeepsOrder(units, less, p.target, p.tokens) && Honest(units, covered, sent) ==>
      Honest(units, result.checkpoint.coveredThrough, sent + SentBy(result))
  {
    var kept, end := Choose(Parse(pruned), less, p);
    retained, hint := kept, end;
    if end.None? {
      NoHintNothingAvailable(units, less, p, kept, end, covered);
      result := Nothing;
      return;
    }
    ghost var available := Available(units, kept, covered, |units|);
    result := CompactSelected(history, pruned, kept, checkpoint, end, compactor, p, less, units, available);
    if result.Compacted? {
      Moved(units, kept, less, covered, end, result.checkpoint.coveredThrough, result.sent, sent);
    }
  }

  // ---------------------------------------------------------------- the reduction

  class ContextManager {
    const compactor: LLMHistoryCompactor
    const prune: seq<Message> -> seq<Message>
    var history: seq<Message>
    var checkpoint: Option<Checkpoint>
    ghost var sent: set<nat>              // positions of all units the summarizer was ever sent

    ghost predicate Valid()
      reads this
    {
      SoundAt(history, checkpoint) && forall h :: SameShape(h, prune(h))
    }

    constructor (compactor: LLMHistoryCompactor, prune: seq<Message> -> seq<Message>, history: seq<Message>)
      requires Legal(history) && Distinct(CallIds(history)) && forall h :: SameShape(h, prune(h))
      ensures Valid() && HonestAt(history, checkpoint, sent) && this.history == history && checkpoint == None && sent == {}
      ensures this.compactor == compactor && this.prune == prune
    {
      this.compactor, this.prune, this.history := compactor, prune, history;
      checkpoint, sent := None, {};
      new;
      UnitsInside(history);
    }

    /** The transcript grows. */
    method Say(more: seq<Message>)
      requires Valid() && Legal(history + more) && Distinct(CallIds(history + more))
      modifies this`history
      ensures Valid() && history == old(history) + more
      ensures HonestAt(old(history), checkpoint, sent) ==> HonestAt(history, checkpoint, sent)
    {
      CoveredUnitsStay(history, more, Coverage(checkpoint));
      if checkpoint.Some? {
        CheckpointOutlivesAppends(history, more, checkpoint.value);
      }
      if HonestAt(history, checkpoint, sent) {
        GrowingKeepsHonest(history, more, Coverage(checkpoint), sent);
      }
      history := history + more;
    }

    /** The checkpoint stays honest through a reduction whose selection keeps the order. */
    method Reduce(p: Pressure) returns (result: Result, ghost retained: set<nat>, ghost hint: Option<int>)
      requires Valid()
      modifies this`checkpoint, this`sent, compactor
      ensures Valid()
      ensures !result.Compacted? ==> checkpoint == old(checkpoint) && sent == old(sent)
      ensures result.Compacted? ==> checkpoint == Some(result.checkpoint) && sent == old(sent) + (set i | i in result.sent)
      ensures result.Compacted? && old(checkpoint).Some? ==>
        result.checkpoint.coveredThrough > old(checkpoint).value.coveredThrough
      ensures Reduced(history, prune(history), old(checkpoint), p, compactor.budget, compactor.lastCompactionSource,
                      result, retained, hint)
      ensures old(HonestAt(history, checkpoint, sent)) && old(OrderAt(history, prune(history), checkpoint, p)) ==>
        HonestAt(history, checkpoint, sent)
    {
      assert SameShape(history, prune(history));
      result, retained, hint := ReduceOnce(history, prune(history), checkpoint, compactor, p, sent);
      checkpoint, sent := CheckpointAfter(checkpoint, result), sent + SentBy(result);
    }
  }
}
