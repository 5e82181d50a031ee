/** Which units stay raw and which may be compacted (agent/runtime/history/selection.py,
    agent/runtime/context_reduction.py). Units are named by their position in the parsed history. */
module HistorySelection {
  import opened HistoryUnits

  predicate Covered(unit: Unit, covered: int) { unit.end <= covered }

  /** The newest tool interaction. */
  function LatestTool(units: seq<Unit>): (latest: int)
    ensures -1 <= latest < |units|
    ensures latest >= 0 ==> units[latest].tool
    ensures forall i :: latest < i < |units| ==> !units[i].tool
  {
    if units == [] then -1
    else if units[|units| - 1].tool then |units| - 1
    else LatestTool(units[..|units| - 1])
  }

  /** Kept whatever the budget: system messages, open units, and the newest tool interaction. */
  predicate Forced(units: seq<Unit>, covered: int, i: nat)
    requires i < |units|
  {
    units[i].system || (!Covered(units[i], covered) && (!units[i].complete || i == LatestTool(units)))
  }

  /** The forced units and everything uncovered from `cut` on. */
  function WalkedTo(units: seq<Unit>, covered: int, cut: nat): set<nat> {
    set i | 0 <= i < |units| && (Forced(units, covered, i) || (cut <= i && !Covered(units[i], covered)))
  }

  /** The walk looks at unit `i` at all: it is neither kept already nor covered. */
  predicate Open(units: seq<Unit>, covered: int, i: nat)
    requires i < |units|
  {
    !Forced(units, covered, i) && !Covered(units[i], covered)
  }

  lemma WalkOne(units: seq<Unit>, covered: int, i: nat)
    requires i < |units|
    ensures Open(units, covered, i) ==> WalkedTo(units, covered, i) == WalkedTo(units, covered, i + 1) + {i}
    ensures !Open(units, covered, i) ==> WalkedTo(units, covered, i) == WalkedTo(units, covered, i + 1)
  {
  }

  /** From the newest unit backwards until the target is met; the unit that crosses it is kept whole. The
      token estimate of the kept units is any function. */
  method Select(units: seq<Unit>, covered: int, target: nat, tokens: set<nat> -> nat)
    returns (retained: set<nat>, cut: nat)
    ensures Selected(units, covered, target, tokens, retained, cut)
  {
    cut := |units|;
    retained := set i | 0 <= i < |units| && Forced(units, covered, i);
    assert retained == WalkedTo(units, covered, cut);
    while cut > 0
      invariant cut <= |units| && retained == WalkedTo(units, covered, cut)
      invariant forall i :: cut <= i < |units| && Open(units, covered, i) ==>
        WalkedTo(units, covered, i + 1) == {} || tokens(WalkedTo(units, covered, i + 1)) < target
    {
      WalkOne(units, covered, cut - 1);
      if cut - 1 in retained || Covered(units[cut - 1], covered) {
        cut := cut - 1;
        continue;
      }
      if tokens(retained) < target || retained == {} {
        retained := retained + {cut - 1};
        cut := cut - 1;
        continue;
      }
      break;
    }
  }

  // ---------------------------------------------------------------- chronology

  /** Every unit that may be compacted lies before every kept one; system messages aside. */
  ghost predicate Chronological(units: seq<Unit>, covered: int, retained: set<nat>) {
    forall i, j :: 0 <= i < j < |units| && i in retained && !units[i].system && !Covered(units[j], covered) ==> j in retained
  }

  ghost predicate OnlyLastOpen(units: seq<Unit>) {
    forall i :: 0 <= i < |units| - 1 ==> units[i].complete
  }

  /** The selection is chronological exactly when nothing behind the newest tool interaction is left to
      compaction; a large tool result that meets the target on its own breaks this. */
  lemma ChronologicalIffNothingBehindLatestTool(units: seq<Unit>, covered: int, cut: nat)
    requires OnlyLastOpen(units) && cut <= |units|
    requires forall i, j :: 0 <= i < j < |units| ==> units[i].end < units[j].end
    ensures var retained := WalkedTo(units, covered, cut);
      var tool := LatestTool(units);
      Chronological(units, covered, retained) <==>
        (tool >= 0 && !Covered(units[tool], covered) && !units[tool].system ==>
          forall j :: tool < j < |units| ==> j in retained)
  {
    var retained := WalkedTo(units, covered, cut);
    var tool := LatestTool(units);
    if tool >= 0 && !Covered(units[tool], covered) && !units[tool].system {
      assert tool in retained;
      assert forall j :: tool < j < |units| ==> !Covered(units[j], covered);
    }
  }

  /** The target is not met, while open units behind the newest tool interaction are left, by what is kept so
      far. This is known before the selection. */
  ghost predicate KeepsOrder(units: seq<Unit>, covered: int, target: nat, tokens: set<nat> -> nat) {
    var tool := LatestTool(units);
    tool >= 0 && !Covered(units[tool], covered) && !units[tool].system ==>
      forall j :: tool < j < |units| && Open(units, covered, j) ==> tokens(WalkedTo(units, covered, j + 1)) < target
  }

  /** What a selection returns. */
  ghost predicate Selected(units: seq<Unit>, covered: int, target: nat, tokens: set<nat> -> nat, retained: set<nat>, cut: nat) {
    && cut <= |units| && retained == WalkedTo(units, covered, cut)
    && (cut > 0 ==> Open(units, covered, cut - 1) && retained != {} && tokens(retained) >= target)
    && forall i :: cut <= i < |units| && Open(units, covered, i) ==>
         WalkedTo(units, covered, i + 1) == {} || tokens(WalkedTo(units, covered, i + 1)) < target
  }

  /** Only one selection does. */
  lemma SelectionIsUnique(units: seq<Unit>, covered: int, target: nat, tokens: set<nat> -> nat, retained: set<nat>, cut: nat,
      otherRetained: set<nat>, otherCut: nat)
    requires Selected(units, covered, target, tokens, retained, cut) && Selected(units, covered, target, tokens, otherRetained, otherCut)
    ensures retained == otherRetained && cut == otherCut
  {
    if cut < otherCut {
      NotSelectedBeyond(units, covered, target, tokens, retained, cut, otherCut);
    } else if otherCut < cut {
      NotSelectedBeyond(units, covered, target, tokens, otherRetained, otherCut, cut);
    }
  }

  lemma NotSelectedBeyond(units: seq<Unit>, covered: int, target: nat, tokens: set<nat> -> nat, retained: set<nat>, cut: nat, later: nat)
    requires Selected(units, covered, target, tokens, retained, cut) && cut < later <= |units|
    ensures !Selected(units, covered, target, tokens, WalkedTo(units, covered, later), later)
  {
    if Open(units, covered, later - 1) {
      var kept := WalkedTo(units, covered, later);
      assert kept == {} || tokens(kept) < target;
    }
  }

  /** A selection is chronological exactly when the target and the token counts let it be. */
  lemma ChronologicalIffKeepsOrder(units: seq<Unit>, covered: int, target: nat, tokens: set<nat> -> nat, retained: set<nat>, cut: nat)
    requires OnlyLastOpen(units) && (forall i, j :: 0 <= i < j < |units| ==> units[i].end < units[j].end)
    requires Selected(units, covered, target, tokens, retained, cut)
    ensures Chronological(units, covered, retained) <==> KeepsOrder(units, covered, target, tokens)
  {
    ChronologicalIffNothingBehindLatestTool(units, covered, cut);
    var tool := LatestTool(units);
    if tool >= 0 && !Covered(units[tool], covered) && !units[tool].system {
      assert forall j: nat :: j <= |units| ==> tool in WalkedTo(units, covered, j);
      if KeepsOrder(units, covered, target, tokens) {
        assert cut <= tool + 1;
      }
    }
  }

  // ---------------------------------------------------------------- hard pressure

  /** The heaviest candidate below `n`; of equals the newest. */
  function Heaviest(candidates: set<nat>, weight: nat -> nat, n: nat): (best: int)
    ensures best == -1 <==> forall i :: 0 <= i < n ==> i !in candidates
    ensures best >= 0 ==> best < n && best in candidates
    ensures best >= 0 ==> forall i :: 0 <= i < n && i in candidates ==>
      weight(i) < weight(best) || (weight(i) == weight(best) && i <= best)
    ensures best >= -1
  {
    if n == 0 then -1
    else
      var best := Heaviest(candidates, weight, n - 1);
      if n - 1 !in candidates then best
      else if best < 0 || weight(n - 1) >= weight(best) then n - 1
      else best
  }

  function LatestRetainedTool(units: seq<Unit>, retained: set<nat>, n: nat): (latest: int)
    requires n <= |units|
    ensures -1 <= latest < n && (latest >= 0 ==> latest in retained && units[latest].tool)
    ensures forall i :: latest < i < n ==> i !in retained || !units[i].tool
  {
    if n == 0 then -1
    else if n - 1 in retained && units[n - 1].tool then n - 1
    else LatestRetainedTool(units, retained, n - 1)
  }

  function Eligible(units: seq<Unit>, retained: set<nat>): set<nat> {
    set i | i in retained && i < |units| && units[i].complete && !units[i].system
         && i != LatestRetainedTool(units, retained, |units|)
  }

  /** What stays raw when the kept units alone are too large: the complete ones up to the heaviest
      eligible one are given to compaction. */
  function Promoted(units: seq<Unit>, retained: set<nat>, weight: nat -> nat): set<nat> {
    var chosen := Heaviest(Eligible(units, retained), weight, |units|);
    if |retained| < 2 || chosen < 0 then retained
    else set i | i in retained && !(i <= chosen && i < |units| && units[i].complete && !units[i].system)
  }

  /** A kept unit that promotion may choose: complete, no system message, and no tool interaction unless a newer
      one is kept. */
  ghost predicate MayBeChosen(units: seq<Unit>, retained: set<nat>, i: nat) {
    && i in retained && i < |units| && units[i].complete && !units[i].system
    && (units[i].tool ==> exists newer :: i < newer < |units| && newer in retained && units[newer].tool)
  }

  lemma EligibleIff(units: seq<Unit>, retained: set<nat>, i: nat)
    ensures i in Eligible(units, retained) <==> MayBeChosen(units, retained, i)
  {
    var latest := LatestRetainedTool(units, retained, |units|);
    if MayBeChosen(units, retained, i) && units[i].tool {
      var newer :| i < newer < |units| && newer in retained && units[newer].tool;
      assert latest >= newer;
    }
    if i in Eligible(units, retained) && units[i].tool {
      assert i < latest < |units|;
    }
  }

  /** Promotion gives up exactly the complete kept units up to the heaviest that may be chosen, of equals the newest;
      every newer unit, every open one and every system message stays. */
  lemma PromotionGivesUpExactly(units: seq<Unit>, retained: set<nat>, weight: nat -> nat, heaviest: nat)
    requires |retained| >= 2 && MayBeChosen(units, retained, heaviest)
    requires forall i: nat :: MayBeChosen(units, retained, i) ==>
      weight(i) < weight(heaviest) || (weight(i) == weight(heaviest) && i <= heaviest)
    ensures forall i: nat :: i in Promoted(units, retained, weight) <==>
      i in retained && (i > heaviest || i >= |units| || !units[i].complete || units[i].system)
  {
    var chosen := Heaviest(Eligible(units, retained), weight, |units|);
    EligibleIff(units, retained, heaviest);
    if chosen >= 0 {
      EligibleIff(units, retained, chosen);
    }
    assert chosen == heaviest;
  }

  /** Nothing is given up when nothing may be chosen, or nothing else is kept. */
  lemma PromotionGivesUpNothing(units: seq<Unit>, retained: set<nat>, weight: nat -> nat)
    requires |retained| < 2 || forall i: nat :: !MayBeChosen(units, retained, i)
    ensures Promoted(units, retained, weight) == retained
  {
    var chosen := Heaviest(Eligible(units, retained), weight, |units|);
    if chosen >= 0 {
      EligibleIff(units, retained, chosen);
    }
  }

  /** Promotion keeps the chronology, and gives up something whenever anything is eligible. */
  lemma PromotionKeepsChronology(units: seq<Unit>, covered: int, retained: set<nat>, weight: nat -> nat)
    requires OnlyLastOpen(units) && Chronological(units, covered, retained)
    ensures Chronological(units, covered, Promoted(units, retained, weight))
    ensures Promoted(units, retained, weight) <= retained
    ensures |retained| >= 2 && Eligible(units, retained) != {} ==> Promoted(units, retained, weight) < retained
  {
    var chosen := Heaviest(Eligible(units, retained), weight, |units|);
    if |retained| >= 2 && chosen >= 0 {
      assert chosen in retained && chosen !in Promoted(units, retained, weight);
    }
    if i :| i in Eligible(units, retained) {
      assert 0 <= i < |units|;
    }
  }

  /** The newest tool interaction is only kept from being chosen: it is given up exactly when a newer
      unit is. */
  lemma NewestToolIsGivenUpIff(units: seq<Unit>, retained: set<nat>, weight: nat -> nat)
    requires |retained| >= 2
    ensures var tool := LatestRetainedTool(units, retained, |units|);
      tool >= 0 && units[tool].complete && !units[tool].system ==>
        (tool !in Promoted(units, retained, weight) <==> Heaviest(Eligible(units, retained), weight, |units|) > tool)
  {
  }

  /** A tool interaction and a newer message, both kept: the message is chosen, and the tool interaction goes
      with it. */
  lemma NewestToolCanBeGivenUp(weight: nat -> nat)
    ensures var units := [Unit(0, 1, true, true, false), Unit(2, 2, false, true, false)];
      LatestRetainedTool(units, {0, 1}, 2) == 0 && 0 !in Promoted(units, {0, 1}, weight)
  {
    var units := [Unit(0, 1, true, true, false), Unit(2, 2, false, true, false)];
    assert Eligible(units, {0, 1}) == {1};
    assert Heaviest({1}, weight, 2) == 1;
  }
}
