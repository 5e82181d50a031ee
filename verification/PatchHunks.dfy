/** Applying the hunks of one file update (agent/tools/apply_patch.py, _apply_hunks and _matches). */
module PatchHunks {
  import opened Common
  import opened TextLines

  datatype LineKind = Context | Remove | Add
  datatype HunkLine = HunkLine(kind: LineKind, text: string)

  datatype Hunk = Hunk(lines: seq<HunkLine>, oldStart: Option<nat>) {
    /** The lines the hunk expects in the file. */
    function Pattern(): seq<string> { TextsExcept(lines, Add) }

    /** The lines it leaves there. */
    function Replacement(): seq<string> { TextsExcept(lines, Remove) }
  }

  function TextsExcept(lines: seq<HunkLine>, kind: LineKind): seq<string> {
    if lines == [] then []
    else (if lines[0].kind == kind then [] else [lines[0].text]) + TextsExcept(lines[1..], kind)
  }

  function Min(a: nat, b: nat): nat { if a <= b then a else b }
  function Max(a: int, b: int): int { if a <= b then b else a }

  /** A slice whose bounds are cut to the sequence, as the source's slices are. */
  function Slice(lines: seq<string>, from: nat, length: nat): seq<string> {
    lines[Min(from, |lines|)..Min(from + length, |lines|)]
  }

  predicate MatchesAt(lines: seq<string>, position: int, pattern: seq<string>) {
    position >= 0 && Slice(lines, position, |pattern|) == pattern
  }

  function Splice(lines: seq<string>, position: nat, length: nat, replacement: seq<string>): seq<string> {
    lines[..Min(position, |lines|)] + replacement + lines[Min(position + length, |lines|)..]
  }

  /** Where a hunk applies: at its shifted number, or, without a number, at the only match. */
  ghost predicate AppliesAt(lines: seq<string>, lineOffset: int, hunk: Hunk, position: nat) {
    var pattern := hunk.Pattern();
    if hunk.oldStart.Some? then
      position == Max(hunk.oldStart.value - 1 + lineOffset, 0) && MatchesAt(lines, position, pattern)
    else if pattern == [] then
      position == 0
    else
      && position + |pattern| <= |lines| && MatchesAt(lines, position, pattern)
      && forall other: nat :: other + |pattern| <= |lines| && MatchesAt(lines, other, pattern) ==> other == position
  }

  function NextOffset(lineOffset: int, hunk: Hunk): int {
    if hunk.oldStart.Some? then lineOffset + |hunk.Replacement()| - |hunk.Pattern()| else lineOffset
  }

  /** Applying the hunks in order, each to the result of the one before, ends in `result`. */
  ghost predicate AppliesTo(lines: seq<string>, lineOffset: int, hunks: seq<Hunk>, result: seq<string>)
    decreases hunks
  {
    if hunks == [] then result == lines
    else exists position: nat ::
      && AppliesAt(lines, lineOffset, hunks[0], position)
      && AppliesTo(Splice(lines, position, |hunks[0].Pattern()|, hunks[0].Replacement()),
                   NextOffset(lineOffset, hunks[0]), hunks[1..], result)
  }

  lemma PositionIsUnique(lines: seq<string>, lineOffset: int, hunk: Hunk, a: nat, b: nat)
    requires AppliesAt(lines, lineOffset, hunk, a) && AppliesAt(lines, lineOffset, hunk, b)
    ensures a == b
  {
  }

  lemma {:induction false} ResultIsUnique(lines: seq<string>, lineOffset: int, hunks: seq<Hunk>, a: seq<string>, b: seq<string>)
    requires AppliesTo(lines, lineOffset, hunks, a) && AppliesTo(lines, lineOffset, hunks, b)
    ensures a == b
    decreases hunks
  {
    if hunks != [] {
      var h := hunks[0];
      var p: nat :| AppliesAt(lines, lineOffset, h, p)
        && AppliesTo(Splice(lines, p, |h.Pattern()|, h.Replacement()), NextOffset(lineOffset, h), hunks[1..], a);
      var q: nat :| AppliesAt(lines, lineOffset, h, q)
        && AppliesTo(Splice(lines, q, |h.Pattern()|, h.Replacement()), NextOffset(lineOffset, h), hunks[1..], b);
      PositionIsUnique(lines, lineOffset, h, p, q);
      ResultIsUnique(Splice(lines, p, |h.Pattern()|, h.Replacement()), NextOffset(lineOffset, h), hunks[1..], a, b);
    }
  }

  /** The place of one hunk, or None when the source reports a mismatch. */
  method Locate(lines: seq<string>, lineOffset: int, hunk: Hunk) returns (place: Option<nat>)
    ensures place.Some? ==> AppliesAt(lines, lineOffset, hunk, place.value)
    ensures place.None? ==> forall position: nat :: !AppliesAt(lines, lineOffset, hunk, position)
  {
    var pattern := hunk.Pattern();
    var candidates: seq<nat> := [];
    if hunk.oldStart.Some? {
      var candidate := Max(hunk.oldStart.value - 1 + lineOffset, 0);
      if MatchesAt(lines, candidate, pattern) {
        candidates := [candidate];
      }
    } else if pattern == [] {
      candidates := [0];
    } else {
      candidates := AllMatches(lines, pattern);
    }
    if |candidates| == 1 {
      return Some(candidates[0]);
    }
    assert |candidates| > 1 ==> candidates[0] < candidates[1];
    return None;
  }

  /** Every position where the pattern matches, in order. */
  method AllMatches(lines: seq<string>, pattern: seq<string>) returns (candidates: seq<nat>)
    ensures forall i :: 0 <= i < |candidates| ==>
      candidates[i] + |pattern| <= |lines| && MatchesAt(lines, candidates[i], pattern)
    ensures forall p: nat :: p + |pattern| <= |lines| && MatchesAt(lines, p, pattern) ==> p in candidates
    ensures forall i, j :: 0 <= i < j < |candidates| ==> candidates[i] < candidates[j]
  {
    candidates := [];
    var position: nat := 0;
    while position + |pattern| <= |lines|
      invariant forall i :: 0 <= i < |candidates| ==>
        candidates[i] < position && candidates[i] + |pattern| <= |lines| && MatchesAt(lines, candidates[i], pattern)
      invariant forall p: nat :: p < position && p + |pattern| <= |lines| && MatchesAt(lines, p, pattern) ==> p in candidates
      invariant forall i, j :: 0 <= i < j < |candidates| ==> candidates[i] < candidates[j]
    {
      if MatchesAt(lines, position, pattern) {
        candidates := candidates + [position];
      }
      position := position + 1;
    }
  }

  lemma FirstHunkApplied(lines: seq<string>, lineOffset: int, hunks: seq<Hunk>, place: nat, r: seq<string>)
    requires hunks != [] && AppliesAt(lines, lineOffset, hunks[0], place)
    ensures AppliesTo(lines, lineOffset, hunks, r)
      <==> AppliesTo(Splice(lines, place, |hunks[0].Pattern()|, hunks[0].Replacement()), NextOffset(lineOffset, hunks[0]), hunks[1..], r)
  {
    var hunk := hunks[0];
    if AppliesTo(lines, lineOffset, hunks, r) {
      var p: nat :| AppliesAt(lines, lineOffset, hunk, p)
        && AppliesTo(Splice(lines, p, |hunk.Pattern()|, hunk.Replacement()), NextOffset(lineOffset, hunk), hunks[1..], r);
      PositionIsUnique(lines, lineOffset, hunk, p, place);
    }
  }

  // ---------------------------------------------------------------- what a hunk does, line by line

  /** How many of the first `k` lines stand in the old file: context and removed ones. */
  function OldBefore(lines: seq<HunkLine>, k: nat): nat
    requires k <= |lines|
  {
    if k == 0 then 0 else OldBefore(lines, k - 1) + match lines[k - 1].kind case Context => 1 case Remove => 1 case Add => 0
  }

  /** How many of the first `k` lines stand in the new file: context and added ones. */
  function NewBefore(lines: seq<HunkLine>, k: nat): nat
    requires k <= |lines|
  {
    if k == 0 then 0 else NewBefore(lines, k - 1) + match lines[k - 1].kind case Context => 1 case Remove => 0 case Add => 1
  }

  /** Every context or removed line stands in the old file, at `p` plus the number of such lines before it. */
  ghost predicate OldLinesStand(before: seq<string>, lines: seq<HunkLine>, p: nat) {
    forall k :: 0 <= k < |lines| && lines[k].kind != Add ==>
      p + OldBefore(lines, k) < |before| && before[p + OldBefore(lines, k)] == lines[k].text
  }

  /** Every context or added line stands in the new file, at `p` plus the number of such lines before it. */
  ghost predicate NewLinesStand(after: seq<string>, lines: seq<HunkLine>, p: nat) {
    forall k :: 0 <= k < |lines| && lines[k].kind != Remove ==>
      p + NewBefore(lines, k) < |after| && after[p + NewBefore(lines, k)] == lines[k].text
  }

  /** The hunk edits the old file into the new one at `p`, or at the end if `p` lies behind it and the hunk
      only adds; what is before and behind stays. */
  ghost predicate EditedAt(before: seq<string>, hunk: Hunk, p: nat, after: seq<string>) {
    var q, removed, added := Min(p, |before|), OldBefore(hunk.lines, |hunk.lines|), NewBefore(hunk.lines, |hunk.lines|);
    && (removed > 0 ==> p <= |before|) && q + removed <= |before| && |after| == |before| - removed + added
    && after[..q] == before[..q] && after[q + added..] == before[q + removed..]
    && OldLinesStand(before, hunk.lines, q) && NewLinesStand(after, hunk.lines, q)
  }

  /** A numbered hunk stands at its number, moved by the lines that numbered hunks before it have added; a hunk
      without a number at the start if it only adds, and otherwise at the only place it can edit. */
  ghost predicate FindsPlace(before: seq<string>, moved: int, hunk: Hunk, p: nat) {
    if hunk.oldStart.Some? then p == if hunk.oldStart.value - 1 + moved >= 0 then hunk.oldStart.value - 1 + moved else 0
    else if OldBefore(hunk.lines, |hunk.lines|) == 0 then p == 0
    else forall other: nat, after :: EditedAt(before, hunk, other, after) ==> other == p
  }

  /** One hunk after the other edits the old file into the result. */
  ghost predicate EditedInOrder(before: seq<string>, moved: int, hunks: seq<Hunk>, result: seq<string>)
    decreases hunks, 1
  {
    if hunks == [] then result == before
    else exists p: nat, after: seq<string> :: EditsFirst(before, moved, hunks, p, after, result)
  }

  ghost predicate EditsFirst(before: seq<string>, moved: int, hunks: seq<Hunk>, p: nat, after: seq<string>, result: seq<string>)
    requires hunks != []
    decreases hunks, 0
  {
    && FindsPlace(before, moved, hunks[0], p) && EditedAt(before, hunks[0], p, after)
    && EditedInOrder(after, moved + if hunks[0].oldStart.Some? then |after| - |before| else 0, hunks[1..], result)
  }

  /** How many of the first `k` lines are of another kind. */
  function CountExcept(lines: seq<HunkLine>, k: nat, kind: LineKind): nat
    requires k <= |lines|
  {
    if k == 0 then 0 else CountExcept(lines, k - 1, kind) + if lines[k - 1].kind == kind then 0 else 1
  }

  lemma {:induction false} CountsAreSides(lines: seq<HunkLine>, k: nat)
    requires k <= |lines|
    ensures OldBefore(lines, k) == CountExcept(lines, k, Add) && NewBefore(lines, k) == CountExcept(lines, k, Remove)
  {
    if k > 0 {
      CountsAreSides(lines, k - 1);
    }
  }

  lemma {:induction false} CountOfFront(lines: seq<HunkLine>, n: nat, k: nat, kind: LineKind)
    requires k <= n <= |lines|
    ensures CountExcept(lines, k, kind) == CountExcept(lines[..n], k, kind)
  {
    if k > 0 {
      CountOfFront(lines, n, k - 1, kind);
    }
  }

  lemma {:induction false} TextsSnoc(lines: seq<HunkLine>, line: HunkLine, kind: LineKind)
    ensures TextsExcept(lines + [line], kind) == TextsExcept(lines, kind) + if line.kind == kind then [] else [line.text]
  {
    if lines == [] {
      assert lines + [line] == [line] && [line][1..] == [];
    } else {
      var more := lines + [line];
      assert more[0] == lines[0] && more[1..] == lines[1..] + [line];
      TextsSnoc(lines[1..], line, kind);
    }
  }

  lemma FrontTexts(lines: seq<HunkLine>, kind: LineKind)
    requires lines != []
    ensures var n := |lines| - 1;
      TextsExcept(lines, kind) == TextsExcept(lines[..n], kind) + if lines[n].kind == kind then [] else [lines[n].text]
  {
    var n := |lines| - 1;
    assert lines == lines[..n] + [lines[n]];
    TextsSnoc(lines[..n], lines[n], kind);
  }

  lemma {:induction false} SideLength(lines: seq<HunkLine>, kind: LineKind)
    ensures |TextsExcept(lines, kind)| == CountExcept(lines, |lines|, kind)
  {
    if lines != [] {
      var n := |lines| - 1;
      SideLength(lines[..n], kind);
      CountOfFront(lines, n, n, kind);
      FrontTexts(lines, kind);
    }
  }

  /** A line of a side stands there behind the lines of that side before it. */
  lemma {:induction false} PlaceOfLine(lines: seq<HunkLine>, k: nat, kind: LineKind)
    requires k < |lines| && lines[k].kind != kind
    ensures CountExcept(lines, k, kind) < |TextsExcept(lines, kind)|
    ensures TextsExcept(lines, kind)[CountExcept(lines, k, kind)] == lines[k].text
  {
    var n := |lines| - 1;
    FrontTexts(lines, kind);
    CountOfFront(lines, n, k, kind);
    if k < n {
      PlaceOfLine(lines[..n], k, kind);
    } else {
      SideLength(lines[..n], kind);
    }
  }

  /** Every place on a side is that of one of its lines. */
  lemma {:induction false} LineOfSide(lines: seq<HunkLine>, i: nat, kind: LineKind) returns (k: nat)
    requires i < |TextsExcept(lines, kind)|
    ensures k < |lines| && lines[k].kind != kind && i == CountExcept(lines, k, kind)
  {
    var n := |lines| - 1;
    FrontTexts(lines, kind);
    if i < |TextsExcept(lines[..n], kind)| {
      k := LineOfSide(lines[..n], i, kind);
    } else {
      k := n;
      SideLength(lines[..n], kind);
    }
    CountOfFront(lines, n, k, kind);
  }

  /** The lines of a side stand in a file from `p` on. */
  ghost predicate SideStands(file: seq<string>, lines: seq<HunkLine>, p: nat, kind: LineKind) {
    forall k :: 0 <= k < |lines| && lines[k].kind != kind ==>
      p + CountExcept(lines, k, kind) < |file| && file[p + CountExcept(lines, k, kind)] == lines[k].text
  }

  lemma StandingSidesMatch(file: seq<string>, lines: seq<HunkLine>, p: nat, kind: LineKind)
    requires p + |TextsExcept(lines, kind)| <= |file| && SideStands(file, lines, p, kind)
    ensures file[p..p + |TextsExcept(lines, kind)|] == TextsExcept(lines, kind)
  {
    var side := TextsExcept(lines, kind);
    forall i | 0 <= i < |side| ensures file[p..p + |side|][i] == side[i] {
      var k := LineOfSide(lines, i, kind);
      PlaceOfLine(lines, k, kind);
    }
  }

  lemma MatchingSidesStand(file: seq<string>, lines: seq<HunkLine>, p: nat, kind: LineKind)
    requires p + |TextsExcept(lines, kind)| <= |file|
    requires file[p..p + |TextsExcept(lines, kind)|] == TextsExcept(lines, kind)
    ensures SideStands(file, lines, p, kind)
  {
    var side := TextsExcept(lines, kind);
    forall k | 0 <= k < |lines| && lines[k].kind != kind
      ensures p + CountExcept(lines, k, kind) < |file| && file[p + CountExcept(lines, k, kind)] == lines[k].text
    {
      PlaceOfLine(lines, k, kind);
      assert file[p..p + |side|][CountExcept(lines, k, kind)] == side[CountExcept(lines, k, kind)];
    }
  }

  lemma LinesStandIff(file: seq<string>, lines: seq<HunkLine>, p: nat)
    ensures OldLinesStand(file, lines, p) <==> SideStands(file, lines, p, Add)
    ensures NewLinesStand(file, lines, p) <==> SideStands(file, lines, p, Remove)
  {
    forall k | 0 <= k < |lines|
      ensures OldBefore(lines, k) == CountExcept(lines, k, Add) && NewBefore(lines, k) == CountExcept(lines, k, Remove)
    {
      CountsAreSides(lines, k);
    }
  }

  lemma SideLengths(hunk: Hunk)
    ensures |hunk.Pattern()| == OldBefore(hunk.lines, |hunk.lines|) && |hunk.Replacement()| == NewBefore(hunk.lines, |hunk.lines|)
  {
    SideLength(hunk.lines, Add);
    SideLength(hunk.lines, Remove);
    CountsAreSides(hunk.lines, |hunk.lines|);
  }

  lemma EditedParts(before: seq<string>, hunk: Hunk, p: nat, after: seq<string>)
    requires EditedAt(before, hunk, p, after)
    ensures Parts(before, after, p, hunk.Pattern(), hunk.Replacement())
  {
    SideLengths(hunk);
    OldSideIff(before, hunk, Min(p, |before|));
    NewSideIff(after, hunk, Min(p, |before|));
  }

  lemma OldSideIff(before: seq<string>, hunk: Hunk, q: nat)
    requires q + |hunk.Pattern()| <= |before|
    ensures OldLinesStand(before, hunk.lines, q) <==> before[q..q + |hunk.Pattern()|] == hunk.Pattern()
  {
    LinesStandIff(before, hunk.lines, q);
    if OldLinesStand(before, hunk.lines, q) {
      StandingSidesMatch(before, hunk.lines, q, Add);
    } else if before[q..q + |hunk.Pattern()|] == hunk.Pattern() {
      MatchingSidesStand(before, hunk.lines, q, Add);
    }
  }

  lemma NewSideIff(after: seq<string>, hunk: Hunk, q: nat)
    requires q + |hunk.Replacement()| <= |after|
    ensures NewLinesStand(after, hunk.lines, q) <==> after[q..q + |hunk.Replacement()|] == hunk.Replacement()
  {
    LinesStandIff(after, hunk.lines, q);
    if NewLinesStand(after, hunk.lines, q) {
      StandingSidesMatch(after, hunk.lines, q, Remove);
    } else if after[q..q + |hunk.Replacement()|] == hunk.Replacement() {
      MatchingSidesStand(after, hunk.lines, q, Remove);
    }
  }

  ghost predicate Parts(before: seq<string>, after: seq<string>, p: nat, pattern: seq<string>, replacement: seq<string>) {
    var q, n, m := Min(p, |before|), |pattern|, |replacement|;
    && q + n <= |before| && q + m <= |after| && (n > 0 ==> p == q) && |after| == |before| - n + m
    && after[..q] == before[..q] && after[q + m..] == before[q + n..]
    && before[q..q + n] == pattern && after[q..q + m] == replacement
  }

  lemma PartsAreSpliced(before: seq<string>, after: seq<string>, p: nat, pattern: seq<string>, replacement: seq<string>)
    requires Parts(before, after, p, pattern, replacement)
    ensures MatchesAt(before, p, pattern) && after == Splice(before, p, |pattern|, replacement)
  {
    SplicedIff(before, Min(p, |before|), |pattern|, replacement, after);
  }

  /** An edit finds the old side in the file and puts the new side in its place ... */
  lemma EditedIsSpliced(before: seq<string>, hunk: Hunk, p: nat, after: seq<string>)
    requires EditedAt(before, hunk, p, after)
    ensures MatchesAt(before, p, hunk.Pattern()) && after == Splice(before, p, |hunk.Pattern()|, hunk.Replacement())
  {
    EditedParts(before, hunk, p, after);
    PartsAreSpliced(before, after, p, hunk.Pattern(), hunk.Replacement());
  }

  lemma SplicedParts(before: seq<string>, p: nat, pattern: seq<string>, replacement: seq<string>)
    requires MatchesAt(before, p, pattern)
    ensures Parts(before, Splice(before, p, |pattern|, replacement), p, pattern, replacement)
  {
    var q := Min(p, |before|);
    SplicedIff(before, q, |pattern|, replacement, before[..q] + replacement + before[q + |pattern|..]);
  }

  /** ... and that is all of it. */
  lemma SplicedIsEdited(before: seq<string>, hunk: Hunk, p: nat)
    requires MatchesAt(before, p, hunk.Pattern())
    ensures EditedAt(before, hunk, p, Splice(before, p, |hunk.Pattern()|, hunk.Replacement()))
  {
    SplicedParts(before, p, hunk.Pattern(), hunk.Replacement());
    PartsAreEdited(before, Splice(before, p, |hunk.Pattern()|, hunk.Replacement()), p, hunk);
  }

  lemma PartsAreEdited(before: seq<string>, after: seq<string>, p: nat, hunk: Hunk)
    requires Parts(before, after, p, hunk.Pattern(), hunk.Replacement())
    ensures EditedAt(before, hunk, p, after)
  {
    SideLengths(hunk);
    OldSideIff(before, hunk, Min(p, |before|));
    NewSideIff(after, hunk, Min(p, |before|));
  }

  lemma SplicedIff(before: seq<string>, q: nat, n: nat, replacement: seq<string>, after: seq<string>)
    requires q + n <= |before| && q + |replacement| <= |after|
    ensures after == before[..q] + replacement + before[q + n..] <==>
      && |after| == |before| - n + |replacement| && after[..q] == before[..q]
      && after[q..q + |replacement|] == replacement && after[q + |replacement|..] == before[q + n..]
  {
    var m := q + |replacement|;
    assert after == after[..q] + after[q..m] + after[m..];
    if after == before[..q] + replacement + before[q + n..] {
      assert after[..q] == before[..q] && after[q..m] == replacement && after[m..] == before[q + n..];
    }
  }

  lemma PlaceIsFound(before: seq<string>, moved: int, hunk: Hunk, p: nat)
    requires AppliesAt(before, moved, hunk, p)
    ensures FindsPlace(before, moved, hunk, p)
  {
    SideLengths(hunk);
    if hunk.oldStart.None? && hunk.Pattern() != [] {
      forall other: nat, after | EditedAt(before, hunk, other, after) ensures other == p {
        EditedIsSpliced(before, hunk, other, after);
      }
    }
  }

  lemma FoundPlaceApplies(before: seq<string>, moved: int, hunk: Hunk, p: nat)
    requires FindsPlace(before, moved, hunk, p) && MatchesAt(before, p, hunk.Pattern())
    ensures AppliesAt(before, moved, hunk, p)
  {
    SideLengths(hunk);
    if hunk.oldStart.None? && hunk.Pattern() != [] {
      forall other: nat | other + |hunk.Pattern()| <= |before| && MatchesAt(before, other, hunk.Pattern()) ensures other == p {
        SplicedIsEdited(before, hunk, other);
      }
    }
  }

  lemma {:induction false} AppliedIsEdited(before: seq<string>, moved: int, hunks: seq<Hunk>, result: seq<string>)
    requires AppliesTo(before, moved, hunks, result)
    ensures EditedInOrder(before, moved, hunks, result)
    decreases hunks
  {
    if hunks != [] {
      var hunk := hunks[0];
      var p: nat :| AppliesAt(before, moved, hunk, p)
        && AppliesTo(Splice(before, p, |hunk.Pattern()|, hunk.Replacement()), NextOffset(moved, hunk), hunks[1..], result);
      var after := Splice(before, p, |hunk.Pattern()|, hunk.Replacement());
      PlaceIsFound(before, moved, hunk, p);
      SplicedIsEdited(before, hunk, p);
      SideLengths(hunk);
      AppliedIsEdited(after, NextOffset(moved, hunk), hunks[1..], result);
      assert EditsFirst(before, moved, hunks, p, after, result);
    }
  }

  lemma {:induction false} EditedIsApplied(before: seq<string>, moved: int, hunks: seq<Hunk>, result: seq<string>)
    requires EditedInOrder(before, moved, hunks, result)
    ensures AppliesTo(before, moved, hunks, result)
    decreases hunks
  {
    if hunks != [] {
      var hunk := hunks[0];
      var p: nat, after: seq<string> :| EditsFirst(before, moved, hunks, p, after, result);
      EditedIsSpliced(before, hunk, p, after);
      FoundPlaceApplies(before, moved, hunk, p);
      SideLengths(hunk);
      EditedIsApplied(after, NextOffset(moved, hunk), hunks[1..], result);
    }
  }

  /** Applying hunks is editing by their lines. */
  lemma AppliesToIsEditing(before: seq<string>, moved: int, hunks: seq<Hunk>, result: seq<string>)
    ensures AppliesTo(before, moved, hunks, result) <==> EditedInOrder(before, moved, hunks, result)
  {
    if AppliesTo(before, moved, hunks, result) {
      AppliedIsEdited(before, moved, hunks, result);
    }
    if EditedInOrder(before, moved, hunks, result) {
      EditedIsApplied(before, moved, hunks, result);
    }
  }

  // ---------------------------------------------------------------- the loop

  /** The hunk loop: succeeds exactly when every hunk finds its place in turn, and then each has edited the
      lines as its own lines say. */
  method ApplyInOrder(original: seq<string>, hunks: seq<Hunk>) returns (result: Option<seq<string>>)
    ensures result.Some? ==> AppliesTo(original, 0, hunks, result.value) && EditedInOrder(original, 0, hunks, result.value)
    ensures result.None? ==> forall r :: !AppliesTo(original, 0, hunks, r) && !EditedInOrder(original, 0, hunks, r)
  {
    result := ApplyHunks(original, hunks);
    forall r ensures AppliesTo(original, 0, hunks, r) <==> EditedInOrder(original, 0, hunks, r) {
      AppliesToIsEditing(original, 0, hunks, r);
    }
  }

  method ApplyHunks(original: seq<string>, hunks: seq<Hunk>) returns (result: Option<seq<string>>)
    ensures result.Some? ==> AppliesTo(original, 0, hunks, result.value)
    ensures result.None? ==> forall r :: !AppliesTo(original, 0, hunks, r)
  {
    var lines, lineOffset := original, 0;
    var next := 0;
    while next < |hunks|
      invariant 0 <= next <= |hunks|
      invariant forall r :: AppliesTo(original, 0, hunks, r) <==> AppliesTo(lines, lineOffset, hunks[next..], r)
    {
      var hunk := hunks[next];
      ghost var rest := hunks[next..];
      assert rest[0] == hunk && rest[1..] == hunks[next + 1..];
      var place := Locate(lines, lineOffset, hunk);
      if place.None? {
        return None;
      }
      forall r ensures AppliesTo(lines, lineOffset, rest, r)
        <==> AppliesTo(Splice(lines, place.value, |hunk.Pattern()|, hunk.Replacement()), NextOffset(lineOffset, hunk), rest[1..], r)
      {
        FirstHunkApplied(lines, lineOffset, rest, place.value, r);
      }
      lines := Splice(lines, place.value, |hunk.Pattern()|, hunk.Replacement());
      if hunk.oldStart.Some? {
        lineOffset := lineOffset + |hunk.Replacement()| - |hunk.Pattern()|;
      }
      next := next + 1;
    }
    assert hunks[next..] == [];
    return Some(lines);
  }

  // ---------------------------------------------------------------- numbered hunks

  /** Zero-based line where a numbered hunk starts in the original file. */
  function Start(hunk: Hunk): nat
    requires hunk.oldStart.Some? && hunk.oldStart.value >= 1
  {
    hunk.oldStart.value - 1
  }

  function End(hunk: Hunk): nat
    requires hunk.oldStart.Some? && hunk.oldStart.value >= 1
  {
    Start(hunk) + |hunk.Pattern()|
  }

  predicate IsNumbered(hunk: Hunk) { hunk.oldStart.Some? && hunk.oldStart.value >= 1 }

  /** Numbered hunks in ascending order whose ranges, from `cursor` on, do not overlap. */
  predicate Ascending(hunks: seq<Hunk>, cursor: nat) {
    hunks == [] || (IsNumbered(hunks[0]) && cursor <= Start(hunks[0]) && Ascending(hunks[1..], End(hunks[0])))
  }

  /** Every hunk finds its lines where it says they are in the original file. */
  predicate MatchOriginal(lines: seq<string>, hunks: seq<Hunk>) {
    forall i :: 0 <= i < |hunks| && IsNumbered(hunks[i]) ==> MatchesAt(lines, Start(hunks[i]), hunks[i].Pattern())
  }

  /** All ranges of the original file replaced at once, from line `cursor` on. */
  function ReplaceAll(lines: seq<string>, hunks: seq<Hunk>, cursor: nat): seq<string>
    requires Ascending(hunks, cursor)
  {
    if hunks == [] then lines[Min(cursor, |lines|)..]
    else
      Slice(lines, cursor, Start(hunks[0]) - cursor) + hunks[0].Replacement()
      + ReplaceAll(lines, hunks[1..], End(hunks[0]))
  }

  /** Sequential application from a state where everything before `cursor` has become `head`. */
  lemma {:induction false} SequentialIsSimultaneous(lines: seq<string>, hunks: seq<Hunk>, cursor: nat, head: seq<string>,
                                                    lineOffset: int, result: seq<string>)
    requires Ascending(hunks, cursor)
    requires |head| == Min(cursor, |lines|) + lineOffset
    ensures AppliesTo(head + lines[Min(cursor, |lines|)..], lineOffset, hunks, result)
       <==> MatchOriginal(lines, hunks) && result == head + ReplaceAll(lines, hunks, cursor)
    decreases hunks
  {
    var now := head + lines[Min(cursor, |lines|)..];
    if hunks != [] {
      var h := hunks[0];
      OneHunk(lines, h, cursor, head, lineOffset);
      NumberedHunkFirst(now, lineOffset, hunks, Start(h) + lineOffset, result);
      MatchTail(lines, hunks);
      if MatchesAt(lines, Start(h), h.Pattern()) {
        var head' := head + Slice(lines, cursor, Start(h) - cursor) + h.Replacement();
        assert |head'| == Min(End(h), |lines|) + NextOffset(lineOffset, h) by {
          assert |Slice(lines, Start(h), |h.Pattern()|)| == |h.Pattern()|;
        }
        SequentialIsSimultaneous(lines, hunks[1..], End(h), head', NextOffset(lineOffset, h), result);
        ReplaceFirst(lines, hunks, cursor, head);
      }
    }
  }

  /** A numbered hunk has only one place to apply. */
  lemma NumberedHunkFirst(now: seq<string>, lineOffset: int, hunks: seq<Hunk>, p: nat, result: seq<string>)
    requires hunks != [] && hunks[0].oldStart.Some? && p == Max(hunks[0].oldStart.value - 1 + lineOffset, 0)
    ensures var h := hunks[0];
      AppliesTo(now, lineOffset, hunks, result)
      <==> && MatchesAt(now, p, h.Pattern())
           && AppliesTo(Splice(now, p, |h.Pattern()|, h.Replacement()), NextOffset(lineOffset, h), hunks[1..], result)
  {
    if MatchesAt(now, p, hunks[0].Pattern()) {
      assert AppliesAt(now, lineOffset, hunks[0], p);
    }
  }

  lemma MatchTail(lines: seq<string>, hunks: seq<Hunk>)
    requires hunks != [] && IsNumbered(hunks[0])
    ensures MatchOriginal(lines, hunks)
       <==> MatchesAt(lines, Start(hunks[0]), hunks[0].Pattern()) && MatchOriginal(lines, hunks[1..])
  {
    if MatchesAt(lines, Start(hunks[0]), hunks[0].Pattern()) && MatchOriginal(lines, hunks[1..]) {
      forall i | 0 <= i < |hunks| && IsNumbered(hunks[i])
        ensures MatchesAt(lines, Start(hunks[i]), hunks[i].Pattern())
      {
        assert i > 0 ==> hunks[i] == hunks[1..][i - 1];
      }
    }
    if MatchOriginal(lines, hunks) {
      forall i | 0 <= i < |hunks[1..]| && IsNumbered(hunks[1..][i])
        ensures MatchesAt(lines, Start(hunks[1..][i]), hunks[1..][i].Pattern())
      {
        assert hunks[1..][i] == hunks[i + 1];
      }
    }
  }

  lemma TakeAcross<T>(head: seq<T>, tail: seq<T>, k: nat)
    requires |head| <= k <= |head| + |tail|
    ensures (head + tail)[..k] == head + tail[..k - |head|]
  {
  }

  lemma DropAcross<T>(head: seq<T>, tail: seq<T>, k: nat)
    requires |head| <= k <= |head| + |tail|
    ensures (head + tail)[k..] == tail[k - |head|..]
  {
  }

  lemma ReplaceFirst(lines: seq<string>, hunks: seq<Hunk>, cursor: nat, head: seq<string>)
    requires Ascending(hunks, cursor) && hunks != []
    ensures var h := hunks[0];
      head + Slice(lines, cursor, Start(h) - cursor) + h.Replacement() + ReplaceAll(lines, hunks[1..], End(h))
      == head + ReplaceAll(lines, hunks, cursor)
  {
    var h := hunks[0];
    var gap, tail := Slice(lines, cursor, Start(h) - cursor), ReplaceAll(lines, hunks[1..], End(h));
    assert head + gap + h.Replacement() + tail == head + (gap + h.Replacement() + tail);
  }

  /** One hunk: it matches the shifted place exactly when it matches the original place, and the splice
      moves the frontier to its end. */
  lemma OneHunk(lines: seq<string>, h: Hunk, cursor: nat, head: seq<string>, lineOffset: int)
    requires IsNumbered(h) && cursor <= Start(h)
    requires |head| == Min(cursor, |lines|) + lineOffset
    ensures var now := head + lines[Min(cursor, |lines|)..];
      var p := Start(h) + lineOffset;
      && p >= 0
      && (MatchesAt(now, p, h.Pattern()) <==> MatchesAt(lines, Start(h), h.Pattern()))
      && (MatchesAt(lines, Start(h), h.Pattern()) ==>
            Splice(now, p, |h.Pattern()|, h.Replacement())
            == head + Slice(lines, cursor, Start(h) - cursor) + h.Replacement() + lines[Min(End(h), |lines|)..])
  {
    var c, n := Min(cursor, |lines|), |h.Pattern()|;
    var a, b := Min(Start(h), |lines|), Min(Start(h) + n, |lines|);
    var now := head + lines[c..];
    assert Min(Start(h) + lineOffset, |now|) == a + lineOffset;
    assert Min(Start(h) + lineOffset + n, |now|) == b + lineOffset;
    ShiftedParts(head, lines, c, a, b);
  }

  /** Behind a changed head, the lines from `c` on are found shifted. */
  lemma ShiftedParts<T>(head: seq<T>, lines: seq<T>, c: nat, a: nat, b: nat)
    requires c <= a <= b <= |lines|
    ensures var now, shift := head + lines[c..], |head| - c;
      && now[a + shift..b + shift] == lines[a..b]
      && now[..a + shift] == head + lines[c..a]
      && now[b + shift..] == lines[b..]
  {
    TakeAcross(head, lines[c..], a + |head| - c);
    DropAcross(head, lines[c..], b + |head| - c);
  }

  /** Applying ascending numbered hunks one by one, with the running offset, succeeds exactly when each
      matches the original file, and then equals replacing all their ranges at once. */
  lemma NumberedHunksAreSimultaneous(lines: seq<string>, hunks: seq<Hunk>, result: seq<string>)
    requires Ascending(hunks, 0)
    ensures AppliesTo(lines, 0, hunks, result)
       <==> MatchOriginal(lines, hunks) && result == ReplaceAll(lines, hunks, 0)
  {
    SequentialIsSimultaneous(lines, hunks, 0, [], 0, result);
    assert [] + lines[Min(0, |lines|)..] == lines;
    assert [] + ReplaceAll(lines, hunks, 0) == ReplaceAll(lines, hunks, 0);
  }

  /** A first hunk numbered 0, the form for an empty original range, is applied as if numbered 1. */
  lemma ZeroStartsLikeOne(lines: seq<string>, hunk: Hunk, rest: seq<Hunk>, result: seq<string>)
    requires hunk.oldStart == Some(0)
    ensures AppliesTo(lines, 0, [hunk] + rest, result) <==> AppliesTo(lines, 0, [hunk.(oldStart := Some(1))] + rest, result)
  {
    var one := hunk.(oldStart := Some(1));
    NumberedHunkFirst(lines, 0, [hunk] + rest, 0, result);
    NumberedHunkFirst(lines, 0, [one] + rest, 0, result);
    assert ([hunk] + rest)[1..] == rest == ([one] + rest)[1..];
  }

  // ---------------------------------------------------------------- reversing a patch

  function Flip(kind: LineKind): LineKind {
    match kind case Context => Context case Remove => Add case Add => Remove
  }

  function FlipLines(lines: seq<HunkLine>): seq<HunkLine> {
    if lines == [] then [] else [HunkLine(Flip(lines[0].kind), lines[0].text)] + FlipLines(lines[1..])
  }

  lemma {:induction false} FlippingSwapsSides(lines: seq<HunkLine>)
    ensures TextsExcept(FlipLines(lines), Add) == TextsExcept(lines, Remove)
    ensures TextsExcept(FlipLines(lines), Remove) == TextsExcept(lines, Add)
  {
    if lines != [] {
      FlippingSwapsSides(lines[1..]);
      assert FlipLines(lines)[1..] == FlipLines(lines[1..]);
    }
  }

  /** The hunk that undoes `h`: additions and removals swapped, at the place where `h` left its lines. */
  function ReverseHunk(lines: seq<string>, h: Hunk, shift: int): Hunk
    requires IsNumbered(h) && Min(Start(h), |lines|) + shift >= 0
  {
    Hunk(FlipLines(h.lines), Some(Min(Start(h), |lines|) + shift + 1))
  }

  function ShiftAfter(lines: seq<string>, h: Hunk, shift: int): int
    requires IsNumbered(h)
  {
    shift + (Min(Start(h), |lines|) + |h.Replacement()| - Min(End(h), |lines|))
  }

  /** The hunks that undo `hunks`, numbered for the patched file. */
  function Reverse(lines: seq<string>, hunks: seq<Hunk>, cursor: nat, shift: int): seq<Hunk>
    requires Ascending(hunks, cursor) && Min(cursor, |lines|) + shift >= 0
    decreases hunks
  {
    if hunks == [] then []
    else
      assert Min(Start(hunks[0]), |lines|) >= Min(cursor, |lines|);
      [ReverseHunk(lines, hunks[0], shift)]
      + Reverse(lines, hunks[1..], End(hunks[0]), ShiftAfter(lines, hunks[0], shift))
  }

  /** The reversed first hunk finds the replacement where the first hunk put it, after the same gap. */
  lemma ReversedFirst(lines: seq<string>, h: Hunk, cursor: nat, shift: int, head: seq<string>, tail: seq<string>)
    requires IsNumbered(h) && cursor <= Start(h) && |head| == Min(cursor, |lines|) + shift
    ensures var gap := Slice(lines, cursor, Start(h) - cursor);
      var patched := head + gap + h.Replacement() + tail;
      var r := ReverseHunk(lines, h, shift);
      && r.Pattern() == h.Replacement() && r.Replacement() == h.Pattern()
      && Start(r) == |head| + |gap| && End(r) == |head + gap + h.Replacement()|
      && MatchesAt(patched, Start(r), r.Pattern())
      && Slice(patched, |head|, Start(r) - |head|) == gap
      && (MatchesAt(lines, Start(h), h.Pattern()) ==>
            |head + gap + h.Replacement()| == Min(End(h), |lines|) + ShiftAfter(lines, h, shift))
  {
    FlippingSwapsSides(h.lines);
  }

  lemma OriginalAroundHunk(lines: seq<string>, h: Hunk, cursor: nat)
    requires IsNumbered(h) && cursor <= Start(h) && MatchesAt(lines, Start(h), h.Pattern())
    ensures lines[Min(cursor, |lines|)..]
         == Slice(lines, cursor, Start(h) - cursor) + h.Pattern() + lines[Min(End(h), |lines|)..]
  {
    assert Slice(lines, Start(h), |h.Pattern()|) == h.Pattern();
  }

  lemma {:induction false} ReverseUndoes(lines: seq<string>, hunks: seq<Hunk>, cursor: nat, shift: int, head: seq<string>)
    requires Ascending(hunks, cursor) && MatchOriginal(lines, hunks)
    requires |head| == Min(cursor, |lines|) + shift
    ensures var patched := head + ReplaceAll(lines, hunks, cursor);
      var back := Reverse(lines, hunks, cursor, shift);
      && Ascending(back, |head|)
      && MatchOriginal(patched, back)
      && ReplaceAll(patched, back, |head|) == lines[Min(cursor, |lines|)..]
    decreases hunks
  {
    var patched := head + ReplaceAll(lines, hunks, cursor);
    var back := Reverse(lines, hunks, cursor, shift);
    if hunks == [] {
      assert patched[|head|..] == lines[Min(cursor, |lines|)..];
    } else {
      var h := hunks[0];
      var head' := head + Slice(lines, cursor, Start(h) - cursor) + h.Replacement();
      var shift' := ShiftAfter(lines, h, shift);
      MatchTail(lines, hunks);
      ReplaceFirst(lines, hunks, cursor, head);
      ReversedFirst(lines, h, cursor, shift, head, ReplaceAll(lines, hunks[1..], End(h)));
      ReverseUndoes(lines, hunks[1..], End(h), shift', head');
      ReverseOneMore(lines, h, cursor, patched, ReverseHunk(lines, h, shift),
                     Reverse(lines, hunks[1..], End(h), shift'), |head|);
    }
  }

  lemma ReverseOneMore(lines: seq<string>, h: Hunk, cursor: nat, patched: seq<string>, r: Hunk, rest: seq<Hunk>, from: nat)
    requires IsNumbered(h) && cursor <= Start(h) && MatchesAt(lines, Start(h), h.Pattern())
    requires IsNumbered(r) && from <= Start(r) && r.Replacement() == h.Pattern()
    requires MatchesAt(patched, Start(r), r.Pattern())
    requires Slice(patched, from, Start(r) - from) == Slice(lines, cursor, Start(h) - cursor)
    requires Ascending(rest, End(r)) && MatchOriginal(patched, rest)
    requires ReplaceAll(patched, rest, End(r)) == lines[Min(End(h), |lines|)..]
    ensures Ascending([r] + rest, from) && MatchOriginal(patched, [r] + rest)
    ensures ReplaceAll(patched, [r] + rest, from) == lines[Min(cursor, |lines|)..]
  {
    assert ([r] + rest)[1..] == rest;
    MatchTail(patched, [r] + rest);
    OriginalAroundHunk(lines, h, cursor);
  }

  /** Undoing: the reversed hunks apply to the patched file and give the original lines back. */
  lemma ReversedHunksRestore(lines: seq<string>, hunks: seq<Hunk>, patched: seq<string>)
    requires Ascending(hunks, 0) && AppliesTo(lines, 0, hunks, patched)
    ensures AppliesTo(patched, 0, Reverse(lines, hunks, 0, 0), lines)
  {
    NumberedHunksAreSimultaneous(lines, hunks, patched);
    ReverseUndoes(lines, hunks, 0, 0, []);
    assert [] + ReplaceAll(lines, hunks, 0) == patched;
    var back := Reverse(lines, hunks, 0, 0);
    NumberedHunksAreSimultaneous(patched, back, lines);
    assert lines[Min(0, |lines|)..] == lines;
  }
}
