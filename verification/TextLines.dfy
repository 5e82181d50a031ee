/** The line structure of text: which characters end a line, and the pure line split that the
    streaming readers and the patch tool must agree with. */
module TextLines {
  predicate IsSeparator(c: char) {
    || '\n' <= c <= '\r' // LF, VT, FF, CR
    || '\U{1c}' <= c <= '\U{1e}'
    || c == '\U{85}' || c == '\U{2028}' || c == '\U{2029}'
  }

  predicate NoSeparator(s: string) {
    forall i :: 0 <= i < |s| ==> !IsSeparator(s[i])
  }

  /** Length of the first line, without its terminator. */
  function FirstLineLength(text: string): (n: nat)
    ensures n <= |text|
    ensures NoSeparator(text[..n])
    ensures n < |text| ==> IsSeparator(text[n])
  {
    if text == "" || IsSeparator(text[0]) then 0
    else
      var n := FirstLineLength(text[1..]) + 1;
      assert text[..n] == [text[0]] + text[1..][..n - 1];
      n
  }

  /** Length of the terminator at position `n`: CR LF counts as one terminator. */
  function TerminatorLength(text: string, n: nat): (k: nat)
    requires n <= |text|
    ensures n + k <= |text| && (n < |text| ==> k >= 1)
  {
    if n == |text| then 0
    else if text[n] == '\r' && n + 1 < |text| && text[n + 1] == '\n' then 2
    else 1
  }

  /** The pure line split of a whole text. */
  function SplitLines(text: string): seq<string>
    decreases |text|
  {
    if text == "" then []
    else
      var n := FirstLineLength(text);
      [text[..n]] + SplitLines(text[n + TerminatorLength(text, n)..])
  }

  lemma {:induction false} FirstLineOf(line: string, rest: string)
    requires NoSeparator(line) && (rest == "" || IsSeparator(rest[0]))
    ensures FirstLineLength(line + rest) == |line|
  {
    if line == "" {
      assert line + rest == rest;
    } else {
      assert (line + rest)[1..] == line[1..] + rest;
      FirstLineOf(line[1..], rest);
    }
  }

  lemma SplitOneLine(line: string)
    requires NoSeparator(line)
    ensures SplitLines(line) == if line == "" then [] else [line]
  {
    FirstLineOf(line, "");
    assert line + "" == line;
  }

  /** Splitting off the first line: `rest` starts with that line's terminator. */
  lemma SplitFirstLine(line: string, rest: string)
    requires NoSeparator(line) && rest != "" && IsSeparator(rest[0])
    ensures SplitLines(line + rest) == [line] + SplitLines(rest[TerminatorLength(rest, 0)..])
  {
    var text := line + rest;
    FirstLineOf(line, rest);
    assert text[..|line|] == line;
    assert TerminatorLength(text, |line|) == TerminatorLength(rest, 0);
    assert text[|line| + TerminatorLength(text, |line|)..] == rest[TerminatorLength(rest, 0)..];
  }

  // ---------------------------------------------------------------- scanning character by character

  /** What is known after reading a prefix: finished lines, the unfinished line, and whether the last
      character was a CR whose LF may still follow. */
  datatype Scan = Scan(lines: seq<string>, partial: string, afterCr: bool)

  const START := Scan([], "", false)

  function Step(s: Scan, c: char): Scan {
    if s.afterCr && c == '\n' then s.(afterCr := false)
    else if IsSeparator(c) then Scan(s.lines + [s.partial], "", c == '\r')
    else Scan(s.lines, s.partial + [c], false)
  }

  function Advance(s: Scan, text: string): Scan {
    if text == "" then s else Step(Advance(s, text[..|text| - 1]), text[|text| - 1])
  }

  /** All lines once the input has ended. */
  function Lines(s: Scan): seq<string> {
    if s.partial == "" then s.lines else s.lines + [s.partial]
  }

  ghost predicate Consistent(s: Scan) {
    NoSeparator(s.partial) && (s.afterCr ==> s.partial == "")
  }

  lemma {:induction false} AdvanceConcat(s: Scan, a: string, b: string)
    ensures Advance(s, a + b) == Advance(Advance(s, a), b)
  {
    if b == "" {
      assert a + b == a;
    } else {
      assert (a + b)[..|a + b| - 1] == a + b[..|b| - 1];
      AdvanceConcat(s, a, b[..|b| - 1]);
    }
  }

  lemma {:induction false} AdvanceConsistent(s: Scan, text: string)
    requires Consistent(s)
    ensures Consistent(Advance(s, text))
  {
    if text != "" {
      AdvanceConsistent(s, text[..|text| - 1]);
    }
  }

  /** The text that the scan still has to split, given what it has read of the current line. */
  function Remaining(s: Scan, text: string): string {
    if s.afterCr && text != "" && text[0] == '\n' then text[1..] else s.partial + text
  }

  /** One character moves finished lines from the remaining text to the scan and changes nothing else. */
  lemma StepKeepsSplit(s: Scan, c: char, rest: string)
    requires Consistent(s)
    ensures Step(s, c).lines + SplitLines(Remaining(Step(s, c), rest)) == s.lines + SplitLines(Remaining(s, [c] + rest))
  {
    RestOf(c, rest);
    if s.afterCr && c == '\n' {
      assert Remaining(Step(s, c), rest) == rest;
    } else if IsSeparator(c) {
      SplitFirstLine(s.partial, [c] + rest);
      AfterTerminator(s, c, rest);
      MoveLine(s.lines, s.partial, SplitLines(Remaining(Step(s, c), rest)));
    } else {
      MoveCharacter(s.partial, c, rest);
    }
  }

  lemma RestOf(c: char, rest: string)
    ensures ([c] + rest)[0] == c && ([c] + rest)[1..] == rest && "" + rest == rest
  {
  }

  lemma MoveLine(lines: seq<string>, line: string, others: seq<string>)
    ensures lines + ([line] + others) == (lines + [line]) + others
  {
  }

  lemma MoveCharacter(partial: string, c: char, rest: string)
    ensures partial + ([c] + rest) == (partial + [c]) + rest
  {
  }

  lemma AfterTerminator(s: Scan, c: char, rest: string)
    requires IsSeparator(c) && !(s.afterCr && c == '\n')
    ensures Remaining(Step(s, c), rest) == ([c] + rest)[TerminatorLength([c] + rest, 0)..]
  {
    var text := [c] + rest;
    if c == '\r' && rest != "" && rest[0] == '\n' {
      assert text[1] == '\n' && text[2..] == rest[1..];
    } else {
      assert text[1..] == rest && "" + rest == rest;
      assert rest != "" ==> text[1] == rest[0];
    }
  }

  lemma {:induction false} ScanSplits(s: Scan, text: string)
    requires Consistent(s)
    ensures Lines(Advance(s, text)) == s.lines + SplitLines(Remaining(s, text))
    decreases |text|
  {
    if text == "" {
      assert s.partial + text == s.partial;
      SplitOneLine(s.partial);
    } else {
      var c, rest := text[0], text[1..];
      assert text == [c] + rest;
      AdvanceConcat(s, [c], rest);
      assert Advance(s, [c]) == Step(s, c) by { assert [c][..0] == ""; }
      ScanSplits(Step(s, c), rest);
      StepKeepsSplit(s, c, rest);
    }
  }

  /** Scanning character by character is the pure line split. */
  lemma ScanIsSplitLines(text: string)
    ensures Lines(Advance(START, text)) == SplitLines(text)
  {
    NothingRead(START, text);
    ScanSplits(START, text);
  }

  lemma NothingRead(s: Scan, text: string)
    requires s.lines == [] && s.partial == "" && !s.afterCr
    ensures Consistent(s) && Remaining(s, text) == text && s.lines + SplitLines(text) == SplitLines(text)
  {
  }
}
