/** The marker lines of the patch envelope, spelled out (agent/tools/apply_patch.py, _SECTION_RE and
    _HUNK_RE). Digits are the ten ASCII digits. */
module PatchGrammar {
  import opened Common
  import opened TextLines
  import opened PatchHunks
  import opened PatchCommit
  import opened PatchParser
  import opened PatchText
  import Decimal

  const BEGIN := "*** Begin Patch"
  const END := "*** End Patch"
  const ADD_OPENING := "*** Add File:"
  const UPDATE_OPENING := "*** Update File:"
  const DELETE_OPENING := "*** Delete File:"

  function Opening(kind: SectionKind): string {
    match kind case AddSection => ADD_OPENING case UpdateSection => UPDATE_OPENING case DeleteSection => DELETE_OPENING
  }

  predicate StartsWith(line: string, opening: string) { |opening| <= |line| && line[..|opening|] == opening }

  /** What follows an opening, less one space. */
  function PathAfter(line: string, opening: string): string
    requires |opening| <= |line|
  {
    var path := line[|opening|..];
    if path != "" && path[0] == ' ' then path[1..] else path
  }

  function SectionOf(line: string): Option<Section> {
    if StartsWith(line, ADD_OPENING) then Some(Section(AddSection, PathAfter(line, ADD_OPENING)))
    else if StartsWith(line, UPDATE_OPENING) then Some(Section(UpdateSection, PathAfter(line, UPDATE_OPENING)))
    else if StartsWith(line, DELETE_OPENING) then Some(Section(DeleteSection, PathAfter(line, DELETE_OPENING)))
    else None
  }

  predicate IsDigit(c: char) { '0' <= c <= '9' }

  /** Length of the digits at the front. */
  function Digits(text: string): (n: nat)
    ensures n <= |text| && forall i :: 0 <= i < n ==> IsDigit(text[i])
    ensures n < |text| ==> !IsDigit(text[n])
  {
    if text == "" || !IsDigit(text[0]) then 0 else 1 + Digits(text[1..])
  }

  function Value(digits: string): nat
    requires forall i :: 0 <= i < |digits| ==> IsDigit(digits[i])
  {
    if digits == "" then 0
    else
      assert IsDigit(digits[|digits| - 1]);
      Value(digits[..|digits| - 1]) * 10 + (digits[|digits| - 1] as int - '0' as int)
  }

  /** Without a comma and digits at the front, if they are there. */
  function AfterCount(text: string): string {
    if text != "" && text[0] == ',' && Digits(text[1..]) > 0 then text[1 + Digits(text[1..])..] else text
  }

  /** The closing "@@", possibly after a space and anything else. */
  predicate Closes(text: string) {
    text == "@@" || (|text| >= 3 && text[0] == ' ' && text[|text| - 2] == '@' && text[|text| - 1] == '@')
  }

  /** "@@", or "@@ -start", an optional count, and the closing. */
  function HeaderOf(line: string): Option<Option<nat>> {
    if line == "@@" then Some(None)
    else if |line| < 4 || line[0] != '@' || line[1] != '@' || line[2] != ' ' || line[3] != '-' then None
    else
      var n := Digits(line[4..]);
      if n == 0 || !Closes(AfterCount(line[4..][n..])) then None
      else Some(Some(Value(line[4..][..n])))
  }

  function Envelope(validate: string -> Option<string>): Grammar {
    Grammar(BEGIN, END, SectionOf, HeaderOf, validate)
  }

  function WriteSection(kind: SectionKind, path: string): string { Opening(kind) + " " + path }

  function WriteHeader(start: Option<nat>): string {
    if start.None? then "@@" else "@@ -" + Decimal.Render(start.value) + " @@"
  }

  function Writing(): Writer { Writer(WriteSection, WriteHeader) }

  lemma OpeningsStartWithStars()
    ensures forall line :: SectionOf(line).Some? ==> line != "" && line[0] == '*'
  {
    forall line | SectionOf(line).Some? ensures line != "" && line[0] == '*' {
      assert ADD_OPENING[0] == '*' && UPDATE_OPENING[0] == '*' && DELETE_OPENING[0] == '*';
    }
  }

  /** The envelope's marker lines cannot be mistaken for each other or for body lines. */
  lemma EnvelopeIsValid(validate: string -> Option<string>)
    ensures Envelope(validate).Valid()
  {
    OpeningsStartWithStars();
  }

  lemma {:induction false} DigitsOf(digits: string, rest: string)
    requires forall i :: 0 <= i < |digits| ==> IsDigit(digits[i])
    requires rest == "" || !IsDigit(rest[0])
    ensures Digits(digits + rest) == |digits|
  {
    if digits == "" {
      assert digits + rest == rest;
    } else {
      assert (digits + rest)[1..] == digits[1..] + rest;
      DigitsOf(digits[1..], rest);
    }
  }

  lemma {:induction false} RenderedValue(n: nat)
    ensures forall i :: 0 <= i < |Decimal.Render(n)| ==> IsDigit(Decimal.Render(n)[i])
    ensures Value(Decimal.Render(n)) == n && Decimal.Render(n) != ""
  {
    if n >= 10 {
      RenderedValue(n / 10);
      var s := Decimal.Render(n);
      assert s[..|s| - 1] == Decimal.Render(n / 10);
    }
  }

  lemma HeaderRoundTrips(start: Option<nat>)
    ensures HeaderOf(WriteHeader(start)) == Some(start)
  {
    if start.Some? {
      var digits := Decimal.Render(start.value);
      RenderedValue(start.value);
      var line := WriteHeader(start);
      assert line[4..] == digits + " @@";
      DigitsOf(digits, " @@");
      assert line[4..][..|digits|] == digits && line[4..][|digits|..] == " @@";
    }
  }

  lemma SectionRoundTrips(kind: SectionKind, path: string)
    ensures SectionOf(WriteSection(kind, path)) == Some(Section(kind, path))
  {
    var line, opening := WriteSection(kind, path), Opening(kind);
    assert line == opening + (" " + path);
    OpensWith(line, opening, " " + path);
    assert (" " + path)[1..] == path;
    assert line[4] == opening[4];
    Different(line);
  }

  lemma OpensWith(line: string, opening: string, rest: string)
    requires line == opening + rest
    ensures StartsWith(line, opening) && line[|opening|..] == rest
  {
  }

  /** The three openings differ in their fifth character. */
  lemma Different(line: string)
    ensures StartsWith(line, ADD_OPENING) ==> |line| > 4 && line[4] == 'A'
    ensures StartsWith(line, UPDATE_OPENING) ==> |line| > 4 && line[4] == 'U'
    ensures StartsWith(line, DELETE_OPENING) ==> |line| > 4 && line[4] == 'D'
  {
    assert ADD_OPENING[4] == 'A' && UPDATE_OPENING[4] == 'U' && DELETE_OPENING[4] == 'D';
    if StartsWith(line, ADD_OPENING) {
      assert line[..|ADD_OPENING|][4] == line[4];
    }
    if StartsWith(line, UPDATE_OPENING) {
      assert line[..|UPDATE_OPENING|][4] == line[4];
    }
    if StartsWith(line, DELETE_OPENING) {
      assert line[..|DELETE_OPENING|][4] == line[4];
    }
  }

  lemma WritingFits(validate: string -> Option<string>)
    ensures Writing().Fits(Envelope(validate))
  {
    forall kind: SectionKind, path: string ensures SectionOf(WriteSection(kind, path)) == Some(Section(kind, path)) {
      SectionRoundTrips(kind, path);
    }
    forall start: Option<nat> ensures HeaderOf(WriteHeader(start)) == Some(start) {
      HeaderRoundTrips(start);
    }
  }

  /** Every well-formed document, written in the envelope, is parsed back to itself. */
  lemma PatchesParseBack(validate: string -> Option<string>, operations: seq<Operation>)
    requires WellFormed(Envelope(validate), operations) && operations != []
    ensures Document(Envelope(validate), Render(Envelope(validate), Writing(), operations)) == Some(operations)
  {
    EnvelopeIsValid(validate);
    WritingFits(validate);
    DocumentsParseBack(Envelope(validate), Writing(), operations);
  }

  /** The same for the patch as one text, if no path and no line of a body contains a line break. */
  lemma PatchTextsParseBack(validate: string -> Option<string>, operations: seq<Operation>)
    requires WellFormed(Envelope(validate), operations) && operations != []
    requires AreLines(Render(Envelope(validate), Writing(), operations))
    ensures Document(Envelope(validate), SplitLines(Text(Render(Envelope(validate), Writing(), operations), true)))
         == Some(operations)
  {
    WrittenLinesAreReadBack(Render(Envelope(validate), Writing(), operations), true);
    PatchesParseBack(validate, operations);
  }

  // ---------------------------------------------------------------- what a numbered header is

  predicate AllDigits(text: string) { forall i :: 0 <= i < |text| ==> IsDigit(text[i]) }

  /** The header read as a pattern: digits, an optional comma with digits, and a closing. */
  ghost predicate MatchesHeader(line: string, start: nat) {
    exists digits: string, count: string, tail: string :: HeaderParts(line, start, digits, count, tail)
  }

  ghost predicate HeaderParts(line: string, start: nat, digits: string, count: string, tail: string) {
    && line == "@@ -" + (digits + (count + tail))
    && digits != "" && AllDigits(digits) && Value(digits) == start
    && IsCount(count) && Closes(tail)
  }

  predicate IsCount(count: string) {
    count == "" || (|count| > 1 && count[0] == ',' && AllDigits(count[1..]))
  }

  lemma CountIsSkipped(count: string, tail: string)
    requires IsCount(count) && Closes(tail)
    ensures AfterCount(count + tail) == tail
    ensures count + tail != "" && !IsDigit((count + tail)[0])
  {
    if count == "" {
      assert count + tail == tail;
    } else {
      assert (count + tail)[1..] == count[1..] + tail;
      DigitsOf(count[1..], tail);
      assert (count + tail)[1 + |count[1..]|..] == tail;
    }
  }

  lemma NumberedLine(line: string, digits: string, rest: string)
    requires line == "@@ -" + (digits + rest)
    ensures |line| >= 4 && line[0] == '@' && line[1] == '@' && line[2] == ' ' && line[3] == '-' && line != "@@"
    ensures line[4..] == digits + rest
  {
  }

  lemma HeaderPartsAreRead(line: string, start: nat, digits: string, count: string, tail: string)
    requires HeaderParts(line, start, digits, count, tail)
    ensures HeaderOf(line) == Some(Some(start))
  {
    var rest := count + tail;
    NumberedLine(line, digits, rest);
    CountIsSkipped(count, tail);
    DigitsOf(digits, rest);
    DigitsThenRest(digits, rest);
  }

  lemma DigitsThenRest(digits: string, rest: string)
    ensures (digits + rest)[..|digits|] == digits && (digits + rest)[|digits|..] == rest
  {
  }

  lemma ReadPartsMatch(line: string, start: nat)
    requires HeaderOf(line) == Some(Some(start))
    ensures MatchesHeader(line, start)
  {
    var after := line[4..];
    DigitsSplit(after, Digits(after));
    PartsFromRest(line, start, after[..Digits(after)], after[Digits(after)..]);
  }

  lemma DigitsSplit(text: string, n: nat)
    requires n <= |text| && forall i :: 0 <= i < n ==> IsDigit(text[i])
    ensures text == text[..n] + text[n..] && AllDigits(text[..n])
  {
  }

  lemma PartsFromRest(line: string, start: nat, digits: string, rest: string)
    requires |line| >= 4 && line[0] == '@' && line[1] == '@' && line[2] == ' ' && line[3] == '-'
    requires line[4..] == digits + rest && digits != "" && AllDigits(digits) && Value(digits) == start
    requires Closes(AfterCount(rest))
    ensures MatchesHeader(line, start)
  {
    CountIsDigits(rest);
    var count := rest[..|rest| - |AfterCount(rest)|];
    OpenedLine(line, digits, rest);
    assert HeaderParts(line, start, digits, count, AfterCount(rest));
  }

  lemma OpenedLine(line: string, digits: string, rest: string)
    requires |line| >= 4 && line[0] == '@' && line[1] == '@' && line[2] == ' ' && line[3] == '-'
    requires line[4..] == digits + rest
    ensures line == "@@ -" + (digits + rest)
  {
    assert line == line[..4] + line[4..] && line[..4] == "@@ -";
  }

  /** Reading greedily finds a match exactly when there is one, whatever the split. */
  lemma HeaderOfIsTheMatch(line: string, start: nat)
    ensures HeaderOf(line) == Some(Some(start)) <==> MatchesHeader(line, start)
  {
    if HeaderOf(line) == Some(Some(start)) {
      ReadPartsMatch(line, start);
    }
    if MatchesHeader(line, start) {
      var digits, count, tail :| HeaderParts(line, start, digits, count, tail);
      HeaderPartsAreRead(line, start, digits, count, tail);
    }
  }

  lemma CountIsDigits(rest: string)
    ensures |AfterCount(rest)| <= |rest|
    ensures var count := rest[..|rest| - |AfterCount(rest)|];
      && rest == count + AfterCount(rest)
      && IsCount(count)
  {
    if rest != "" && rest[0] == ',' && Digits(rest[1..]) > 0 {
      var n := Digits(rest[1..]);
      var count := rest[..1 + n];
      assert count[1..] == rest[1..][..n];
      assert rest[..|rest| - |AfterCount(rest)|] == count;
    }
  }
}
