/** Which texts are patches, and of what: the envelope line by line with its own characters, and that the parser
    accepts exactly these (agent/tools/apply_patch.py, parse_patch). */
module PatchSpelling {
  import opened Common
  import opened TextLines
  import opened PatchHunks
  import opened PatchCommit
  import opened PatchParser
  import opened PatchGrammar
  import Decimal

  // ---------------------------------------------------------------- body lines

  /** A line of a hunk is its text behind a blank, a minus or a plus. */
  ghost predicate SpellsLine(line: string, hunkLine: HunkLine) {
    match hunkLine.kind
    case Context => line == " " + hunkLine.text
    case Remove => line == "-" + hunkLine.text
    case Add => line == "+" + hunkLine.text
  }

  ghost predicate SpellsLines(lines: seq<string>, hunkLines: seq<HunkLine>) {
    |lines| == |hunkLines| && forall k :: 0 <= k < |lines| ==> SpellsLine(lines[k], hunkLines[k])
  }

  ghost predicate SpellsAdded(lines: seq<string>, text: seq<string>) {
    |lines| == |text| && forall k :: 0 <= k < |lines| ==> lines[k] == "+" + text[k]
  }

  lemma LineIff(line: string, hunkLine: HunkLine)
    ensures HunkLineOf(line) == Some(hunkLine) <==> SpellsLine(line, hunkLine)
  {
    if line != "" {
      assert line == [line[0]] + line[1..];
    }
    assert (" " + hunkLine.text)[1..] == hunkLine.text && ("-" + hunkLine.text)[1..] == hunkLine.text
      && ("+" + hunkLine.text)[1..] == hunkLine.text;
  }

  lemma {:induction false} LinesIff(lines: seq<string>, hunkLines: seq<HunkLine>)
    ensures HunkBody(lines) == Some(hunkLines) <==> SpellsLines(lines, hunkLines)
  {
    if lines != [] && hunkLines != [] {
      LineIff(lines[0], hunkLines[0]);
      LinesIff(lines[1..], hunkLines[1..]);
      SpelledCons(lines, hunkLines);
      assert hunkLines == [hunkLines[0]] + hunkLines[1..];
    }
  }

  lemma SpelledCons(lines: seq<string>, hunkLines: seq<HunkLine>)
    requires lines != [] && hunkLines != []
    ensures SpellsLines(lines, hunkLines) <==> SpellsLine(lines[0], hunkLines[0]) && SpellsLines(lines[1..], hunkLines[1..])
  {
    if SpellsLine(lines[0], hunkLines[0]) && SpellsLines(lines[1..], hunkLines[1..]) {
      forall k | 0 <= k < |lines| ensures SpellsLine(lines[k], hunkLines[k]) {
        if k > 0 {
          assert lines[k] == lines[1..][k - 1] && hunkLines[k] == hunkLines[1..][k - 1];
        }
      }
    }
  }

  lemma {:induction false} AddedIff(lines: seq<string>, text: seq<string>)
    ensures AddedText(lines) == Some(text) <==> SpellsAdded(lines, text)
  {
    if lines != [] && text != [] {
      if lines[0] != "" {
        assert lines[0] == [lines[0][0]] + lines[0][1..];
      }
      assert ("+" + text[0])[1..] == text[0];
      AddedIff(lines[1..], text[1..]);
      AddedCons(lines, text);
      assert text == [text[0]] + text[1..];
    }
  }

  lemma AddedCons(lines: seq<string>, text: seq<string>)
    requires lines != [] && text != []
    ensures SpellsAdded(lines, text) <==> lines[0] == "+" + text[0] && SpellsAdded(lines[1..], text[1..])
  {
    if lines[0] == "+" + text[0] && SpellsAdded(lines[1..], text[1..]) {
      forall k | 0 <= k < |lines| ensures lines[k] == "+" + text[k] {
        if k > 0 {
          assert lines[k] == lines[1..][k - 1] && text[k] == text[1..][k - 1];
        }
      }
    }
  }

  lemma SpelledIsBody(lines: seq<string>, hunkLines: seq<HunkLine>)
    requires SpellsLines(lines, hunkLines)
    ensures OnlyBody(lines)
  {
    forall k | 0 <= k < |lines| ensures lines[k] != "" && (lines[k][0] == ' ' || lines[k][0] == '-' || lines[k][0] == '+') {
      assert SpellsLine(lines[k], hunkLines[k]);
    }
  }

  // ---------------------------------------------------------------- hunks

  /** Hunks one after the other: a header with the hunk's number, and its lines, one of which changes something. */
  ghost predicate SpellsHunks(g: Grammar, lines: seq<string>, hunks: seq<Hunk>)
    decreases |hunks|, 1
  {
    if hunks == [] then lines == [] else exists n: nat :: FirstHunkEnds(g, lines, hunks, n)
  }

  ghost predicate FirstHunkEnds(g: Grammar, lines: seq<string>, hunks: seq<Hunk>, n: nat)
    requires hunks != []
    decreases |hunks|, 0
  {
    0 < n <= |lines| && SpellsHunk(g, lines[..n], hunks[0]) && SpellsHunks(g, lines[n..], hunks[1..])
  }

  ghost predicate SpellsHunk(g: Grammar, lines: seq<string>, hunk: Hunk) {
    && lines != [] && g.header(lines[0]) == Some(hunk.oldStart) && SpellsLines(lines[1..], hunk.lines)
    && exists k :: 0 <= k < |hunk.lines| && (hunk.lines[k].kind == Remove || hunk.lines[k].kind == Add)
  }

  lemma MutationIff(lines: seq<HunkLine>)
    ensures HasMutation(lines) <==> exists k :: 0 <= k < |lines| && (lines[k].kind == Remove || lines[k].kind == Add)
  {
  }

  lemma {:induction false} SpelledHunksAreRead(g: Grammar, lines: seq<string>, hunks: seq<Hunk>)
    requires g.Valid() && SpellsHunks(g, lines, hunks)
    ensures Hunks(g, lines) == Some(hunks) && NoSections(g, lines)
    ensures lines != [] ==> g.IsHeader(lines[0])
    decreases |hunks|
  {
    if hunks != [] {
      var n: nat :| FirstHunkEnds(g, lines, hunks, n);
      SpelledHunksAreRead(g, lines[n..], hunks[1..]);
      FirstHunkIsRead(g, lines, n, lines[n..], hunks[0], hunks[1..]);
      Headed(hunks);
    }
  }

  lemma FirstHunkIsRead(g: Grammar, lines: seq<string>, n: nat, rest: seq<string>, hunk: Hunk, hunks: seq<Hunk>)
    requires g.Valid() && 0 < n <= |lines| && lines[n..] == rest && SpellsHunk(g, lines[..n], hunk)
    requires Hunks(g, rest) == Some(hunks) && NoSections(g, rest) && (rest == [] || g.IsHeader(rest[0]))
    ensures Hunks(g, lines) == Some([hunk] + hunks) && NoSections(g, lines) && g.IsHeader(lines[0])
  {
    HunkIsRead(g, lines[..n], rest, hunk);
    assert lines == lines[..n] + rest;
  }

  lemma HunkIsRead(g: Grammar, first: seq<string>, rest: seq<string>, hunk: Hunk)
    requires g.Valid() && SpellsHunk(g, first, hunk) && NoSections(g, rest) && (rest == [] || g.IsHeader(rest[0]))
    ensures Hunks(g, first + rest) == Prepend(hunk, Hunks(g, rest)) && NoSections(g, first + rest)
    ensures g.IsHeader((first + rest)[0])
  {
    var body := first[1..];
    LinesIff(body, hunk.lines);
    SpelledIsBody(body, hunk.lines);
    MutationIff(hunk.lines);
    HunkStands(g, first[0], body, rest, hunk);
    assert first == [first[0]] + body;
  }

  lemma HunkStands(g: Grammar, head: string, body: seq<string>, rest: seq<string>, hunk: Hunk)
    requires g.Valid() && g.header(head) == Some(hunk.oldStart) && HasMutation(hunk.lines)
    requires HunkBody(body) == Some(hunk.lines) && OnlyBody(body) && (rest == [] || g.IsHeader(rest[0])) && NoSections(g, rest)
    ensures var lines := [head] + body + rest;
      Hunks(g, lines) == Prepend(hunk, Hunks(g, rest)) && NoSections(g, lines) && g.IsHeader(lines[0])
  {
    HunkInFront(g, head, body, rest, hunk);
    NoSectionsInFront(g, head, body, rest);
  }

  lemma {:induction false} ReadHunksAreSpelled(g: Grammar, lines: seq<string>, hunks: seq<Hunk>)
    requires Hunks(g, lines) == Some(hunks)
    ensures SpellsHunks(g, lines, hunks)
    decreases |lines|
  {
    if lines != [] {
      var n := 1 + BeforeHeader(g, lines[1..]);
      var rest := Hunks(g, lines[n..]);
      assert lines[1..][..n - 1] == lines[..n][1..] && lines[1..][n - 1..] == lines[n..];
      LinesIff(lines[..n][1..], hunks[0].lines);
      MutationIff(hunks[0].lines);
      assert hunks[1..] == rest.value;
      ReadHunksAreSpelled(g, lines[n..], hunks[1..]);
      assert SpellsHunk(g, lines[..n], hunks[0]);
      assert FirstHunkEnds(g, lines, hunks, n);
    }
  }

  // ---------------------------------------------------------------- sections

  ghost predicate SpellsOperation(g: Grammar, body: seq<string>, operation: Operation) {
    match operation
    case AddFile(_, text) => SpellsAdded(body, text)
    case DeleteFile(_) => body == []
    case UpdateFile(_, hunks) => hunks != [] && SpellsHunks(g, body, hunks)
  }

  ghost predicate OfKind(operation: Operation, kind: SectionKind) {
    match kind case AddSection => operation.AddFile? case UpdateSection => operation.UpdateFile? case DeleteSection => operation.DeleteFile?
  }

  /** A section line of the operation's kind whose path normalizes to the operation's, and its body. */
  ghost predicate SpellsSection(g: Grammar, lines: seq<string>, operation: Operation) {
    && lines != [] && g.section(lines[0]).Some?
    && var section := g.section(lines[0]).value;
    && OfKind(operation, section.kind) && g.validate(section.rawPath) == Some(operation.path)
    && SpellsOperation(g, lines[1..], operation)
  }

  /** Sections one after the other, for paths that are all different. */
  ghost predicate SpellsSections(g: Grammar, lines: seq<string>, operations: seq<Operation>, seen: set<string>)
    decreases |operations|, 1
  {
    if operations == [] then lines == [] else exists n: nat :: FirstSectionEnds(g, lines, operations, seen, n)
  }

  ghost predicate FirstSectionEnds(g: Grammar, lines: seq<string>, operations: seq<Operation>, seen: set<string>, n: nat)
    requires operations != []
    decreases |operations|, 0
  {
    && 0 < n <= |lines| && SpellsSection(g, lines[..n], operations[0]) && operations[0].path !in seen
    && SpellsSections(g, lines[n..], operations[1..], seen + {operations[0].path})
  }

  lemma SpelledOperationIsRead(g: Grammar, kind: SectionKind, body: seq<string>, operation: Operation)
    requires g.Valid() && OfKind(operation, kind) && SpellsOperation(g, body, operation)
    ensures SectionBody(g, kind, operation.path, body) == Some(operation) && NoSections(g, body)
  {
    match operation
    case AddFile(_, text) => AddedIff(body, text);
    case DeleteFile(_) =>
    case UpdateFile(_, hunks) => SpelledHunksAreRead(g, body, hunks);
  }

  lemma ReadOperationIsSpelled(g: Grammar, kind: SectionKind, path: string, body: seq<string>)
    requires SectionBody(g, kind, path, body).Some?
    ensures var operation := SectionBody(g, kind, path, body).value;
      OfKind(operation, kind) && operation.path == path && SpellsOperation(g, body, operation)
  {
    match kind
    case AddSection => AddedIff(body, AddedText(body).value);
    case DeleteSection =>
    case UpdateSection => ReadHunksAreSpelled(g, body, Hunks(g, body).value);
  }

  lemma {:induction false} SpelledSectionsAreRead(g: Grammar, lines: seq<string>, operations: seq<Operation>, seen: set<string>)
    requires g.Valid() && SpellsSections(g, lines, operations, seen)
    ensures Sections(g, lines, seen) == Some(operations)
    ensures lines != [] ==> g.IsSection(lines[0])
    decreases |operations|
  {
    if operations != [] {
      var n: nat :| FirstSectionEnds(g, lines, operations, seen, n);
      SpelledSectionsAreRead(g, lines[n..], operations[1..], seen + {operations[0].path});
      FirstSectionIsRead(g, lines, n, lines[n..], operations[0], operations[1..], seen);
      Headed(operations);
    }
  }

  lemma Headed<T>(s: seq<T>)
    requires s != []
    ensures s == [s[0]] + s[1..]
  {
  }

  lemma FirstSectionIsRead(
      g: Grammar, lines: seq<string>, n: nat, rest: seq<string>, operation: Operation, operations: seq<Operation>, seen: set<string>)
    requires g.Valid() && 0 < n <= |lines| && lines[n..] == rest && SpellsSection(g, lines[..n], operation)
    requires Sections(g, rest, seen + {operation.path}) == Some(operations) && (rest == [] || g.IsSection(rest[0]))
    requires operation.path !in seen
    ensures Sections(g, lines, seen) == Some([operation] + operations) && g.IsSection(lines[0])
  {
    SectionIsRead(g, lines[..n], rest, operation, seen);
    assert lines == lines[..n] + rest;
  }

  lemma SectionIsRead(g: Grammar, first: seq<string>, rest: seq<string>, operation: Operation, seen: set<string>)
    requires g.Valid() && SpellsSection(g, first, operation) && operation.path !in seen
    requires rest == [] || g.IsSection(rest[0])
    ensures Sections(g, first + rest, seen) == Prepend(operation, Sections(g, rest, seen + {operation.path}))
    ensures g.IsSection((first + rest)[0])
  {
    var section := g.section(first[0]).value;
    SpelledOperationIsRead(g, section.kind, first[1..], operation);
    SectionStands(g, first[0], section, first[1..], rest, operation, seen);
    assert first == [first[0]] + first[1..];
  }

  lemma SectionStands(
      g: Grammar, head: string, section: Section, body: seq<string>, rest: seq<string>, operation: Operation, seen: set<string>)
    requires g.section(head) == Some(section) && g.validate(section.rawPath) == Some(operation.path)
    requires SectionBody(g, section.kind, operation.path, body) == Some(operation) && NoSections(g, body)
    requires operation.path !in seen && (rest == [] || g.IsSection(rest[0]))
    ensures Sections(g, [head] + body + rest, seen) == Prepend(operation, Sections(g, rest, seen + {operation.path}))
  {
    LinesBeforeSection(g, body, rest);
    InFront(head, body, rest);
  }

  lemma {:induction false} ReadSectionsAreSpelled(g: Grammar, lines: seq<string>, operations: seq<Operation>, seen: set<string>)
    requires Sections(g, lines, seen) == Some(operations)
    ensures SpellsSections(g, lines, operations, seen)
    decreases |lines|
  {
    if lines != [] {
      var section := g.section(lines[0]).value;
      var path := g.validate(section.rawPath).value;
      var n := 1 + BeforeSection(g, lines[1..]);
      assert lines[1..][..n - 1] == lines[..n][1..] && lines[1..][n - 1..] == lines[n..];
      ReadOperationIsSpelled(g, section.kind, path, lines[..n][1..]);
      assert operations[1..] == Sections(g, lines[n..], seen + {path}).value;
      ReadSectionsAreSpelled(g, lines[n..], operations[1..], seen + {path});
      assert SpellsSection(g, lines[..n], operations[0]);
      assert FirstSectionEnds(g, lines, operations, seen, n);
    }
  }

  // ---------------------------------------------------------------- the envelope

  /** A section line: the words of its kind, and the path behind at most one blank. */
  ghost predicate IsSectionLine(line: string, kind: SectionKind, path: string) {
    var words := match kind
      case AddSection => "*** Add File:" case UpdateSection => "*** Update File:" case DeleteSection => "*** Delete File:";
    line == words + " " + path || (line == words + path && (path == "" || path[0] != ' '))
  }

  /** A header: bare, or numbered; the number may have a count and anything else before it closes. */
  ghost predicate IsHeaderLine(line: string, start: Option<nat>) {
    match start
    case None => line == "@@"
    case Some(number) => exists digits: string, count: string, tail: string :: IsNumbered(line, number, digits, count, tail)
  }

  ghost predicate IsNumbered(line: string, number: nat, digits: string, count: string, tail: string) {
    && line == "@@ -" + digits + count + tail && IsNumber(digits) && Decimal.Value(digits) == number
    && (count == "" || (count[0] == ',' && IsNumber(count[1..])))
    && (tail == "@@" || exists heading: string :: tail == " " + heading + "@@")
  }

  ghost predicate IsNumber(text: string) { text != "" && forall i :: 0 <= i < |text| ==> '0' <= text[i] <= '9' }

  lemma SectionIff(line: string, kind: SectionKind, path: string)
    ensures SectionOf(line) == Some(Section(kind, path)) <==> IsSectionLine(line, kind, path)
  {
    Different(line);
    assert ADD_OPENING == "*** Add File:" && UPDATE_OPENING == "*** Update File:" && DELETE_OPENING == "*** Delete File:";
    PathIff(line, Opening(kind), path);
    if IsSectionLine(line, kind, path) {
      assert line[4] == Opening(kind)[4];
    }
  }

  lemma PathIff(line: string, opening: string, path: string)
    ensures StartsWith(line, opening) && PathAfter(line, opening) == path <==>
      line == opening + " " + path || (line == opening + path && (path == "" || path[0] != ' '))
  {
    if StartsWith(line, opening) {
      var rest := line[|opening|..];
      assert line == opening + rest;
      if rest != "" && rest[0] == ' ' {
        assert rest == " " + rest[1..];
      }
    }
    if line == opening + " " + path {
      assert line == opening + (" " + path);
      OpensWith(line, opening, " " + path);
      assert (" " + path)[1..] == path;
    }
    if line == opening + path {
      OpensWith(line, opening, path);
    }
  }

  lemma {:induction false} ValuesAgree(digits: string)
    requires forall i :: 0 <= i < |digits| ==> IsDigit(digits[i])
    ensures PatchGrammar.Value(digits) == Decimal.Value(digits)
  {
    if digits != "" {
      assert IsDigit(digits[|digits| - 1]);
      ValuesAgree(digits[..|digits| - 1]);
    }
  }

  lemma ClosesIff(tail: string)
    ensures Closes(tail) <==> tail == "@@" || exists heading: string :: tail == " " + heading + "@@"
  {
    if |tail| >= 3 && tail[0] == ' ' && tail[|tail| - 2] == '@' && tail[|tail| - 1] == '@' {
      assert tail == " " + tail[1..|tail| - 2] + "@@";
    }
  }

  lemma NumberedIff(line: string, number: nat, digits: string, count: string, tail: string)
    ensures IsNumbered(line, number, digits, count, tail) <==> HeaderParts(line, number, digits, count, tail)
  {
    assert IsNumber(digits) <==> digits != "" && AllDigits(digits);
    if IsNumber(digits) {
      ValuesAgree(digits);
    }
    ClosesIff(tail);
    assert "@@ -" + digits + count + tail == "@@ -" + (digits + (count + tail));
  }

  lemma HeaderIff(line: string, start: Option<nat>)
    ensures HeaderOf(line) == Some(start) <==> IsHeaderLine(line, start)
  {
    if start.Some? {
      HeaderOfIsTheMatch(line, start.value);
      NumberedMatches(line, start.value);
    }
  }

  lemma NumberedMatches(line: string, number: nat)
    ensures MatchesHeader(line, number) <==> IsHeaderLine(line, Some(number))
  {
    if MatchesHeader(line, number) {
      var digits, count, tail :| HeaderParts(line, number, digits, count, tail);
      NumberedIff(line, number, digits, count, tail);
    }
    if IsHeaderLine(line, Some(number)) {
      var digits, count, tail :| IsNumbered(line, number, digits, count, tail);
      NumberedIff(line, number, digits, count, tail);
    }
  }

  /** A patch: the two markers around sections, at least one. */
  ghost predicate SpellsPatch(g: Grammar, lines: seq<string>, operations: seq<Operation>) {
    && |lines| >= 2 && lines[0] == "*** Begin Patch" && lines[|lines| - 1] == "*** End Patch"
    && operations != [] && SpellsSections(g, lines[1..|lines| - 1], operations, {})
  }

  /** The parser accepts exactly the lines that spell a patch, and reads exactly what they spell. */
  lemma PatchIsParsedIff(validate: string -> Option<string>, lines: seq<string>, operations: seq<Operation>)
    ensures var g := Envelope(validate); Document(g, lines) == Some(operations) <==> SpellsPatch(g, lines, operations)
  {
    var g := Envelope(validate);
    EnvelopeIsValid(validate);
    assert BEGIN == "*** Begin Patch" && END == "*** End Patch";
    if |lines| >= 2 {
      if Document(g, lines) == Some(operations) {
        ReadSectionsAreSpelled(g, lines[1..|lines| - 1], operations, {});
      }
      if SpellsPatch(g, lines, operations) {
        SpelledSectionsAreRead(g, lines[1..|lines| - 1], operations, {});
      }
    }
  }
}
