/** Parsing the patch envelope (agent/tools/apply_patch.py, parse_patch). How a section line or a hunk
    header is recognized is a parameter here, given in PatchGrammar. */
module PatchParser {
  import opened Common
  import opened TextLines
  import opened PatchHunks
  import opened PatchCommit

  datatype SectionKind = AddSection | UpdateSection | DeleteSection
  datatype Section = Section(kind: SectionKind, rawPath: string)

  /** Recognizers of the two kinds of marker lines, and the validation that normalizes a path. */
  datatype Grammar = Grammar(
    begin: string, end: string,
    section: string -> Option<Section>, header: string -> Option<Option<nat>>, validate: string -> Option<string>)
  {
    predicate IsSection(line: string) { section(line).Some? }
    predicate IsHeader(line: string) { header(line).Some? }

    /** Marker lines cannot be mistaken for each other or for lines of a body. */
    ghost predicate Valid() {
      && (forall line :: IsSection(line) ==> line != "" && line[0] == '*')
      && (forall line :: IsHeader(line) ==> line != "" && line[0] == '@')
    }
  }

  // ---------------------------------------------------------------- the grammar as functions

  /** How many lines come before the first section line. */
  function BeforeSection(g: Grammar, lines: seq<string>): (n: nat)
    ensures n <= |lines|
    ensures forall i :: 0 <= i < n ==> !g.IsSection(lines[i])
    ensures n < |lines| ==> g.IsSection(lines[n])
  {
    if lines == [] || g.IsSection(lines[0]) then 0 else 1 + BeforeSection(g, lines[1..])
  }

  function BeforeHeader(g: Grammar, lines: seq<string>): (n: nat)
    ensures n <= |lines|
    ensures forall i :: 0 <= i < n ==> !g.IsHeader(lines[i])
    ensures n < |lines| ==> g.IsHeader(lines[n])
  {
    if lines == [] || g.IsHeader(lines[0]) then 0 else 1 + BeforeHeader(g, lines[1..])
  }

  function AddedText(lines: seq<string>): Option<seq<string>> {
    if lines == [] then Some([])
    else if lines[0] == "" || lines[0][0] != '+' then None
    else Prepend(lines[0][1..], AddedText(lines[1..]))
  }

  function HunkLineOf(line: string): Option<HunkLine> {
    if line == "" then None
    else if line[0] == ' ' then Some(HunkLine(Context, line[1..]))
    else if line[0] == '-' then Some(HunkLine(Remove, line[1..]))
    else if line[0] == '+' then Some(HunkLine(Add, line[1..]))
    else None
  }

  function HunkBody(lines: seq<string>): Option<seq<HunkLine>> {
    if lines == [] then Some([])
    else
      var line := HunkLineOf(lines[0]);
      if line.None? then None else Prepend(line.value, HunkBody(lines[1..]))
  }

  function Prepend<T>(first: T, rest: Option<seq<T>>): Option<seq<T>> {
    if rest.None? then None else Some([first] + rest.value)
  }

  predicate HasMutation(lines: seq<HunkLine>) { exists i :: 0 <= i < |lines| && lines[i].kind != Context }

  function Hunks(g: Grammar, lines: seq<string>): Option<seq<Hunk>>
    decreases |lines|
  {
    if lines == [] then Some([])
    else if !g.IsHeader(lines[0]) then None
    else
      var n := BeforeHeader(g, lines[1..]);
      var body := HunkBody(lines[1..][..n]);
      if body.None? || !HasMutation(body.value) then None
      else Prepend(Hunk(body.value, g.header(lines[0]).value), Hunks(g, lines[1..][n..]))
  }

  /** The operation of one section, from the lines between its own line and the next section. */
  function SectionBody(g: Grammar, kind: SectionKind, path: string, body: seq<string>): Option<Operation> {
    match kind
    case AddSection =>
      var text := AddedText(body);
      if text.None? then None else Some(AddFile(path, text.value))
    case DeleteSection => if body != [] then None else Some(DeleteFile(path))
    case UpdateSection =>
      var hunks := Hunks(g, body);
      if hunks.None? || hunks.value == [] then None else Some(UpdateFile(path, hunks.value))
  }

  function Sections(g: Grammar, lines: seq<string>, seen: set<string>): Option<seq<Operation>>
    decreases |lines|
  {
    if lines == [] then Some([])
    else if !g.IsSection(lines[0]) then None
    else
      var section := g.section(lines[0]).value;
      var path := g.validate(section.rawPath);
      if path.None? || path.value in seen then None
      else
        var n := BeforeSection(g, lines[1..]);
        var operation := SectionBody(g, section.kind, path.value, lines[1..][..n]);
        if operation.None? then None
        else Prepend(operation.value, Sections(g, lines[1..][n..], seen + {path.value}))
  }

  function Document(g: Grammar, lines: seq<string>): Option<seq<Operation>> {
    if |lines| < 2 || lines[0] != g.begin || lines[|lines| - 1] != g.end then None
    else
      var operations := Sections(g, lines[1..|lines| - 1], {});
      if operations == Some([]) then None else operations
  }

  // ---------------------------------------------------------------- writing a document

  function Lead(kind: LineKind): char {
    match kind case Context => ' ' case Remove => '-' case Add => '+'
  }

  function RenderHunkLines(lines: seq<HunkLine>): seq<string> {
    if lines == [] then [] else [[Lead(lines[0].kind)] + lines[0].text] + RenderHunkLines(lines[1..])
  }

  function RenderBody(body: seq<string>): seq<string> {
    if body == [] then [] else ["+" + body[0]] + RenderBody(body[1..])
  }

  /** How marker lines are written. */
  datatype Writer = Writer(section: (SectionKind, string) -> string, header: Option<nat> -> string)
  {
    /** What is written is recognized, with the same meaning. */
    ghost predicate Fits(g: Grammar) {
      && (forall kind, path :: g.validate(path) == Some(path) ==> g.section(section(kind, path)) == Some(Section(kind, path)))
      && (forall start :: g.header(header(start)) == Some(start))
    }
  }

  function RenderHunks(w: Writer, hunks: seq<Hunk>): seq<string> {
    if hunks == [] then []
    else [w.header(hunks[0].oldStart)] + RenderHunkLines(hunks[0].lines) + RenderHunks(w, hunks[1..])
  }

  function KindOf(operation: Operation): SectionKind {
    match operation case AddFile(_, _) => AddSection case UpdateFile(_, _) => UpdateSection case DeleteFile(_) => DeleteSection
  }

  function RenderSectionBody(w: Writer, operation: Operation): seq<string> {
    match operation
    case AddFile(_, body) => RenderBody(body)
    case UpdateFile(_, hunks) => RenderHunks(w, hunks)
    case DeleteFile(_) => []
  }

  function RenderSections(w: Writer, operations: seq<Operation>): seq<string> {
    if operations == [] then []
    else [w.section(KindOf(operations[0]), operations[0].path)] + RenderSectionBody(w, operations[0])
         + RenderSections(w, operations[1..])
  }

  function Render(g: Grammar, w: Writer, operations: seq<Operation>): seq<string> {
    [g.begin] + RenderSections(w, operations) + [g.end]
  }

  /** A document the envelope can hold: normalized distinct paths, updates that are not empty, and a
      mutation in every hunk. */
  ghost predicate WellFormed(g: Grammar, operations: seq<Operation>) {
    && (forall i :: 0 <= i < |operations| ==> g.validate(operations[i].path) == Some(operations[i].path))
    && (forall i, j :: 0 <= i < j < |operations| ==> operations[i].path != operations[j].path)
    && (forall i :: 0 <= i < |operations| ==> BodyOk(operations[i]))
  }

  ghost predicate BodyOk(operation: Operation) {
    operation.UpdateFile? ==>
      operation.hunks != [] && forall k :: 0 <= k < |operation.hunks| ==> HasMutation(operation.hunks[k].lines)
  }

  // ---------------------------------------------------------------- parsing what was written

  /** Lines of a body begin with a space, '-' or '+', so they are neither sections nor headers. */
  ghost predicate OnlyBody(lines: seq<string>) {
    forall i :: 0 <= i < |lines| ==> lines[i] != "" && (lines[i][0] == ' ' || lines[i][0] == '-' || lines[i][0] == '+')
  }

  ghost predicate NoSections(g: Grammar, lines: seq<string>) {
    forall i :: 0 <= i < |lines| ==> !g.IsSection(lines[i])
  }

  lemma {:induction false} BodyBeforeHeader(g: Grammar, body: seq<string>, rest: seq<string>)
    requires g.Valid() && OnlyBody(body) && (rest == [] || g.IsHeader(rest[0]))
    ensures BeforeHeader(g, body + rest) == |body|
  {
    if body == [] {
      assert body + rest == rest;
    } else {
      assert (body + rest)[1..] == body[1..] + rest;
      BodyBeforeHeader(g, body[1..], rest);
    }
  }

  lemma {:induction false} LinesBeforeSection(g: Grammar, body: seq<string>, rest: seq<string>)
    requires NoSections(g, body) && (rest == [] || g.IsSection(rest[0]))
    ensures BeforeSection(g, body + rest) == |body|
  {
    if body == [] {
      assert body + rest == rest;
    } else {
      assert (body + rest)[1..] == body[1..] + rest;
      assert forall i :: 0 <= i < |body[1..]| ==> body[1..][i] == body[i + 1];
      LinesBeforeSection(g, body[1..], rest);
    }
  }

  lemma {:induction false} HunkLinesParseBack(lines: seq<HunkLine>)
    ensures HunkBody(RenderHunkLines(lines)) == Some(lines)
    ensures OnlyBody(RenderHunkLines(lines))
  {
    if lines != [] {
      HunkLinesParseBack(lines[1..]);
      var first := [Lead(lines[0].kind)] + lines[0].text;
      assert first[1..] == lines[0].text;
      assert RenderHunkLines(lines)[1..] == RenderHunkLines(lines[1..]);
      assert [lines[0]] + lines[1..] == lines;
    }
  }

  lemma {:induction false} BodyParsesBack(body: seq<string>)
    ensures AddedText(RenderBody(body)) == Some(body)
    ensures OnlyBody(RenderBody(body))
  {
    if body != [] {
      BodyParsesBack(body[1..]);
      assert ("+" + body[0])[1..] == body[0];
      assert RenderBody(body)[1..] == RenderBody(body[1..]);
      assert [body[0]] + body[1..] == body;
    }
  }

  lemma {:induction false} HunksParseBack(g: Grammar, w: Writer, hunks: seq<Hunk>)
    requires g.Valid() && w.Fits(g)
    requires forall k :: 0 <= k < |hunks| ==> HasMutation(hunks[k].lines)
    ensures Hunks(g, RenderHunks(w, hunks)) == Some(hunks)
    ensures NoSections(g, RenderHunks(w, hunks))
    ensures hunks != [] ==> RenderHunks(w, hunks) != [] && g.IsHeader(RenderHunks(w, hunks)[0])
  {
    if hunks != [] {
      HunksParseBack(g, w, hunks[1..]);
      HunkLinesParseBack(hunks[0].lines);
      var head := w.header(hunks[0].oldStart);
      HunkInFront(g, head, RenderHunkLines(hunks[0].lines), RenderHunks(w, hunks[1..]), hunks[0]);
      NoSectionsInFront(g, head, RenderHunkLines(hunks[0].lines), RenderHunks(w, hunks[1..]));
      assert [hunks[0]] + hunks[1..] == hunks;
    }
  }

  /** A header and its body lines in front of other hunks. */
  lemma HunkInFront(g: Grammar, head: string, body: seq<string>, rest: seq<string>, hunk: Hunk)
    requires g.Valid() && g.header(head) == Some(hunk.oldStart) && HasMutation(hunk.lines)
    requires HunkBody(body) == Some(hunk.lines) && OnlyBody(body) && (rest == [] || g.IsHeader(rest[0]))
    ensures Hunks(g, [head] + body + rest) == Prepend(hunk, Hunks(g, rest))
  {
    BodyBeforeHeader(g, body, rest);
    InFront(head, body, rest);
  }

  lemma InFront(head: string, body: seq<string>, rest: seq<string>)
    ensures var lines := [head] + body + rest;
      lines[0] == head && lines[1..][..|body|] == body && lines[1..][|body|..] == rest && lines[1..] == body + rest
  {
    var lines := [head] + body + rest;
    assert lines[1..] == body + rest;
  }

  lemma NoSectionsInFront(g: Grammar, head: string, body: seq<string>, rest: seq<string>)
    requires g.Valid() && g.IsHeader(head) && OnlyBody(body) && NoSections(g, rest)
    ensures NoSections(g, [head] + body + rest)
  {
  }

  lemma SectionBodyParsesBack(g: Grammar, w: Writer, operation: Operation)
    requires g.Valid() && w.Fits(g) && BodyOk(operation)
    ensures SectionBody(g, KindOf(operation), operation.path, RenderSectionBody(w, operation)) == Some(operation)
    ensures NoSections(g, RenderSectionBody(w, operation))
  {
    match operation {
      case AddFile(_, body) => BodyParsesBack(body);
      case UpdateFile(_, hunks) => HunksParseBack(g, w, hunks);
      case DeleteFile(_) =>
    }
  }

  lemma WellFormedTail(g: Grammar, operations: seq<Operation>, seen: set<string>)
    requires operations != [] && WellFormed(g, operations)
    requires forall i :: 0 <= i < |operations| ==> operations[i].path !in seen
    ensures WellFormed(g, operations[1..])
    ensures forall i :: 0 <= i < |operations[1..]| ==> operations[1..][i].path !in seen + {operations[0].path}
  {
  }

  lemma {:induction false} SectionsParseBack(g: Grammar, w: Writer, operations: seq<Operation>, seen: set<string>)
    requires g.Valid() && w.Fits(g) && WellFormed(g, operations)
    requires forall i :: 0 <= i < |operations| ==> operations[i].path !in seen
    ensures Sections(g, RenderSections(w, operations), seen) == Some(operations)
    ensures operations != [] ==> RenderSections(w, operations) != [] && g.IsSection(RenderSections(w, operations)[0])
  {
    if operations != [] {
      var first, others := operations[0], operations[1..];
      WellFormedTail(g, operations, seen);
      SectionsParseBack(g, w, others, seen + {first.path});
      SectionBodyParsesBack(g, w, first);
      SectionInFront(g, w.section(KindOf(first), first.path), RenderSectionBody(w, first), RenderSections(w, others), first, seen);
      assert [first] + others == operations;
    }
  }

  /** A section line and its body in front of other sections. */
  lemma SectionInFront(g: Grammar, head: string, body: seq<string>, rest: seq<string>, operation: Operation, seen: set<string>)
    requires g.section(head) == Some(Section(KindOf(operation), operation.path))
    requires g.validate(operation.path) == Some(operation.path) && operation.path !in seen
    requires SectionBody(g, KindOf(operation), operation.path, body) == Some(operation) && NoSections(g, body)
    requires rest == [] || g.IsSection(rest[0])
    ensures Sections(g, [head] + body + rest, seen) == Prepend(operation, Sections(g, rest, seen + {operation.path}))
  {
    LinesBeforeSection(g, body, rest);
    InFront(head, body, rest);
  }

  /** Parsing undoes writing, for every well-formed document. */
  lemma DocumentsParseBack(g: Grammar, w: Writer, operations: seq<Operation>)
    requires g.Valid() && w.Fits(g) && WellFormed(g, operations) && operations != []
    ensures Document(g, Render(g, w, operations)) == Some(operations)
  {
    SectionsParseBack(g, w, operations, {});
    var lines := Render(g, w, operations);
    assert lines[1..|lines| - 1] == RenderSections(w, operations);
  }

  // ---------------------------------------------------------------- what parsing accepts

  lemma {:induction false} ParsedHunksMutate(g: Grammar, lines: seq<string>)
    requires Hunks(g, lines).Some?
    ensures forall k :: 0 <= k < |Hunks(g, lines).value| ==> HasMutation(Hunks(g, lines).value[k].lines)
    decreases |lines|
  {
    if lines != [] {
      var n := BeforeHeader(g, lines[1..]);
      ParsedHunksMutate(g, lines[1..][n..]);
    }
  }

  /** Whatever is parsed is a well-formed document. */
  lemma {:induction false} ParsedSectionsAreWellFormed(g: Grammar, lines: seq<string>, seen: set<string>)
    requires forall raw, path :: g.validate(raw) == Some(path) ==> g.validate(path) == Some(path)
    requires Sections(g, lines, seen).Some?
    ensures WellFormed(g, Sections(g, lines, seen).value)
    ensures forall i :: 0 <= i < |Sections(g, lines, seen).value| ==> Sections(g, lines, seen).value[i].path !in seen
    decreases |lines|
  {
    if lines != [] {
      var section := g.section(lines[0]).value;
      var path := g.validate(section.rawPath).value;
      var n := BeforeSection(g, lines[1..]);
      var body := lines[1..][..n];
      ParsedSectionsAreWellFormed(g, lines[1..][n..], seen + {path});
      if section.kind.UpdateSection? {
        ParsedHunksMutate(g, body);
      }
      var first := SectionBody(g, section.kind, path, body).value;
      WellFormedCons(g, first, Sections(g, lines[1..][n..], seen + {path}).value);
    }
  }

  lemma WellFormedCons(g: Grammar, first: Operation, others: seq<Operation>)
    requires WellFormed(g, others) && g.validate(first.path) == Some(first.path) && BodyOk(first)
    requires forall i :: 0 <= i < |others| ==> others[i].path != first.path
    ensures WellFormed(g, [first] + others)
  {
  }

  /** Parsing, writing and parsing again gives the same document: parsing only forgets spellings. */
  lemma ParsingIsStable(g: Grammar, w: Writer, lines: seq<string>)
    requires g.Valid() && w.Fits(g)
    requires forall raw, path :: g.validate(raw) == Some(path) ==> g.validate(path) == Some(path)
    requires Document(g, lines).Some?
    ensures WellFormed(g, Document(g, lines).value)
    ensures Document(g, Render(g, w, Document(g, lines).value)) == Document(g, lines)
  {
    ParsedSectionsAreWellFormed(g, lines[1..|lines| - 1], {});
    DocumentsParseBack(g, w, Document(g, lines).value);
  }

  // ---------------------------------------------------------------- the parser

  /** The loop over sections: each one consumes its line and the lines up to the next section. */
  method ParsePatch(g: Grammar, patch: string) returns (parsed: Option<seq<Operation>>)
    ensures parsed == Document(g, SplitLines(patch))
  {
    var lines := SplitLines(patch);
    if |lines| < 2 || lines[0] != g.begin || lines[|lines| - 1] != g.end {
      return None;
    }
    var operations := ParseSections(g, lines[1..|lines| - 1]);
    parsed := if operations == Some([]) then None else operations;
  }

  method ParseSections(g: Grammar, lines: seq<string>) returns (parsed: Option<seq<Operation>>)
    ensures parsed == Sections(g, lines, {})
  {
    var operations: seq<Operation> := [];
    var seen: set<string> := {};
    var rest := lines;
    JoinNothing(Sections(g, lines, {}));
    while rest != []
      invariant Sections(g, lines, {}) == Join(operations, Sections(g, rest, seen))
      decreases |rest|
    {
      var operation, next := ParseOne(g, rest, seen);
      if operation.None? {
        return None;
      }
      JoinNext(operations, operation.value, Sections(g, rest[next..], seen + {operation.value.path}));
      operations := operations + [operation.value];
      seen := seen + {operation.value.path};
      rest := rest[next..];
    }
    assert operations + [] == operations;
    parsed := Some(operations);
  }

  /** One section from its own line to the next one; None when it is refused. */
  method ParseOne(g: Grammar, lines: seq<string>, seen: set<string>) returns (operation: Option<Operation>, next: nat)
    requires lines != []
    ensures operation.None? ==> Sections(g, lines, seen).None?
    ensures operation.Some? ==> 0 < next <= |lines|
    ensures operation.Some? ==>
      Sections(g, lines, seen) == Prepend(operation.value, Sections(g, lines[next..], seen + {operation.value.path}))
  {
    next := 0;
    var section := g.section(lines[0]);
    if section.None? {
      return None, next;
    }
    var path := g.validate(section.value.rawPath);
    if path.None? || path.value in seen {
      return None, next;
    }
    var rest := lines[1..];
    operation, next := ParseSection(g, section.value.kind, path.value, rest);
    SectionsNext(g, lines, seen, section.value, path.value, operation, BeforeSection(g, rest));
    next := 1 + next;
  }

  lemma SectionsNext(g: Grammar, lines: seq<string>, seen: set<string>, section: Section, path: string, operation: Option<Operation>, n: nat)
    requires lines != [] && g.section(lines[0]) == Some(section) && g.validate(section.rawPath) == Some(path) && path !in seen
    requires n == BeforeSection(g, lines[1..]) && operation == SectionBody(g, section.kind, path, lines[1..][..n])
    ensures operation.None? ==> Sections(g, lines, seen).None?
    ensures operation.Some? ==> operation.value.path == path
    ensures operation.Some? ==>
      Sections(g, lines, seen) == Prepend(operation.value, Sections(g, lines[1 + n..], seen + {path}))
  {
    assert lines[1..][n..] == lines[1 + n..];
  }

  function Join<T>(front: seq<T>, rest: Option<seq<T>>): Option<seq<T>> {
    if rest.None? then None else Some(front + rest.value)
  }

  lemma JoinNothing<T>(rest: Option<seq<T>>)
    ensures Join([], rest) == rest
  {
    if rest.Some? {
      assert [] + rest.value == rest.value;
    }
  }

  lemma JoinNext<T>(front: seq<T>, next: T, rest: Option<seq<T>>)
    ensures Join(front, Prepend(next, rest)) == Join(front + [next], rest)
  {
    if rest.Some? {
      assert front + ([next] + rest.value) == front + [next] + rest.value;
    }
  }

  /** The body of one section, up to the next section line; an error may stop earlier. */
  method ParseSection(g: Grammar, kind: SectionKind, path: string, lines: seq<string>) returns (operation: Option<Operation>, next: nat)
    ensures operation == SectionBody(g, kind, path, lines[..BeforeSection(g, lines)])
    ensures operation.Some? ==> next == BeforeSection(g, lines)
  {
    next := 0;
    match kind {
      case AddSection =>
        var text;
        text, next := ParseAdded(g, lines);
        operation := if text.None? then None else Some(AddFile(path, text.value));
      case DeleteSection =>
        operation := if lines != [] && g.section(lines[0]).None? then None else Some(DeleteFile(path));
      case UpdateSection =>
        next := FindSection(g, lines);
        var hunks := ParseHunks(g, lines[..next]);
        operation := if hunks.None? || hunks.value == [] then None else Some(UpdateFile(path, hunks.value));
    }
  }

  method FindSection(g: Grammar, lines: seq<string>) returns (next: nat)
    ensures next == BeforeSection(g, lines)
  {
    next := 0;
    while next < |lines| && !g.IsSection(lines[next])
      invariant next <= |lines| && BeforeSection(g, lines) == next + BeforeSection(g, lines[next..])
    {
      assert lines[next..][1..] == lines[next + 1..];
      next := next + 1;
    }
  }

  method ParseAdded(g: Grammar, lines: seq<string>) returns (text: Option<seq<string>>, next: nat)
    ensures text == AddedText(lines[..BeforeSection(g, lines)])
    ensures text.Some? ==> next == BeforeSection(g, lines)
  {
    var body: seq<string> := [];
    next := 0;
    ghost var n := BeforeSection(g, lines);
    JoinNothing(AddedText(lines[..n]));
    assert lines[0..n] == lines[..n];
    while next < |lines| && !g.IsSection(lines[next])
      invariant next <= n && AddedText(lines[..n]) == Join(body, AddedText(lines[next..n]))
    {
      assert next < n;
      assert lines[next..n][1..] == lines[next + 1..n] && lines[next..n][0] == lines[next];
      if lines[next] == "" || lines[next][0] != '+' {
        return None, next;
      }
      JoinNext(body, lines[next][1..], AddedText(lines[next + 1..n]));
      body := body + [lines[next][1..]];
      next := next + 1;
    }
    assert next == n && lines[next..n] == [] && body + [] == body;
    text := Some(body);
  }

  method ParseHunks(g: Grammar, lines: seq<string>) returns (hunks: Option<seq<Hunk>>)
    ensures hunks == Hunks(g, lines)
  {
    var found: seq<Hunk> := [];
    var rest := lines;
    JoinNothing(Hunks(g, lines));
    while rest != []
      invariant Hunks(g, lines) == Join(found, Hunks(g, rest))
      decreases |rest|
    {
      var hunk, next := ParseHunk(g, rest);
      if hunk.None? {
        return None;
      }
      JoinNext(found, hunk.value, Hunks(g, rest[next..]));
      found := found + [hunk.value];
      rest := rest[next..];
    }
    assert found + [] == found;
    hunks := Some(found);
  }

  method ParseHunk(g: Grammar, lines: seq<string>) returns (hunk: Option<Hunk>, next: nat)
    requires lines != []
    ensures hunk.None? ==> Hunks(g, lines).None?
    ensures hunk.Some? ==> 0 < next <= |lines| && Hunks(g, lines) == Prepend(hunk.value, Hunks(g, lines[next..]))
  {
    next := 0;
    var header := g.header(lines[0]);
    if header.None? {
      return None, next;
    }
    var body, n := ParseHunkBody(g, lines[1..]);
    if body.None? || !HasMutation(body.value) {
      return None, next;
    }
    assert lines[1..][n..] == lines[1 + n..];
    return Some(Hunk(body.value, header.value)), 1 + n;
  }

  method ParseHunkBody(g: Grammar, lines: seq<string>) returns (body: Option<seq<HunkLine>>, next: nat)
    ensures body == HunkBody(lines[..BeforeHeader(g, lines)])
    ensures body.Some? ==> next == BeforeHeader(g, lines)
  {
    var found: seq<HunkLine> := [];
    next := 0;
    ghost var n := BeforeHeader(g, lines);
    JoinNothing(HunkBody(lines[..n]));
    assert lines[0..n] == lines[..n];
    while next < |lines| && !g.IsHeader(lines[next])
      invariant next <= n && HunkBody(lines[..n]) == Join(found, HunkBody(lines[next..n]))
    {
      assert next < n;
      assert lines[next..n][1..] == lines[next + 1..n] && lines[next..n][0] == lines[next];
      var line := HunkLineOf(lines[next]);
      if line.None? {
        return None, next;
      }
      JoinNext(found, line.value, HunkBody(lines[next + 1..n]));
      found := found + [line.value];
      next := next + 1;
    }
    assert next == n && lines[next..n] == [] && found + [] == found;
    body := Some(found);
  }
}
