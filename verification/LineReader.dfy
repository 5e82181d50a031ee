/** The streaming page reader (agent/tools/filesystem.py, read_text_page): one pass over decoded pieces
    keeps only the requested lines, yet returns the page of the pure line split. */
module LineReader {
  import opened TextLines
  import opened LineEnds

  predicate InPage(number: int, offset: int, limit: int) {
    offset <= number < offset + limit
  }

  /** The lines whose one-based number lies in the page. */
  function Page(lines: seq<string>, offset: int, limit: int): seq<string> {
    if lines == [] then []
    else
      var n := |lines|;
      Page(lines[..n - 1], offset, limit) + if InPage(n, offset, limit) then [lines[n - 1]] else []
  }

  /** The lines `offset` to `offset + limit - 1`, as far as they exist. */
  function Slice(lines: seq<string>, offset: int, limit: int): seq<string>
    requires offset >= 1 && limit >= 0
  {
    if |lines| < offset then []
    else lines[offset - 1..if offset - 1 + limit < |lines| then offset - 1 + limit else |lines|]
  }

  lemma SliceGrows(lines: seq<string>, line: string, offset: int, limit: int)
    requires offset >= 1 && limit >= 0
    ensures Slice(lines + [line], offset, limit)
         == Slice(lines, offset, limit) + if InPage(|lines| + 1, offset, limit) then [line] else []
  {
  }

  /** A page is a slice of the lines. */
  lemma {:induction false} PageIsSlice(lines: seq<string>, offset: int, limit: int)
    requires offset >= 1 && limit >= 0
    ensures Page(lines, offset, limit) == Slice(lines, offset, limit)
  {
    if lines != [] {
      var n := |lines|;
      PageIsSlice(lines[..n - 1], offset, limit);
      SliceGrows(lines[..n - 1], lines[n - 1], offset, limit);
      assert lines[..n - 1] + [lines[n - 1]] == lines;
    }
  }

  function Join(parts: seq<string>): string {
    if parts == [] then "" else Join(parts[..|parts| - 1]) + parts[|parts| - 1]
  }

  /** A line is in the page, at its own place, exactly when its one-based number is in the range. */
  lemma SliceHolds(lines: seq<string>, offset: int, limit: int, number: nat)
    requires offset >= 1 && limit >= 0 && 1 <= number <= |lines|
    ensures offset <= number < offset + limit ==>
      number - offset < |Slice(lines, offset, limit)| && Slice(lines, offset, limit)[number - offset] == lines[number - 1]
    ensures |Slice(lines, offset, limit)| <= limit
    ensures |Slice(lines, offset, limit)| <= if |lines| < offset then 0 else |lines| - offset + 1
  {
  }

  class PageScanner {
    const offset: int
    const limit: int
    var page: seq<string>
    var lineParts: seq<string>
    var totalLines: nat
    var lineHasContent: bool
    var skipLfAfterCr: bool
    /** Where the character-by-character scan of everything consumed so far stands. */
    ghost var scan: Scan

    constructor (offset: int, limit: int)
      ensures this.offset == offset && this.limit == limit
      ensures Valid() && scan == START
    {
      this.offset, this.limit := offset, limit;
      page, lineParts, totalLines := [], [], 0;
      lineHasContent, skipLfAfterCr := false, false;
      scan := START;
    }

    /** The fields hold the page and the count for `lines`, and `taken` of the line after them. */
    ghost predicate Holds(lines: seq<string>, taken: string)
      reads this
    {
      && totalLines == |lines|
      && page == Page(lines, offset, limit)
      && (lineHasContent <==> taken != "")
      && Join(lineParts) == if InPage(totalLines + 1, offset, limit) then taken else ""
    }

    ghost predicate Valid()
      reads this
    {
      Consistent(scan) && Holds(scan.lines, scan.partial) && skipLfAfterCr == scan.afterCr
    }

    method RetainLine(ghost lines: seq<string>, ghost line: string)
      requires Holds(lines, line)
      modifies this`page, this`lineParts, this`totalLines, this`lineHasContent
      ensures Holds(lines + [line], "")
    {
      assert (lines + [line])[..|lines|] == lines;
      totalLines := totalLines + 1;
      if offset <= totalLines < offset + limit {
        page := page + [Join(lineParts)];
      }
      lineParts := [];
      lineHasContent := false;
    }

    /** Keeps a run of characters of the current line if the line is requested. */
    method KeepRun(run: string, ghost lines: seq<string>, ghost taken: string)
      requires Holds(lines, taken)
      modifies this`lineParts, this`lineHasContent
      ensures Holds(lines, taken + run)
    {
      if run != "" {
        lineHasContent := true;
        if offset <= totalLines + 1 < offset + limit {
          assert (lineParts + [run])[..|lineParts|] == lineParts;
          lineParts := lineParts + [run];
        }
      } else {
        assert taken + run == taken;
      }
    }

    /** Ends the current line at the separator `decoded[index]`; a CR also takes the LF right after it,
        or remembers to skip one at the start of the next piece. */
    method EndLine(decoded: string, start: nat, index: nat, ghost lines: seq<string>, ghost taken: string)
      returns (next: nat)
      requires start <= index < |decoded| && IsSeparator(decoded[index])
      requires Holds(lines, taken) && !skipLfAfterCr
      modifies this`page, this`lineParts, this`totalLines, this`lineHasContent, this`skipLfAfterCr
      ensures Holds(lines + [taken + decoded[start..index]], "")
      ensures next == index + TerminatorLength(decoded, index)
      ensures skipLfAfterCr == (decoded[index] == '\r' && index + 1 == |decoded|)
    {
      KeepRun(decoded[start..index], lines, taken);
      RetainLine(lines, taken + decoded[start..index]);
      next := index;
      if decoded[index] == '\r' {
        if index + 1 < |decoded| && decoded[index + 1] == '\n' {
          next := next + 1;
        } else if index + 1 == |decoded| {
          skipLfAfterCr := true;
        }
      }
      next := next + 1;
    }

    /** The LF of a CR LF that was cut in two belongs to the line already ended. */
    method SkipLf(decoded: string) returns (start: nat)
      modifies this`skipLfAfterCr
      ensures start == if old(skipLfAfterCr) && decoded != "" && decoded[0] == '\n' then 1 else 0
      ensures skipLfAfterCr == (old(skipLfAfterCr) && decoded == "")
    {
      start := 0;
      if skipLfAfterCr && decoded != "" {
        if decoded[0] == '\n' {
          start := 1;
        }
        skipLfAfterCr := false;
      }
    }

    /** Inside a piece: the scan stands at `here`, the fields hold its lines, and the current line is
        `taken` and what the piece has from `start` to `index`. */
    ghost predicate Reading(here: Scan, taken: string, decoded: string, start: nat, index: nat)
      reads this
    {
      && start <= index <= |decoded|
      && Advance(here, decoded[index..]) == Advance(scan, decoded)
      && Holds(here.lines, taken) && here.partial == taken + decoded[start..index]
      && (index < |decoded| ==> !skipLfAfterCr && !(here.afterCr && decoded[index] == '\n'))
      && (index == |decoded| ==> skipLfAfterCr == here.afterCr)
    }

    method BeginPiece(decoded: string) returns (start: nat, ghost here: Scan)
      requires Valid()
      modifies this`skipLfAfterCr
      ensures Reading(here, scan.partial, decoded, start, start)
    {
      start := SkipLf(decoded);
      here := AfterLf(scan, decoded);
      assert scan.partial + decoded[start..start] == scan.partial;
    }

    lemma GoOn(here: Scan, taken: string, decoded: string, start: nat, index: nat) returns (next: Scan)
      requires Reading(here, taken, decoded, start, index) && index < |decoded| && !IsSeparator(decoded[index])
      ensures Reading(next, taken, decoded, start, index + 1)
    {
      next := StepInside(here, decoded, start, index, taken);
    }

    method CutLine(decoded: string, start: nat, index: nat, ghost here: Scan, ghost taken: string)
      returns (next: nat, ghost after: Scan)
      requires Reading(here, taken, decoded, start, index) && index < |decoded| && IsSeparator(decoded[index])
      modifies this`page, this`lineParts, this`totalLines, this`lineHasContent, this`skipLfAfterCr
      ensures index < next && Reading(after, "", decoded, next, next)
    {
      after := StepOver(here, decoded, index);
      next := EndLine(decoded, start, index, here.lines, taken);
      assert "" + decoded[next..next] == "";
    }

    /** One character, or one separator and the LF that belongs to it. */
    method ConsumeOne(decoded: string, start: nat, index: nat, ghost here: Scan, ghost taken: string)
      returns (nextStart: nat, next: nat, ghost after: Scan, ghost rest: string)
      requires Reading(here, taken, decoded, start, index) && index < |decoded|
      modifies this`page, this`lineParts, this`totalLines, this`lineHasContent, this`skipLfAfterCr
      ensures index < next && Reading(after, rest, decoded, nextStart, next)
    {
      if !IsSeparator(decoded[index]) {
        after := GoOn(here, taken, decoded, start, index);
        nextStart, next, rest := start, index + 1, taken;
      } else {
        next, after := CutLine(decoded, start, index, here, taken);
        nextStart, rest := next, "";
      }
    }

    method Consume(decoded: string)
      requires Valid()
      modifies this
      ensures Valid() && scan == Advance(old(scan), decoded)
    {
      ghost var here, taken := scan, scan.partial;
      var start: nat;
      start, here := BeginPiece(decoded);
      var index: nat := start;
      while index < |decoded|
        invariant Reading(here, taken, decoded, start, index) && scan == old(scan) && Consistent(scan)
      {
        start, index, here, taken := ConsumeOne(decoded, start, index, here, taken);
      }
      EndPiece(decoded, start, here, taken);
    }

    /** The end of a piece keeps what it holds of the current line. */
    method EndPiece(decoded: string, start: nat, ghost here: Scan, ghost taken: string)
      requires Reading(here, taken, decoded, start, |decoded|) && Consistent(scan)
      modifies this
      ensures Valid() && scan == Advance(old(scan), decoded)
    {
      AdvanceConsistent(scan, decoded);
      assert decoded[start..|decoded|] == decoded[start..] && decoded[|decoded|..] == "";
      KeepRun(decoded[start..], here.lines, taken);
      scan := here;
    }

    /** End of input: an unterminated last line counts if it has content. */
    method Finish()
      requires Valid()
      modifies this
      ensures page == Page(Lines(old(scan)), offset, limit)
      ensures totalLines == |Lines(old(scan))|
    {
      if lineHasContent {
        RetainLine(scan.lines, scan.partial);
      }
    }
  }

  lemma AdvanceOne(s: Scan, text: string)
    requires text != ""
    ensures Advance(s, text) == Advance(Step(s, text[0]), text[1..])
  {
    assert text == [text[0]] + text[1..];
    AdvanceConcat(s, [text[0]], text[1..]);
    assert [text[0]][..0] == "";
  }

  /** The scan after the LF that ends a CR LF, if the text starts with it. */
  lemma AfterLf(s: Scan, text: string) returns (next: Scan)
    ensures var start := if s.afterCr && text != "" && text[0] == '\n' then 1 else 0;
      && next == s.(afterCr := s.afterCr && start == 0)
      && Advance(next, text[start..]) == Advance(s, text)
      && (start < |text| ==> !(next.afterCr && text[start] == '\n'))
  {
    if s.afterCr && text != "" && text[0] == '\n' {
      AdvanceOne(s, text);
      next := Step(s, '\n');
    } else {
      next := s;
      assert text[0..] == text;
    }
  }

  /** The scan after an ordinary character at `index` of a run that began at `start`. */
  lemma StepInside(s: Scan, text: string, start: nat, index: nat, taken: string) returns (next: Scan)
    requires start <= index < |text| && !IsSeparator(text[index]) && s.partial == taken + text[start..index]
    ensures next.lines == s.lines && next.partial == taken + text[start..index + 1] && !next.afterCr
    ensures Advance(s, text[index..]) == Advance(next, text[index + 1..])
  {
    AdvanceOne(s, text[index..]);
    assert text[index..][1..] == text[index + 1..];
    next := Step(s, text[index]);
    assert text[start..index + 1] == text[start..index] + [text[index]];
  }

  /** The scan after the separator at `index`, LF of a CR LF included. */
  lemma StepOver(s: Scan, text: string, index: nat) returns (next: Scan)
    requires index < |text| && IsSeparator(text[index]) && !(s.afterCr && text[index] == '\n')
    ensures var n := index + TerminatorLength(text, index);
      && next.lines == s.lines + [s.partial] && next.partial == ""
      && Advance(s, text[index..]) == Advance(next, text[n..])
      && (n < |text| ==> !(next.afterCr && text[n] == '\n'))
      && (n == |text| ==> next.afterCr == (text[index] == '\r' && index + 1 == |text|))
  {
    next := Step(s, text[index]);
    AdvanceOne(s, text[index..]);
    assert text[index..][1..] == text[index + 1..];
    if TerminatorLength(text, index) == 2 {
      AdvanceOne(next, text[index + 1..]);
      assert text[index + 1..][1..] == text[index + 2..];
      next := Step(next, '\n');
    }
  }

  /** However the decoder cuts a file into pieces, the page and the line count are those of the pure
      line split of the whole text. */
  method ReadTextPage(pieces: seq<string>, offset: int, limit: int) returns (page: seq<string>, totalLines: nat)
    ensures page == Page(SplitLines(Join(pieces)), offset, limit)
    ensures totalLines == |SplitLines(Join(pieces))|
    ensures IsSplit(Join(pieces), SplitLines(Join(pieces)))
    ensures offset >= 1 && limit >= 0 ==> page == Slice(SplitLines(Join(pieces)), offset, limit)
  {
    SplitLinesIsTheSplit(Join(pieces), SplitLines(Join(pieces)));
    if offset >= 1 && limit >= 0 {
      PageIsSlice(SplitLines(Join(pieces)), offset, limit);
    }
    var scanner := new PageScanner(offset, limit);
    var next := 0;
    while next < |pieces|
      invariant next <= |pieces|
      invariant fresh(scanner) && scanner.Valid() && scanner.offset == offset && scanner.limit == limit
      invariant scanner.scan == Advance(START, Join(pieces[..next]))
    {
      assert pieces[..next + 1][..next] == pieces[..next];
      AdvanceConcat(START, Join(pieces[..next]), pieces[next]);
      scanner.Consume(pieces[next]);
      next := next + 1;
    }
    assert pieces[..next] == pieces;
    ScanIsSplitLines(Join(pieces));
    scanner.Finish();
    return scanner.page, scanner.totalLines;
  }
}
