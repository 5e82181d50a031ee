/** The byte-bounded page reader (agent/tools/filesystem.py, read_text_page_bounded). */
module BoundedReader {
  import opened Utf8
  import opened TextLines
  import opened LineEnds
  import opened LineReader
  import Decimal

  function Codes(s: string): seq<CodePoint> {
    seq(|s|, i requires 0 <= i < |s| => s[i] as int)
  }

  function Bytes(s: string): seq<Byte> {
    if s == "" then [] else Bytes(s[..|s| - 1]) + EncodeOne(s[|s| - 1] as int)
  }

  lemma {:induction false} EncodeConcat(a: seq<CodePoint>, b: seq<CodePoint>)
    ensures Encode(a + b) == Encode(a) + Encode(b)
  {
    if a == [] {
      assert a + b == b;
    } else {
      EncodeConcat(a[1..], b);
      assert (a + b)[1..] == a[1..] + b;
    }
  }

  lemma {:induction false} BytesAreEncoding(s: string)
    ensures Bytes(s) == Encode(Codes(s))
  {
    if s != "" {
      BytesAreEncoding(s[..|s| - 1]);
      EncodeConcat(Codes(s[..|s| - 1]), [s[|s| - 1] as int]);
      assert Codes(s) == Codes(s[..|s| - 1]) + [s[|s| - 1] as int];
      assert [s[|s| - 1] as int][1..] == [];
    }
  }

  lemma BytesSnoc(s: string, c: char)
    ensures Bytes(s + [c]) == Bytes(s) + EncodeOne(c as int)
  {
    assert (s + [c])[..|s|] == s;
  }

  lemma ConcatIsAssociative(a: seq<Byte>, b: seq<Byte>, c: seq<Byte>)
    ensures (a + b) + c == a + (b + c)
  {
  }

  lemma {:induction false} BytesConcat(a: string, b: string)
    ensures Bytes(a + b) == Bytes(a) + Bytes(b)
  {
    if b == "" {
      assert a + b == a;
      assert Bytes(a) + [] == Bytes(a);
    } else {
      var front, c := b[..|b| - 1], b[|b| - 1];
      BytesConcat(a, front);
      BytesSnoc(front, c);
      BytesSnoc(a + front, c);
      ConcatIsAssociative(Bytes(a), Bytes(front), EncodeOne(c as int));
      assert b == front + [c];
      assert a + b == (a + front) + [c];
    }
  }

  // ---------------------------------------------------------------- what a page should show

  function RowPrefix(number: nat): string { Decimal.Render(number) + ": " }

  function CountInPage(n: nat, offset: int, limit: int): nat {
    if n == 0 then 0 else CountInPage(n - 1, offset, limit) + if InPage(n, offset, limit) then 1 else 0
  }

  function RowSeparator(n: nat, offset: int, limit: int): string {
    if CountInPage(n, offset, limit) > 0 then "\n" else ""
  }

  /** The numbered rows of the page, one per line. */
  function Listing(lines: seq<string>, offset: int, limit: int): string {
    if lines == [] then ""
    else
      var n := |lines| - 1;
      var before := Listing(lines[..n], offset, limit);
      if InPage(n + 1, offset, limit) then
        before + RowSeparator(n, offset, limit) + RowPrefix(n + 1) + lines[n]
      else before
  }

  function ListingBytes(lines: seq<string>, offset: int, limit: int): seq<Byte> {
    Bytes(Listing(lines, offset, limit))
  }

  /** Bytes of the listing that survive a capacity: everything if it fits; otherwise the rows before
      the first row that does not fit, and as much of that row as there is room for, unless not even
      its number fits. */
  function Kept(lines: seq<string>, offset: int, limit: int, capacity: nat): nat {
    if |ListingBytes(lines, offset, limit)| <= capacity || lines == [] then |ListingBytes(lines, offset, limit)|
    else
      var n := |lines| - 1;
      var before := |ListingBytes(lines[..n], offset, limit)|;
      if before > capacity then Kept(lines[..n], offset, limit, capacity)
      else if before + |Bytes(RowSeparator(n, offset, limit))| + |Bytes(RowPrefix(n + 1))| > capacity then before
      else capacity
  }

  lemma ListingGrows(lines: seq<string>, line: string, offset: int, limit: int)
    ensures var n := |lines|;
      ListingBytes(lines + [line], offset, limit)
      == if InPage(n + 1, offset, limit) then
           ListingBytes(lines, offset, limit) + Bytes(RowSeparator(n, offset, limit)) + Bytes(RowPrefix(n + 1)) + Bytes(line)
         else ListingBytes(lines, offset, limit)
  {
    var n := |lines|;
    assert (lines + [line])[..n] == lines;
    var before := Listing(lines, offset, limit);
    BytesConcat(before + RowSeparator(n, offset, limit) + RowPrefix(n + 1), line);
    BytesConcat(before + RowSeparator(n, offset, limit), RowPrefix(n + 1));
    BytesConcat(before, RowSeparator(n, offset, limit));
  }

  lemma {:induction false} KeptIsWithin(lines: seq<string>, offset: int, limit: int, capacity: nat)
    ensures Kept(lines, offset, limit, capacity) <= capacity
    ensures Kept(lines, offset, limit, capacity) <= |ListingBytes(lines, offset, limit)|
  {
    if lines != [] {
      KeptIsWithin(lines[..|lines| - 1], offset, limit, capacity);
      ListingGrows(lines[..|lines| - 1], lines[|lines| - 1], offset, limit);
      assert lines == lines[..|lines| - 1] + [lines[|lines| - 1]];
    } else {
      assert Bytes("") == [];
    }
  }

  /** What Kept becomes when a row follows. */
  lemma KeptGrows(lines: seq<string>, line: string, offset: int, limit: int, capacity: nat)
    ensures var n := |lines|;
      var before, after := |ListingBytes(lines, offset, limit)|, |ListingBytes(lines + [line], offset, limit)|;
      && before <= after
      && Kept(lines + [line], offset, limit, capacity)
      == if after <= capacity then after
         else if before > capacity then Kept(lines, offset, limit, capacity)
         else if before + |Bytes(RowSeparator(n, offset, limit))| + |Bytes(RowPrefix(n + 1))| > capacity then before
         else capacity
  {
    ListingGrows(lines, line, offset, limit);
    assert (lines + [line])[..|lines|] == lines;
  }

  lemma {:induction false} RowPrefixBytes(number: nat)
    ensures |Bytes(RowPrefix(number))| >= 3
  {
    BytesConcat(Decimal.Render(number), ": ");
    BytesAtLeastLength(Decimal.Render(number));
    BytesAtLeastLength(": ");
  }

  lemma {:induction false} BytesAtLeastLength(s: string)
    ensures |Bytes(s)| >= |s|
  {
    if s != "" {
      BytesAtLeastLength(s[..|s| - 1]);
    }
  }

  // ---------------------------------------------------------------- the streaming reader

  const LONG_MARKER := "\n... output truncated ..."
  const SHORT_MARKER := "...truncated..."

  class BoundedScanner {
    const offset: int
    const limit: int
    const maxBytes: nat
    const capacity: nat
    var output: seq<Byte>
    var totalLines: nat
    var returnedLines: nat
    var truncated: bool
    var lineBytes: nat
    var capture: seq<Byte>
    var captureTruncated: bool
    var skipLfAfterCr: bool
    /** Where the character-by-character scan of everything consumed so far stands. */
    ghost var scan: Scan

    constructor (offset: int, limit: int, maxBytes: nat, capacity: nat)
      requires capacity <= maxBytes
      ensures this.offset == offset && this.limit == limit && this.maxBytes == maxBytes && this.capacity == capacity
      ensures Valid() && scan == START
    {
      this.offset, this.limit, this.maxBytes, this.capacity := offset, limit, maxBytes, capacity;
      output, totalLines, returnedLines, truncated := [], 0, 0, false;
      lineBytes, capture, captureTruncated := 0, [], false;
      skipLfAfterCr := false;
      scan := START;
    }

    ghost predicate OutputHolds(lines: seq<string>)
      reads this`totalLines, this`truncated, this`output, this`returnedLines
    {
      var full := ListingBytes(lines, offset, limit);
      && totalLines == |lines|
      && truncated == (|full| > capacity)
      && Kept(lines, offset, limit, capacity) <= |full|
      && output == full[..Kept(lines, offset, limit, capacity)]
      && (!truncated ==> returnedLines == CountInPage(|lines|, offset, limit))
    }

    /** The captured bytes are the line itself, or, once a character did not fit, agree with it up to
        three bytes below the limit, although narrower characters after it may still be captured. */
    ghost predicate Captures(line: seq<Byte>)
      reads this`capture, this`captureTruncated
    {
      if captureTruncated then
        && |line| > maxBytes && |capture| <= maxBytes <= |capture| + 3
        && var sure := if maxBytes < 3 then 0 else maxBytes - 3;
        && capture[..sure] == line[..sure]
      else capture == line && |line| <= maxBytes
    }

    ghost predicate LineHolds(partial: string)
      reads this`totalLines, this`lineBytes, this`capture, this`captureTruncated
    {
      && lineBytes == |Bytes(partial)|
      && if InPage(totalLines + 1, offset, limit) then Captures(Bytes(partial)) else capture == [] && !captureTruncated
    }

    ghost predicate Valid()
      reads this
    {
      && capacity <= maxBytes
      && Consistent(scan) && OutputHolds(scan.lines) && LineHolds(scan.partial)
      && skipLfAfterCr == scan.afterCr
    }

    /** Takes the finished line into account if the page asks for it and has not been cut yet. */
    method AppendSelectedLine(number: nat, ghost lines: seq<string>, ghost line: string)
      requires capacity <= maxBytes && number == |lines| + 1
      requires OutputHolds(lines) && LineHolds(line)
      modifies this`output, this`returnedLines, this`truncated
      ensures truncated == (|ListingBytes(lines + [line], offset, limit)| > capacity)
      ensures Kept(lines + [line], offset, limit, capacity) <= |ListingBytes(lines + [line], offset, limit)|
      ensures output == ListingBytes(lines + [line], offset, limit)[..Kept(lines + [line], offset, limit, capacity)]
      ensures !truncated ==> returnedLines == CountInPage(number, offset, limit)
    {
      ListingGrows(lines, line, offset, limit);
      KeptGrows(lines, line, offset, limit, capacity);
      if !truncated {
        UncutKeepsAll(lines, offset, limit, capacity);
      }
      TakeLine(number, ListingBytes(lines, offset, limit), ListingBytes(lines + [line], offset, limit),
        Kept(lines, offset, limit, capacity), Kept(lines + [line], offset, limit, capacity),
        Bytes(RowSeparator(number - 1, offset, limit)), Bytes(RowPrefix(number)), Bytes(line));
    }

    static lemma UncutKeepsAll(lines: seq<string>, offset: int, limit: int, capacity: nat)
      requires |ListingBytes(lines, offset, limit)| <= capacity
      ensures Kept(lines, offset, limit, capacity) == |ListingBytes(lines, offset, limit)|
    {
    }

    /** The same over the listing before and after the line. */
    method TakeLine(number: nat, ghost before: seq<Byte>, ghost after: seq<Byte>, ghost keptBefore: nat, ghost keptAfter: nat,
                    ghost separator: seq<Byte>, ghost prefix: seq<Byte>, ghost line: seq<Byte>)
      requires number >= 1 && capacity <= maxBytes && keptBefore <= |before| && output == before[..keptBefore]
      requires truncated == (|before| > capacity)
      requires !truncated ==> returnedLines == CountInPage(number - 1, offset, limit) && keptBefore == |before|
      requires separator == Bytes(RowSeparator(number - 1, offset, limit)) && prefix == Bytes(RowPrefix(number))
      requires after == if InPage(number, offset, limit) then before + separator + prefix + line else before
      requires keptAfter == if |after| <= capacity then |after|
                            else if |before| > capacity then keptBefore
                            else if |before| + |separator| + |prefix| > capacity then |before| else capacity
      requires InPage(number, offset, limit) ==> Captures(line)
      modifies this`output, this`returnedLines, this`truncated
      ensures truncated == (|after| > capacity) && keptAfter <= |after| && output == after[..keptAfter]
      ensures !truncated ==> returnedLines == CountInPage(number, offset, limit)
    {
      if !(offset <= number < offset + limit) {
        return;
      }
      if truncated {
        CutStays(before, after, keptBefore);
        return;
      }
      assert before[..|before|] == before;
      AppendRow(number, line);
      RowKept(before, separator, prefix, line, capacity, keptAfter, output);
    }

    static lemma RowKept(before: seq<Byte>, separator: seq<Byte>, prefix: seq<Byte>, line: seq<Byte>,
                         capacity: nat, kept: nat, output: seq<Byte>)
      requires var head, after := before + separator + prefix, before + separator + prefix + line;
        && |before| <= capacity
        && kept == (if |after| <= capacity then |after| else if |before| + |separator| + |prefix| > capacity then |before| else capacity)
        && output == if |after| <= capacity then after else if |head| > capacity then before else after[..capacity]
      ensures kept <= |before + separator + prefix + line| && output == (before + separator + prefix + line)[..kept]
    {
      if |before + separator + prefix| > capacity {
        assert (before + separator + prefix + line)[..|before|] == before;
      }
    }

    static lemma CutStays(before: seq<Byte>, after: seq<Byte>, kept: nat)
      requires kept <= |before| && before <= after
      ensures before[..kept] == after[..kept]
    {
    }

    /** Adds one row, whole if it fits and clipped otherwise. */
    method AppendRow(number: nat, ghost line: seq<Byte>)
      requires !truncated && |output| <= capacity <= maxBytes && number >= 1
      requires returnedLines == CountInPage(number - 1, offset, limit) && Captures(line)
      modifies this`output, this`returnedLines, this`truncated
      ensures var head := old(output) + Bytes(RowSeparator(number - 1, offset, limit)) + Bytes(RowPrefix(number));
        && truncated == (|head + line| > capacity)
        && output == if !truncated then head + line
                     else if |head| > capacity then old(output)
                     else (head + line)[..capacity]
      ensures !truncated ==> returnedLines == old(returnedLines) + 1
    {
      RowPrefixBytes(number);
      var prefix := Bytes(RowPrefix(number));
      var separator := if returnedLines > 0 then Bytes("\n") else [];
      assert separator == Bytes(RowSeparator(number - 1, offset, limit));
      var available := capacity - |output| - |separator|;
      if !captureTruncated && |prefix| + |capture| <= available {
        output := output + separator + prefix + capture;
        returnedLines := returnedLines + 1;
        return;
      }
      truncated := true;
      if available <= 0 || |prefix| > available {
        return;
      }
      var clipped := capture[..available - |prefix|];
      ClipAgrees(clipped, line, available - |prefix|);
      ClippedRow(output + separator + prefix, line, clipped, capacity);
      output := output + separator + prefix + clipped;
      returnedLines := returnedLines + 1;
    }

    lemma ClippedRow(head: seq<Byte>, line: seq<Byte>, clipped: seq<Byte>, room: nat)
      requires |head| <= room <= |head| + |line| && clipped == line[..room - |head|]
      ensures head + clipped == (head + line)[..room]
    {
    }

    lemma ClipAgrees(clipped: seq<Byte>, line: seq<Byte>, budget: nat)
      requires Captures(line) && budget + 3 <= maxBytes && budget <= |capture| && clipped == capture[..budget]
      ensures budget <= |line| && clipped == line[..budget]
    {
      if captureTruncated {
        assert capture[..budget] == capture[..maxBytes - 3][..budget];
        assert line[..budget] == line[..maxBytes - 3][..budget];
      }
    }

    method FinishLine(ghost lines: seq<string>, ghost line: string)
      requires capacity <= maxBytes && OutputHolds(lines) && LineHolds(line)
      modifies this`output, this`returnedLines, this`truncated, this`totalLines, this`lineBytes, this`capture,
               this`captureTruncated, this`skipLfAfterCr
      ensures OutputHolds(lines + [line]) && LineHolds("") && !skipLfAfterCr
    {
      AppendSelectedLine(totalLines + 1, lines, line);
      totalLines := totalLines + 1;
      lineBytes := 0;
      capture := [];
      captureTruncated := false;
      skipLfAfterCr := false;
    }

    /** One ordinary character of the current line. */
    method TakeCharacter(c: char, ghost partial: string)
      requires LineHolds(partial)
      modifies this`lineBytes, this`capture, this`captureTruncated
      ensures LineHolds(partial + [c])
    {
      var encoded := EncodeOne(c as int);
      BytesSnoc(partial, c);
      ghost var line := Bytes(partial);
      lineBytes := lineBytes + |encoded|;
      if offset <= totalLines + 1 < offset + limit {
        if |capture| + |encoded| <= maxBytes {
          CaptureMore(line, encoded);
          capture := capture + encoded;
        } else {
          if !captureTruncated {
            assert |capture| >= maxBytes - 3;
          }
          captureTruncated := true;
        }
      }
    }

    lemma CaptureMore(line: seq<Byte>, encoded: seq<Byte>)
      requires Captures(line)
      ensures var sure := if maxBytes < 3 then 0 else maxBytes - 3;
        captureTruncated ==> (capture + encoded)[..sure] == (line + encoded)[..sure]
    {
    }

    method Consume(decoded: string)
      requires Valid()
      modifies this
      ensures Valid() && scan == Advance(old(scan), decoded)
    {
      ghost var before := scan;
      var index := 0;
      while index < |decoded|
        invariant 0 <= index <= |decoded|
        invariant Valid() && scan == Advance(before, decoded[..index])
      {
        AdvanceTo(before, decoded, index);
        ConsumeCharacter(decoded[index]);
        index := index + 1;
      }
      assert decoded[..|decoded|] == decoded;
    }

    method ConsumeCharacter(c: char)
      requires Valid()
      modifies this
      ensures Valid() && scan == Step(old(scan), c)
    {
      StepConsistent(scan, c);
      if skipLfAfterCr && c == '\n' {
        skipLfAfterCr := false;
        scan := Step(scan, c);
      } else if IsSeparator(c) {
        EndLine(c);
      } else {
        GoOn(c);
      }
    }

    method EndLine(c: char)
      requires Valid() && IsSeparator(c) && !(skipLfAfterCr && c == '\n') && Consistent(Step(scan, c))
      modifies this
      ensures Valid() && scan == Step(old(scan), c)
    {
      FinishLine(scan.lines, scan.partial);
      skipLfAfterCr := c == '\r';
      scan := Step(scan, c);
    }

    method GoOn(c: char)
      requires Valid() && !IsSeparator(c) && !(skipLfAfterCr && c == '\n') && Consistent(Step(scan, c))
      modifies this`lineBytes, this`capture, this`captureTruncated, this`skipLfAfterCr, this`scan
      ensures Valid() && scan == Step(old(scan), c)
    {
      skipLfAfterCr := false;
      TakeCharacter(c, scan.partial);
      scan := Step(scan, c);
    }

    method Finish()
      requires Valid()
      modifies this
      ensures OutputHolds(Lines(old(scan)))
    {
      BytesAtLeastLength(scan.partial);
      if lineBytes > 0 {
        FinishLine(scan.lines, scan.partial);
      }
    }
  }

  lemma StepConsistent(s: Scan, c: char)
    requires Consistent(s)
    ensures Consistent(Step(s, c))
  {
  }

  lemma AdvanceTo(s: Scan, text: string, index: nat)
    requires index < |text|
    ensures Advance(s, text[..index + 1]) == Step(Advance(s, text[..index]), text[index])
  {
    assert text[..index + 1][..index] == text[..index];
  }

  /** The marker for a truncated page and the room it leaves. */
  function PageMarker(maxBytes: nat): (marker: string)
    ensures |marker| <= maxBytes
  {
    if maxBytes <= |LONG_MARKER| then SHORT_MARKER[..if maxBytes < |SHORT_MARKER| then maxBytes else |SHORT_MARKER|]
    else LONG_MARKER
  }

  function PageCapacity(maxBytes: nat): nat { maxBytes - |PageMarker(maxBytes)| }

  /** For every cutting into pieces: all lines are counted; the page is the whole listing exactly when
      that fits beside the marker, and otherwise a head of the listing followed by the marker; and it
      never exceeds the limit. */
  method ReadTextPageBounded(pieces: seq<string>, offset: int, limit: int, maxBytes: nat)
    returns (page: seq<Byte>, totalLines: nat, truncated: bool)
    requires maxBytes >= 1
    ensures var lines := SplitLines(Join(pieces));
      var full := ListingBytes(lines, offset, limit);
      var kept := Kept(lines, offset, limit, PageCapacity(maxBytes));
      && totalLines == |lines|
      && (truncated <==> |full| > PageCapacity(maxBytes))
      && kept <= |full|
      && page == if truncated then full[..kept] + Bytes(PageMarker(maxBytes)) else full
    ensures IsSplit(Join(pieces), SplitLines(Join(pieces)))
    ensures |page| <= maxBytes
  {
    SplitLinesIsTheSplit(Join(pieces), SplitLines(Join(pieces)));
    var scanner := ScanPieces(pieces, offset, limit, maxBytes);
    KeptIsWithin(SplitLines(Join(pieces)), offset, limit, PageCapacity(maxBytes));
    MarkerBytes(maxBytes);
    var marker := Bytes(PageMarker(maxBytes));
    totalLines, truncated := scanner.totalLines, scanner.truncated;
    page := scanner.output;
    if truncated {
      page := page + marker[..if maxBytes - |page| < |marker| then maxBytes - |page| else |marker|];
      assert marker[..|marker|] == marker;
    }
  }

  /** One pass over the pieces. */
  method ScanPieces(pieces: seq<string>, offset: int, limit: int, maxBytes: nat) returns (scanner: BoundedScanner)
    requires maxBytes >= 1
    ensures scanner.offset == offset && scanner.limit == limit && scanner.capacity == PageCapacity(maxBytes)
    ensures scanner.OutputHolds(SplitLines(Join(pieces)))
  {
    scanner := new BoundedScanner(offset, limit, maxBytes, PageCapacity(maxBytes));
    var next := 0;
    while next < |pieces|
      invariant 0 <= next <= |pieces|
      invariant fresh(scanner) && scanner.Valid()
      invariant scanner.scan == Advance(START, Join(pieces[..next]))
    {
      JoinNext(pieces, next);
      AdvanceConcat(START, Join(pieces[..next]), pieces[next]);
      scanner.Consume(pieces[next]);
      next := next + 1;
    }
    assert pieces[..next] == pieces;
    ScanIsSplitLines(Join(pieces));
    scanner.Finish();
  }

  lemma JoinNext(pieces: seq<string>, next: nat)
    requires next < |pieces|
    ensures Join(pieces[..next + 1]) == Join(pieces[..next]) + pieces[next]
  {
    assert pieces[..next + 1][..next] == pieces[..next];
  }

  lemma {:induction false} AsciiBytes(s: string)
    requires forall i :: 0 <= i < |s| ==> s[i] < 128 as char
    ensures |Bytes(s)| == |s| && forall i :: 0 <= i < |s| ==> Bytes(s)[i] < 128
  {
    if s != "" {
      AsciiBytes(s[..|s| - 1]);
    }
  }

  lemma MarkerBytes(maxBytes: nat)
    ensures |Bytes(PageMarker(maxBytes))| == |PageMarker(maxBytes)|
    ensures forall i :: 0 <= i < |PageMarker(maxBytes)| ==> Bytes(PageMarker(maxBytes))[i] < 128
  {
    AsciiBytes(PageMarker(maxBytes));
  }

  // ---------------------------------------------------------------- what the page shows

  /** Rows from `number` on: the number, a colon and a blank, and the line; LF between rows. */
  function Rows(lines: seq<string>, number: nat): string {
    if lines == [] then ""
    else Decimal.Render(number) + ": " + lines[0] + (if |lines| == 1 then "" else "\n") + Rows(lines[1..], number + 1)
  }

  lemma {:induction false} RowsAppend(lines: seq<string>, line: string, number: nat)
    ensures Rows(lines + [line], number)
         == Rows(lines, number) + (if lines == [] then "" else "\n") + (Decimal.Render(number + |lines|) + ": " + line)
  {
    if lines == [] {
      assert lines + [line] == [line] && [line][1..] == [];
    } else {
      var rest := lines[1..];
      assert lines + [line] == [lines[0]] + (rest + [line]) && lines == [lines[0]] + rest;
      RowsAppend(rest, line, number + 1);
      FirstRow(lines[0], rest + [line], number);
      FirstRow(lines[0], rest, number);
      RowsJoin(Decimal.Render(number) + ": " + lines[0], Rows(rest, number + 1), Decimal.Render(number + |lines|) + ": " + line);
    }
  }

  lemma FirstRow(line: string, rest: seq<string>, number: nat)
    ensures Rows([line] + rest, number)
         == Decimal.Render(number) + ": " + line + (if rest == [] then "" else "\n") + Rows(rest, number + 1)
  {
    assert ([line] + rest)[1..] == rest;
  }

  lemma RowsJoin(first: string, rest: string, row: string)
    ensures first + "\n" + (rest + "\n" + row) == first + "\n" + rest + "\n" + row
    ensures first + "\n" + ("" + "" + row) == first + "" + "" + "\n" + row
  {
  }

  lemma {:induction false} CountIsSliceLength(lines: seq<string>, offset: int, limit: int)
    requires offset >= 1 && limit >= 0
    ensures CountInPage(|lines|, offset, limit) == |Slice(lines, offset, limit)|
  {
    if lines != [] {
      var n := |lines| - 1;
      CountIsSliceLength(lines[..n], offset, limit);
      SliceGrows(lines[..n], lines[n], offset, limit);
      assert lines[..n] + [lines[n]] == lines;
    }
  }

  lemma RowTogether(before: string, separator: string, number: string, line: string)
    ensures before + separator + (number + ": ") + line == before + separator + (number + ": " + line)
  {
  }

  /** The listing is the numbered rows of the lines that the page names. */
  lemma {:induction false} ListingIsRows(lines: seq<string>, offset: int, limit: int)
    requires offset >= 1 && limit >= 0
    ensures Listing(lines, offset, limit) == Rows(Slice(lines, offset, limit), offset)
  {
    if lines != [] {
      var before, line := lines[..|lines| - 1], lines[|lines| - 1];
      assert before + [line] == lines;
      ListingIsRows(before, offset, limit);
      RowIsListed(before, line, offset, limit);
    }
  }

  lemma RowIsListed(lines: seq<string>, line: string, offset: int, limit: int)
    requires offset >= 1 && limit >= 0 && Listing(lines, offset, limit) == Rows(Slice(lines, offset, limit), offset)
    ensures Listing(lines + [line], offset, limit) == Rows(Slice(lines + [line], offset, limit), offset)
  {
    var slice, n := Slice(lines, offset, limit), |lines|;
    assert (lines + [line])[..n] == lines;
    SliceGrows(lines, line, offset, limit);
    CountIsSliceLength(lines, offset, limit);
    if InPage(n + 1, offset, limit) {
      RowsAppend(slice, line, offset);
      assert offset + |slice| == n + 1;
      RowTogether(Listing(lines, offset, limit), RowSeparator(n, offset, limit), Decimal.Render(n + 1), line);
    } else {
      assert slice + [] == slice;
    }
  }

  /** The marker, by the limit. */
  lemma MarkerIs(maxBytes: nat)
    ensures maxBytes > 25 ==> PageMarker(maxBytes) == "\n... output truncated ..."
    ensures 15 <= maxBytes <= 25 ==> PageMarker(maxBytes) == "...truncated..."
    ensures maxBytes < 15 ==> PageMarker(maxBytes) == "...truncated..."[..maxBytes]
  {
  }

  /** Behind the rows of the first `n` lines there is no room for the separator and the number of the next. */
  ghost predicate EndsBeforeRow(lines: seq<string>, offset: int, limit: int, capacity: nat, kept: nat, n: nat) {
    && n < |lines| && InPage(n + 1, offset, limit) && kept == |ListingBytes(lines[..n], offset, limit)| <= capacity
    && kept + |Bytes(RowSeparator(n, offset, limit))| + |Bytes(RowPrefix(n + 1))| > capacity
  }

  lemma LastRowCut(lines: seq<string>, line: string, offset: int, limit: int, capacity: nat)
    requires |ListingBytes(lines, offset, limit)| <= capacity < |ListingBytes(lines + [line], offset, limit)|
    ensures var kept := Kept(lines + [line], offset, limit, capacity);
      kept == capacity || EndsBeforeRow(lines + [line], offset, limit, capacity, kept, |lines|)
  {
    KeptGrows(lines, line, offset, limit, capacity);
    ListingGrows(lines, line, offset, limit);
    assert (lines + [line])[..|lines|] == lines;
  }

  lemma NothingListed(offset: int, limit: int)
    ensures |ListingBytes([], offset, limit)| == 0
  {
    assert Bytes("") == [];
  }

  /** What is kept of a listing that does not fit fills the capacity, or ends with a row behind which not even
      the next number fits. */
  lemma {:induction false} KeptIsAsMuchAsFits(lines: seq<string>, offset: int, limit: int, capacity: nat) returns (n: nat)
    requires |ListingBytes(lines, offset, limit)| > capacity
    ensures var kept := Kept(lines, offset, limit, capacity);
      kept == capacity || EndsBeforeRow(lines, offset, limit, capacity, kept, n)
  {
    n := 0;
    NothingListed(offset, limit);
    if lines != [] {
      var before, line := lines[..|lines| - 1], lines[|lines| - 1];
      assert before + [line] == lines;
      if |ListingBytes(before, offset, limit)| > capacity {
        n := KeptIsAsMuchAsFits(before, offset, limit, capacity);
        KeptGrows(before, line, offset, limit, capacity);
        assert n < |before| ==> before[..n] == lines[..n];
      } else {
        n := |before|;
        LastRowCut(before, line, offset, limit, capacity);
      }
    }
  }

  // ---------------------------------------------------------------- decoding the page

  /** ASCII after a cut neither repairs nor breaks it. */
  lemma {:induction false} AsciiTailDecodes(head: seq<Byte>, tail: seq<Byte>)
    requires forall i :: 0 <= i < |tail| ==> tail[i] < 128
    ensures Decodes(head + tail) <==> Decodes(head)
  {
    SevenBitDecodes(tail);
    if head == [] {
      assert head + tail == tail;
    } else if Decodes(head + tail) {
      var n := SequenceLength(head[0]);
      if n <= |head| {
        assert (head + tail)[n..] == head[n..] + tail;
        AsciiTailDecodes(head[n..], tail);
      }
    } else if Decodes(head) {
      DecodesConcat(head, tail);
    }
  }

  /** The final strict decoding of the page succeeds exactly when the page was not cut inside a code
      point of the listing. */
  lemma PageDecodesIffCutAtBoundary(lines: seq<string>, offset: int, limit: int, maxBytes: nat)
    requires maxBytes >= 1
    ensures var text := Listing(lines, offset, limit);
      var kept := Kept(lines, offset, limit, PageCapacity(maxBytes));
      && kept <= |Bytes(text)|
      && (Decodes(Bytes(text)[..kept] + Bytes(PageMarker(maxBytes))) <==> Boundary(Codes(text), kept))
      && Decodes(Bytes(text))
  {
    var text := Listing(lines, offset, limit);
    var kept := Kept(lines, offset, limit, PageCapacity(maxBytes));
    KeptIsWithin(lines, offset, limit, PageCapacity(maxBytes));
    BytesAreEncoding(text);
    EncodingDecodes(Codes(text));
    MarkerBytes(maxBytes);
    AsciiTailDecodes(Bytes(text)[..kept], Bytes(PageMarker(maxBytes)));
    PrefixDecodesIffBoundary(Codes(text), kept);
  }

  /** Two accented letters under a limit of 19 bytes: the cut falls inside the first letter, so the
      strict decoding fails. */
  lemma CutInsideCodePointIsPossible()
    ensures var lines := SplitLines("\U{e9}\U{e9}");
      && Kept(lines, 1, 1, PageCapacity(19)) == 4
      && !Boundary(Codes(Listing(lines, 1, 1)), 4)
  {
    var line := "\U{e9}\U{e9}";
    SplitOneLine(line);
    AccentedListing(line);
    CutInsideAccent(Codes("1: " + line));
    assert Bytes("") == [];
  }

  lemma AccentedListing(line: string)
    requires line == "\U{e9}\U{e9}"
    ensures Listing([line], 1, 1) == "1: " + line
    ensures |ListingBytes([line], 1, 1)| == 7 && |Bytes(RowPrefix(1))| == 3
    ensures ListingBytes([line][..0], 1, 1) == [] && RowSeparator(0, 1, 1) == ""
  {
    assert [line][..0] == [];
    assert Bytes("") == [];
    BytesConcat("1: ", line);
    AsciiBytes("1: ");
    assert line == "\U{e9}" + ['\U{e9}'] && "\U{e9}" == "" + ['\U{e9}'];
    BytesSnoc("\U{e9}", '\U{e9}');
    BytesSnoc("", '\U{e9}');
    AsciiBytes(RowPrefix(1));
  }

  lemma CutInsideAccent(codes: seq<CodePoint>)
    requires |codes| == 5 && codes[0] < 128 && codes[1] < 128 && codes[2] < 128 && codes[3] == 0xE9
    ensures !Boundary(codes, 4)
  {
    var one, two, three := codes[1..], codes[1..][1..], codes[1..][1..][1..];
    assert three[0] == 0xE9 && two[0] == codes[2] && one[0] == codes[1];
    assert !Boundary(three, 1);
    assert !Boundary(two, 2);
    assert !Boundary(one, 3);
  }
}
