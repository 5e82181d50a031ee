/** What a line is, said by the ten characters that end one (agent/tools/filesystem.py, _LINE_SEPARATORS). */
module LineEnds {
  import opened TextLines

  /** The ten characters that end a line. */
  const LINE_ENDS: set<char> := {'\n', '\r', '\U{b}', '\U{c}', '\U{1c}', '\U{1d}', '\U{1e}', '\U{85}', '\U{2028}', '\U{2029}'}

  ghost predicate IsPlain(line: string) {
    forall i :: 0 <= i < |line| ==> line[i] !in LINE_ENDS
  }

  /** One character that ends a line, or CR LF; a CR before a LF does not end the line without it. */
  ghost predicate IsLineEnd(end: string, rest: string) {
    || end == "\r\n"
    || (|end| == 1 && end[0] in LINE_ENDS && !(end == "\r" && rest != "" && rest[0] == '\n'))
  }

  /** The text is these lines, each with its end; the last one may go without, unless it is empty. */
  ghost predicate IsSplit(text: string, lines: seq<string>)
    decreases |lines|
  {
    if lines == [] then text == ""
    else IsPlain(lines[0]) && exists end: string, rest: string ::
      && text == lines[0] + end + rest
      && (IsLineEnd(end, rest) || (end == "" && rest == "" && lines[0] != ""))
      && IsSplit(rest, lines[1..])
  }

  lemma SeparatorsAreLineEnds(c: char)
    ensures IsSeparator(c) <==> c in LINE_ENDS
  {
  }

  lemma PlainHasNoSeparator(line: string)
    ensures IsPlain(line) <==> NoSeparator(line)
  {
    forall i | 0 <= i < |line| ensures IsSeparator(line[i]) <==> line[i] in LINE_ENDS {
      SeparatorsAreLineEnds(line[i]);
    }
  }

  /** A text without any of the ten characters is one line. */
  lemma PlainTextIsOneLine(text: string)
    requires text != "" && IsPlain(text)
    ensures SplitLines(text) == [text]
  {
    PlainHasNoSeparator(text);
    SplitOneLine(text);
  }

  /** A line with its end in front of a text is that line in front of the lines of the text. */
  lemma EndedLineIsFirst(line: string, end: string, rest: string)
    requires IsPlain(line) && IsLineEnd(end, rest)
    ensures SplitLines(line + end + rest) == [line] + SplitLines(rest)
  {
    var tail := end + rest;
    PlainHasNoSeparator(line);
    SeparatorsAreLineEnds(end[0]);
    assert tail[0] == end[0];
    SplitFirstLine(line, tail);
    assert line + end + rest == line + tail;
    assert TerminatorLength(tail, 0) == |end| by {
      if |end| == 1 && rest != "" {
        assert tail[1] == rest[0];
      }
    }
    assert tail[|end|..] == rest;
  }

  lemma FirstLineAndEnd(text: string) returns (end: string, rest: string)
    requires text != ""
    ensures var n := FirstLineLength(text);
      && IsPlain(text[..n]) && text == text[..n] + end + rest && rest == text[n + TerminatorLength(text, n)..]
      && (IsLineEnd(end, rest) || (end == "" && rest == "" && text[..n] != ""))
  {
    var n := FirstLineLength(text);
    var k := TerminatorLength(text, n);
    end, rest := text[n..n + k], text[n + k..];
    PlainHasNoSeparator(text[..n]);
    if n < |text| {
      SeparatorsAreLineEnds(text[n]);
      assert k == 2 ==> end == "\r\n";
      assert k == 1 && rest != "" ==> rest[0] == text[n + 1];
    }
  }

  /** The split is the only way to cut a text into lines and their ends. */
  lemma {:induction false} SplitLinesIsTheSplit(text: string, lines: seq<string>)
    ensures IsSplit(text, lines) <==> lines == SplitLines(text)
    decreases |text|
  {
    if text != "" {
      var first, following := SplitLines(text)[0], SplitLines(text)[1..];
      var end, rest := FirstLineAndEnd(text);
      assert following == SplitLines(rest);
      if lines != [] {
        if IsSplit(text, lines) {
          var e: string, r: string :|
            && text == lines[0] + e + r
            && (IsLineEnd(e, r) || (e == "" && r == "" && lines[0] != ""))
            && IsSplit(r, lines[1..]);
          FirstLineIs(text, lines[0], e, r);
          SplitLinesIsTheSplit(r, lines[1..]);
          assert lines == [lines[0]] + lines[1..];
        }
        if lines == SplitLines(text) {
          SplitLinesIsTheSplit(rest, following);
          assert text == lines[0] + end + rest && IsSplit(rest, lines[1..]);
        }
      }
    }
  }

  lemma FirstLineIs(text: string, line: string, end: string, rest: string)
    requires IsPlain(line) && text == line + end + rest
    requires IsLineEnd(end, rest) || (end == "" && rest == "" && line != "")
    ensures SplitLines(text) == [line] + SplitLines(rest) && |rest| < |text|
  {
    if end == "" {
      assert text == line;
      PlainTextIsOneLine(text);
    } else {
      EndedLineIsFirst(line, end, rest);
    }
  }
}
