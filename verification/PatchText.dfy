/** Updating the text of a file by hunks: lines are split, edited and joined again
    (agent/tools/apply_patch.py, _apply_hunks). */
module PatchText {
  import opened Common
  import opened TextLines
  import opened LineEnds
  import opened PatchHunks

  /** The source keeps a final newline if the text ended in LF or CR. */
  predicate EndsInNewline(text: string) {
    text != "" && (text[|text| - 1] == '\n' || text[|text| - 1] == '\r')
  }

  /** Lines joined by LF, with a last LF if asked for and there are lines. */
  function Text(lines: seq<string>, finalNewline: bool): string {
    if lines == [] then ""
    else if |lines| == 1 then lines[0] + if finalNewline then "\n" else ""
    else lines[0] + "\n" + Text(lines[1..], finalNewline)
  }

  /** The lines of the text, edited as the lines of the hunks say, and joined; a final newline stays one. */
  ghost predicate IsUpdate(content: string, hunks: seq<Hunk>, lines: seq<string>, updated: string) {
    exists original ::
      && IsSplit(content, original) && EditedInOrder(original, 0, hunks, lines)
      && updated == Text(lines, content != "" && (content[|content| - 1] == '\n' || content[|content| - 1] == '\r'))
  }

  method UpdateText(content: string, hunks: seq<Hunk>) returns (updated: Option<string>)
    ensures updated.Some? ==> exists lines ::
      && AppliesTo(SplitLines(content), 0, hunks, lines)
      && updated.value == Text(lines, EndsInNewline(content)) && IsUpdate(content, hunks, lines, updated.value)
    ensures updated.None? ==> forall lines :: !AppliesTo(SplitLines(content), 0, hunks, lines)
    ensures updated.None? ==> forall original, lines :: IsSplit(content, original) ==> !EditedInOrder(original, 0, hunks, lines)
  {
    forall original ensures IsSplit(content, original) <==> original == SplitLines(content) {
      SplitLinesIsTheSplit(content, original);
    }
    var result := ApplyInOrder(SplitLines(content), hunks);
    match result
    case None => updated := None;
    case Some(lines) => updated := Some(Text(lines, EndsInNewline(content)));
  }

  /** Every line terminator of the text is a plain LF. */
  predicate OnlyLf(text: string) {
    forall i :: 0 <= i < |text| && IsSeparator(text[i]) ==> text[i] == '\n'
  }

  predicate AreLines(lines: seq<string>) {
    forall i :: 0 <= i < |lines| ==> NoSeparator(lines[i])
  }

  lemma {:induction false} SplitGivesLines(text: string)
    ensures AreLines(SplitLines(text))
    decreases |text|
  {
    if text != "" {
      var n := FirstLineLength(text);
      SplitGivesLines(text[n + TerminatorLength(text, n)..]);
    }
  }

  lemma {:induction false} TextIsOnlyLf(lines: seq<string>, finalNewline: bool)
    requires AreLines(lines)
    ensures OnlyLf(Text(lines, finalNewline))
  {
    if |lines| > 1 {
      TextIsOnlyLf(lines[1..], finalNewline);
    }
  }

  lemma {:induction false} LfTextRejoins(text: string)
    requires OnlyLf(text)
    ensures Text(SplitLines(text), EndsInNewline(text)) == text
    decreases |text|
  {
    if text != "" {
      var n := FirstLineLength(text);
      if n == |text| {
        assert text[n..] == "" && text[..n] == text;
      } else {
        FirstLfLine(text, n);
        LfTextRejoins(text[n + 1..]);
        FirstLineThenText(text[..n], SplitLines(text[n + 1..]), EndsInNewline(text));
      }
    }
  }

  lemma FirstLfLine(text: string, n: nat)
    requires OnlyLf(text) && text != "" && n == FirstLineLength(text) < |text|
    ensures text == text[..n] + "\n" + text[n + 1..] && OnlyLf(text[n + 1..])
    ensures SplitLines(text) == [text[..n]] + SplitLines(text[n + 1..])
    ensures text[n + 1..] != "" ==> EndsInNewline(text) == EndsInNewline(text[n + 1..]) && SplitLines(text[n + 1..]) != []
    ensures text[n + 1..] == "" ==> EndsInNewline(text) && SplitLines(text[n + 1..]) == []
  {
    var rest := text[n + 1..];
    CutAt(text, n);
    assert TerminatorLength(text, n) == 1;
    LfBehind(text, n + 1);
    SameEnding(text, n + 1);
  }

  lemma SameEnding(text: string, n: nat)
    requires n <= |text|
    ensures text[n..] != "" ==> EndsInNewline(text) == EndsInNewline(text[n..])
  {
    if text[n..] != "" {
      assert text[n..][|text[n..]| - 1] == text[|text| - 1];
    }
  }

  lemma CutAt(text: string, n: nat)
    requires n < |text| && text[n] == '\n'
    ensures text == text[..n] + "\n" + text[n + 1..]
  {
    assert text[n..n + 1] == "\n";
  }

  lemma LfBehind(text: string, n: nat)
    requires OnlyLf(text) && n <= |text|
    ensures OnlyLf(text[n..])
  {
    assert forall i :: 0 <= i < |text[n..]| ==> text[n..][i] == text[n + i];
  }

  lemma FirstLineThenText(line: string, rest: seq<string>, finalNewline: bool)
    ensures rest != [] ==> Text([line] + rest, finalNewline) == line + "\n" + Text(rest, finalNewline)
    ensures rest == [] && finalNewline ==> Text([line] + rest, finalNewline) == line + "\n"
  {
    assert ([line] + rest)[1..] == rest;
  }

  /** Splitting and joining again keeps a text exactly when all its line terminators are LF. */
  lemma RejoiningKeepsTextIffOnlyLf(text: string)
    ensures Text(SplitLines(text), EndsInNewline(text)) == text <==> OnlyLf(text)
  {
    SplitGivesLines(text);
    TextIsOnlyLf(SplitLines(text), EndsInNewline(text));
    if OnlyLf(text) {
      LfTextRejoins(text);
    }
  }

  /** A carriage return before the line feed is lost. */
  lemma CarriageReturnIsLost()
    ensures Text(SplitLines("a\r\n"), EndsInNewline("a\r\n")) == "a\n"
  {
    var text := "a\r\n";
    assert FirstLineLength(text) == 1 && TerminatorLength(text, 1) == 2;
    assert text[..1] == "a" && text[3..] == "";
    FirstLineThenText("a", [], true);
  }

  /** Lines that survive being written and read back. */
  predicate Readable(lines: seq<string>, finalNewline: bool) {
    AreLines(lines) && (lines == [] || finalNewline || lines[|lines| - 1] != "")
  }

  lemma {:induction false} WrittenLinesAreReadBack(lines: seq<string>, finalNewline: bool)
    requires Readable(lines, finalNewline)
    ensures SplitLines(Text(lines, finalNewline)) == lines
    ensures lines != [] ==> Text(lines, finalNewline) != ""
    ensures lines != [] ==> EndsInNewline(Text(lines, finalNewline)) == finalNewline
  {
    if |lines| == 1 {
      LastLineIsReadBack(lines[0], finalNewline);
      assert lines == [lines[0]];
    } else if |lines| > 1 {
      var rest := lines[1..];
      assert rest[|rest| - 1] == lines[|lines| - 1];
      WrittenLinesAreReadBack(rest, finalNewline);
      LineBeforeText(lines[0], Text(rest, finalNewline));
      FirstLineThenText(lines[0], rest, finalNewline);
      assert lines == [lines[0]] + rest;
    }
  }

  lemma LastLineIsReadBack(line: string, finalNewline: bool)
    requires NoSeparator(line) && (finalNewline || line != "")
    ensures var text := line + if finalNewline then "\n" else "";
      SplitLines(text) == [line] && EndsInNewline(text) == finalNewline
  {
    if finalNewline {
      SplitFirstLine(line, "\n");
      assert "\n"[1..] == "";
    } else {
      SplitOneLine(line);
      assert line + "" == line;
      assert !IsSeparator(line[|line| - 1]);
    }
  }

  lemma LineBeforeText(line: string, text: string)
    requires NoSeparator(line)
    ensures SplitLines(line + "\n" + text) == [line] + SplitLines(text)
    ensures text != "" ==> EndsInNewline(line + "\n" + text) == EndsInNewline(text)
  {
    var tail := "\n" + text;
    assert line + "\n" + text == line + tail;
    SplitFirstLine(line, tail);
    assert TerminatorLength(tail, 0) == 1 && tail[1..] == text;
    var all := line + "\n" + text;
    assert all[|line| + 1..] == text;
    SameEnding(all, |line| + 1);
  }

  /** Undoing a patch on the written file: if the text uses LF and the patched lines are written so that
      they can be read back, the reversed hunks give the text back character for character. */
  lemma ReversedHunksRestoreText(content: string, hunks: seq<Hunk>, patched: seq<string>)
    requires OnlyLf(content) && Ascending(hunks, 0)
    requires AppliesTo(SplitLines(content), 0, hunks, patched)
    requires patched != [] && Readable(patched, EndsInNewline(content))
    ensures var lines := SplitLines(content);
      var written := Text(patched, EndsInNewline(content));
      && AppliesTo(SplitLines(written), 0, Reverse(lines, hunks, 0, 0), lines)
      && Text(lines, EndsInNewline(written)) == content
  {
    ReversedHunksRestore(SplitLines(content), hunks, patched);
    WrittenLinesAreReadBack(patched, EndsInNewline(content));
    LfTextRejoins(content);
  }
}
