/** Head/marker/tail truncation of tool results and of their metadata to a byte limit
    (agent/tools/result_bounds.py). */
module BoundedText {
  import opened Utf8
  import opened Cutting
  import opened MarkerIteration
  import Decimal

  const MAX_ROUNDS := 8
  const RESULT_OPENING := "\n...[tool result truncated: original_bytes="
  const METADATA_OPENING := "\n...[metadata truncated: original_bytes="
  const MARKER_MIDDLE := "; omitted_bytes="
  const MARKER_CLOSING := "]...\n"

  /** Which of the two markers: the one of a result text, or the one of a text inside the metadata. */
  datatype MarkerKind = OfResult | OfMetadata

  /** Length of a marker without its two counts. */
  function Fixed(kind: MarkerKind): nat { if kind.OfResult? then 64 else 61 }

  function Opening(kind: MarkerKind): (s: string)
    ensures IsAscii(s) && |s| == Fixed(kind) - 21 && s[0] == '\n'
  {
    if kind.OfResult? then RESULT_OPENING else METADATA_OPENING
  }

  /** Counts reported next to a truncated text. */
  datatype Truncation = Intact | Truncated(originalBytes: nat, retainedBytes: nat, omittedBytes: nat)

  predicate IsAscii(s: string) {
    forall i :: 0 <= i < |s| ==> s[i] < 128 as char
  }

  lemma AsciiConcat(a: string, b: string)
    requires IsAscii(a) && IsAscii(b)
    ensures IsAscii(a + b)
  {
  }

  function MarkerText(kind: MarkerKind, original: nat, omitted: nat): (s: string)
    ensures IsAscii(s)
    ensures |s| == MarkerLength(Fixed(kind), original, omitted) && s[0] == '\n'
  {
    AsciiConcat(Opening(kind), Decimal.Render(original));
    AsciiConcat(Opening(kind) + Decimal.Render(original), MARKER_MIDDLE);
    AsciiConcat(Opening(kind) + Decimal.Render(original) + MARKER_MIDDLE, Decimal.Render(omitted));
    AsciiConcat(Opening(kind) + Decimal.Render(original) + MARKER_MIDDLE + Decimal.Render(omitted), MARKER_CLOSING);
    Opening(kind) + Decimal.Render(original) + MARKER_MIDDLE + Decimal.Render(omitted) + MARKER_CLOSING
  }

  function Marker(kind: MarkerKind, original: nat, omitted: nat): (m: seq<Byte>)
    ensures |m| == MarkerLength(Fixed(kind), original, omitted)
  {
    Ascii(MarkerText(kind, original, omitted))
  }

  /** How the markers read. */
  lemma MarkerReads(original: nat, omitted: nat)
    ensures MarkerText(OfResult, original, omitted) ==
      "\n...[tool result truncated: original_bytes=" + Decimal.Render(original)
      + "; omitted_bytes=" + Decimal.Render(omitted) + "]...\n"
    ensures MarkerText(OfMetadata, original, omitted) ==
      "\n...[metadata truncated: original_bytes=" + Decimal.Render(original)
      + "; omitted_bytes=" + Decimal.Render(omitted) + "]...\n"
    ensures Decimal.Value(Decimal.Render(original)) == original && Decimal.Value(Decimal.Render(omitted)) == omitted
  {
    Decimal.RenderIsDecimal(original);
    Decimal.RenderIsDecimal(omitted);
  }

  lemma MarkerIsInjective(kind: MarkerKind, original: nat, a: nat, b: nat)
    requires Marker(kind, original, a) == Marker(kind, original, b)
    ensures a == b
  {
    var s, t := MarkerText(kind, original, a), MarkerText(kind, original, b);
    forall i | 0 <= i < |s| ensures s[i] == t[i] {
      assert Marker(kind, original, a)[i] == Marker(kind, original, b)[i];
    }
    assert s == t;
    var lead := Fixed(kind) - 5 + Decimal.Width(original);
    assert Decimal.Render(a) == s[lead..|s| - 5];
    assert Decimal.Render(b) == t[lead..|t| - 5];
    Decimal.RenderIsInjective(a, b);
  }

  // ---------------------------------------------------------------- the omitted count

  function SourceBudget(maxBytes: nat, markerLength: nat): nat {
    if maxBytes <= markerLength then 0 else maxBytes - markerLength
  }

  /** Source bytes left out when the marker takes `markerLength` bytes of the limit. */
  function Omitted(bytes: seq<Byte>, maxBytes: nat, markerLength: nat): nat {
    var budget := SourceBudget(maxBytes, markerLength);
    var kept := HeadLength(bytes, budget / 2) + TailLength(bytes, budget - budget / 2);
    if |bytes| <= kept then 0 else |bytes| - kept
  }

  function Cut(bytes: seq<Byte>, maxBytes: nat): nat -> nat {
    (m: nat) => Omitted(bytes, maxBytes, m)
  }

  lemma OmittedIsMonotone(bytes: seq<Byte>, maxBytes: nat, a: nat, b: nat)
    requires maxBytes < |bytes| && a <= b
    ensures Omitted(bytes, maxBytes, a) <= Omitted(bytes, maxBytes, b)
  {
    var x, y := SourceBudget(maxBytes, a), SourceBudget(maxBytes, b);
    HalvesGrow(y, x);
    HeadsGrow(bytes, y / 2, x / 2);
    TailsGrow(bytes, y - y / 2, x - x / 2);
  }

  lemma HalvesGrow(y: nat, x: nat)
    requires y <= x
    ensures y / 2 <= x / 2 && y - y / 2 <= x - x / 2
  {
  }

  /** Giving the marker `b - a` more bytes costs at most that many source bytes, plus three per cut. */
  lemma OmittedMovesLittle(bytes: seq<Byte>, maxBytes: nat, a: nat, b: nat)
    requires maxBytes < |bytes| && a <= b <= maxBytes && CutsCheaply(bytes)
    ensures Omitted(bytes, maxBytes, b) <= Omitted(bytes, maxBytes, a) + (b - a) + 6
  {
    var x, y := SourceBudget(maxBytes, a), SourceBudget(maxBytes, b);
    assert y / 2 - 3 <= HeadLength(bytes, y / 2);
    assert y - y / 2 - 3 <= TailLength(bytes, y - y / 2);
    assert HeadLength(bytes, x / 2) <= x / 2 && TailLength(bytes, x - x / 2) <= x - x / 2;
  }

  lemma TruncatingText(bytes: seq<Byte>, maxBytes: nat)
    requires maxBytes < |bytes| && CutsCheaply(bytes)
    ensures IsTruncation(Cut(bytes, maxBytes), |bytes|, maxBytes)
  {
    var cut := Cut(bytes, maxBytes);
    forall a: nat, b: nat | a <= b ensures cut(a) <= cut(b) {
      OmittedIsMonotone(bytes, maxBytes, a, b);
    }
    forall a: nat, b: nat | a <= b <= maxBytes ensures cut(b) <= cut(a) + (b - a) + 6 {
      OmittedMovesLittle(bytes, maxBytes, a, b);
    }
  }

  /** What a marker that shows `shown` leaves out. */
  function NextShown(kind: MarkerKind, bytes: seq<Byte>, maxBytes: nat, shown: nat): nat {
    Omitted(bytes, maxBytes, MarkerLength(Fixed(kind), |bytes|, shown))
  }

  /** The count the marker finally shows: three rounds after "everything is omitted". */
  function SettledCount(kind: MarkerKind, bytes: seq<Byte>, maxBytes: nat): nat {
    NextShown(kind, bytes, maxBytes, NextShown(kind, bytes, maxBytes, NextShown(kind, bytes, maxBytes, |bytes|)))
  }

  lemma SettledIsThirdCount(kind: MarkerKind, bytes: seq<Byte>, maxBytes: nat)
    ensures SettledCount(kind, bytes, maxBytes) == CountAfter(Cut(bytes, maxBytes), Fixed(kind), |bytes|, 3)
  {
    var cut := Cut(bytes, maxBytes);
    assert CountAfter(cut, Fixed(kind), |bytes|, 0) == |bytes|;
    assert CountAfter(cut, Fixed(kind), |bytes|, 1) == NextShown(kind, bytes, maxBytes, |bytes|);
    assert CountAfter(cut, Fixed(kind), |bytes|, 2) == NextShown(kind, bytes, maxBytes, NextShown(kind, bytes, maxBytes, |bytes|));
  }

  /** Showing `count` leaves out exactly `count` bytes. */
  predicate ShowsWhatItOmits(kind: MarkerKind, bytes: seq<Byte>, maxBytes: nat, count: nat) {
    NextShown(kind, bytes, maxBytes, count) == count
  }

  /** For every text and limit the count settles on a truthful one, and on the largest there is. */
  lemma SettledCountIsGreatestTruthful(kind: MarkerKind, text: seq<CodePoint>, maxBytes: nat)
    requires maxBytes < |Encode(text)|
    ensures var bytes := Encode(text);
      && ShowsWhatItOmits(kind, bytes, maxBytes, SettledCount(kind, bytes, maxBytes))
      && forall count: nat :: ShowsWhatItOmits(kind, bytes, maxBytes, count) ==> count <= SettledCount(kind, bytes, maxBytes)
  {
    EncodedTextCutsCheaply(text);
    SettledBytesAreGreatestTruthful(kind, Encode(text), maxBytes);
  }

  lemma SettledBytesAreGreatestTruthful(kind: MarkerKind, bytes: seq<Byte>, maxBytes: nat)
    requires maxBytes < |bytes| && CutsCheaply(bytes)
    ensures ShowsWhatItOmits(kind, bytes, maxBytes, SettledCount(kind, bytes, maxBytes))
    ensures forall count: nat :: ShowsWhatItOmits(kind, bytes, maxBytes, count) ==> count <= SettledCount(kind, bytes, maxBytes)
  {
    var cut := Cut(bytes, maxBytes);
    TruncatingText(bytes, maxBytes);
    SettlesInThreeRounds(cut, Fixed(kind), |bytes|, maxBytes);
    SettledIsGreatest(cut, Fixed(kind), |bytes|, maxBytes);
    SettledIsThirdCount(kind, bytes, maxBytes);
    forall count: nat | ShowsWhatItOmits(kind, bytes, maxBytes, count) ensures count <= SettledCount(kind, bytes, maxBytes) {
      assert IsTruthful(cut, Fixed(kind), |bytes|, count);
    }
  }

  lemma OmittedAtMostAll(bytes: seq<Byte>, maxBytes: nat, markerLength: nat)
    ensures Omitted(bytes, maxBytes, markerLength) <= |bytes|
    ensures maxBytes < |bytes| && markerLength >= maxBytes ==> Omitted(bytes, maxBytes, markerLength) == |bytes|
  {
  }

  /** The marker leaves room for source text when it settles exactly when it does with the largest count. */
  lemma SettledMarker(kind: MarkerKind, bytes: seq<Byte>, maxBytes: nat)
    requires maxBytes < |bytes|
    ensures var full := MarkerLength(Fixed(kind), |bytes|, |bytes|);
      var settled := MarkerLength(Fixed(kind), |bytes|, SettledCount(kind, bytes, maxBytes));
      && (settled >= maxBytes ==> full >= maxBytes)
      && (full >= maxBytes ==> SettledCount(kind, bytes, maxBytes) == |bytes|)
  {
    var full := MarkerLength(Fixed(kind), |bytes|, |bytes|);
    OmittedAtMostAll(bytes, maxBytes, full);
    var second := NextShown(kind, bytes, maxBytes, NextShown(kind, bytes, maxBytes, |bytes|));
    OmittedAtMostAll(bytes, maxBytes, MarkerLength(Fixed(kind), |bytes|, second));
    Decimal.WidthIsMonotone(SettledCount(kind, bytes, maxBytes), |bytes|);
  }

  // ---------------------------------------------------------------- the bounded text

  /** The longest head of the bytes within the limit that is text by itself, at most three bytes short of it. */
  ghost predicate IsKeptHead(bytes: seq<Byte>, limit: int, head: nat) {
    limit - 3 <= head <= limit && head <= |bytes| && Decodes(bytes[..head]) && NoLongerHead(bytes, limit, head)
  }

  ghost predicate NoLongerHead(bytes: seq<Byte>, limit: int, head: nat) {
    forall n :: head < n <= limit && n <= |bytes| ==> !Decodes(bytes[..n])
  }

  ghost predicate IsKeptTail(bytes: seq<Byte>, limit: int, tail: nat) {
    limit - 3 <= tail <= limit && tail <= |bytes| && Decodes(bytes[|bytes| - tail..]) && NoLongerTail(bytes, limit, tail)
  }

  ghost predicate NoLongerTail(bytes: seq<Byte>, limit: int, tail: nat) {
    forall start :: 0 <= start < |bytes| - tail && |bytes| - limit <= start ==> !Decodes(bytes[start..])
  }

  /** `bounded` is a head of the source, the marker and a tail of the source. The two parts do not overlap,
      split no code point, and are as long as the limit allows up to that. */
  ghost predicate IsHeadMarkerTail(bytes: seq<Byte>, maxBytes: nat, bounded: seq<Byte>, marker: seq<Byte>, head: nat, tail: nat) {
    && |marker| < maxBytes && head + tail < |bytes|
    && bounded == bytes[..head] + marker + bytes[|bytes| - tail..]
    && var room := maxBytes - |marker|;
    && IsKeptHead(bytes, room / 2, head) && IsKeptTail(bytes, room - room / 2, tail)
  }

  /** A text cut to the limit around a marker that shows `omitted`. */
  ghost predicate IsCut(kind: MarkerKind, bytes: seq<Byte>, maxBytes: nat, omitted: nat, bounded: seq<Byte>, info: Truncation) {
    && |bounded| <= maxBytes && Decodes(bounded)
    && info.Truncated? && info.originalBytes == |bytes| && info.retainedBytes == |bounded|
    && if MarkerLength(Fixed(kind), |bytes|, |bytes|) >= maxBytes then
         bounded == Marker(kind, |bytes|, |bytes|)[..maxBytes] && info.omittedBytes == |bytes|
       else
         && info.omittedBytes == omitted
         && exists head: nat, tail: nat ::
              && head + tail + omitted == |bytes|
              && IsHeadMarkerTail(bytes, maxBytes, bounded, Marker(kind, |bytes|, omitted), head, tail)
  }

  /** Everything a caller may rely on about a bounded text. */
  ghost predicate IsBounded(kind: MarkerKind, bytes: seq<Byte>, maxBytes: nat, bounded: seq<Byte>, info: Truncation) {
    if |bytes| <= maxBytes then bounded == bytes && info == Intact
    else IsCut(kind, bytes, maxBytes, SettledCount(kind, bytes, maxBytes), bounded, info)
  }

  /** The rounds of the iteration; the eight rounds of the source always suffice.  Markers that show
      different counts differ (MarkerIsInjective), so comparing the counts compares the markers. */
  method SettleMarker(kind: MarkerKind, encoded: seq<Byte>, maxBytes: nat) returns (omitted: nat)
    requires ShowsWhatItOmits(kind, encoded, maxBytes, SettledCount(kind, encoded, maxBytes))
    ensures omitted == SettledCount(kind, encoded, maxBytes)
  {
    var shown: nat := |encoded|;
    ghost var first := NextShown(kind, encoded, maxBytes, |encoded|);
    ghost var second := NextShown(kind, encoded, maxBytes, first);
    var round := 0;
    while round < MAX_ROUNDS
      invariant round <= MAX_ROUNDS
      invariant shown == if round == 0 then |encoded| else if round == 1 then first else if round == 2 then second
                         else SettledCount(kind, encoded, maxBytes)
    {
      omitted := NextRound(kind, encoded, maxBytes, shown);
      if omitted == shown {
        return;
      }
      shown := omitted;
      round := round + 1;
    }
    omitted := shown;
  }

  /** One round: cut both ends around a marker that shows `shown` and count what is left out. */
  method NextRound(kind: MarkerKind, encoded: seq<Byte>, maxBytes: nat, shown: nat) returns (omitted: nat)
    ensures omitted == NextShown(kind, encoded, maxBytes, shown)
  {
    var budget := SourceBudget(maxBytes, MarkerLength(Fixed(kind), |encoded|, shown));
    var head := PrefixAtMost(encoded, budget / 2);
    var tail := SuffixAtMost(encoded, budget - budget / 2);
    omitted := if |encoded| <= |head| + |tail| then 0 else |encoded| - |head| - |tail|;
  }

  /** The text within the limit, and the counts that go with it. */
  method BoundText(kind: MarkerKind, text: seq<CodePoint>, maxBytes: nat) returns (bounded: seq<Byte>, info: Truncation)
    requires maxBytes >= 1
    ensures IsBounded(kind, Encode(text), maxBytes, bounded, info)
  {
    EncodedTextCutsCheaply(text);
    bounded, info := BoundBytes(kind, Encode(text), maxBytes);
  }

  method BoundBytes(kind: MarkerKind, encoded: seq<Byte>, maxBytes: nat) returns (bounded: seq<Byte>, info: Truncation)
    requires maxBytes >= 1 && CutsCheaply(encoded)
    ensures IsBounded(kind, encoded, maxBytes, bounded, info)
  {
    if |encoded| <= maxBytes {
      return encoded, Intact;
    }
    SettledBytesAreGreatestTruthful(kind, encoded, maxBytes);
    SettledMarker(kind, encoded, maxBytes);
    var omitted := SettleMarker(kind, encoded, maxBytes);
    bounded, info := Assemble(kind, encoded, maxBytes, omitted);
  }

  /** Puts the marker between what is kept. The settled marker already shows what this leaves out, so the
      repair passes of the source never run. */
  method Assemble(kind: MarkerKind, encoded: seq<Byte>, maxBytes: nat, omitted: nat) returns (bounded: seq<Byte>, info: Truncation)
    requires 1 <= maxBytes < |encoded| && CutsCheaply(encoded)
    requires Omitted(encoded, maxBytes, MarkerLength(Fixed(kind), |encoded|, omitted)) == omitted
    requires MarkerLength(Fixed(kind), |encoded|, omitted) >= maxBytes ==> MarkerLength(Fixed(kind), |encoded|, |encoded|) >= maxBytes
    requires MarkerLength(Fixed(kind), |encoded|, |encoded|) >= maxBytes ==> omitted == |encoded|
    ensures IsCut(kind, encoded, maxBytes, omitted, bounded, info)
  {
    var marker := Marker(kind, |encoded|, omitted);
    if |marker| >= maxBytes {
      bounded := ClippedMarker(marker, maxBytes);
      info := Truncated(|encoded|, |bounded|, |encoded|);
    } else {
      var head, tail;
      bounded, head, tail := KeepBothEnds(encoded, maxBytes, marker);
      Sandwich(encoded[..head], marker, encoded[|encoded| - tail..]);
      info := Truncated(|encoded|, |bounded|, |encoded| - head - tail);
    }
  }

  /** Source head and tail around a marker that leaves them room. */
  method KeepBothEnds(encoded: seq<Byte>, maxBytes: nat, marker: seq<Byte>)
    returns (bounded: seq<Byte>, headLength: nat, tailLength: nat)
    requires CutsCheaply(encoded) && |marker| < maxBytes < |encoded|
    ensures IsHeadMarkerTail(encoded, maxBytes, bounded, marker, headLength, tailLength)
    ensures headLength + tailLength + Omitted(encoded, maxBytes, |marker|) == |encoded|
  {
    var room: nat := maxBytes - |marker|;
    bounded, headLength, tailLength := CutBothEnds(encoded, room, marker);
    KeptAround(encoded, maxBytes, marker, room / 2, room - room / 2, headLength, tailLength);
  }

  method CutBothEnds(encoded: seq<Byte>, room: nat, marker: seq<Byte>)
    returns (bounded: seq<Byte>, headLength: nat, tailLength: nat)
    ensures headLength == HeadLength(encoded, room / 2) && tailLength == TailLength(encoded, room - room / 2)
    ensures bounded == encoded[..headLength] + marker + encoded[|encoded| - tailLength..]
  {
    var head := PrefixAtMost(encoded, room / 2);
    var tail := SuffixAtMost(encoded, room - room / 2);
    bounded, headLength, tailLength := head + marker + tail, |head|, |tail|;
  }

  lemma KeptHead(bytes: seq<Byte>, limit: nat)
    requires CutsCheaply(bytes) && limit <= |bytes|
    ensures IsKeptHead(bytes, limit, HeadLength(bytes, limit))
  {
    HeadDecodes(bytes, limit);
    LongestIsKept(bytes, limit, HeadLength(bytes, limit));
  }

  lemma LongestIsKept(bytes: seq<Byte>, limit: nat, head: nat)
    requires limit <= |bytes| && head == LongestHead(bytes, limit)
    ensures NoLongerHead(bytes, limit, head)
  {
    forall n | head < n <= limit ensures !Decodes(bytes[..n]) {
      if Decodes(bytes[..n]) {
        HeadIsMaximal(bytes, limit, n);
      }
    }
  }

  lemma KeptTail(bytes: seq<Byte>, limit: nat)
    requires CutsCheaply(bytes) && limit <= |bytes|
    ensures IsKeptTail(bytes, limit, TailLength(bytes, limit))
  {
    TailDecodes(bytes, limit);
    LongestTailIsKept(bytes, limit, TailLength(bytes, limit));
  }

  lemma LongestTailIsKept(bytes: seq<Byte>, limit: nat, tail: nat)
    requires limit <= |bytes| && tail == LongestTail(bytes, limit)
    ensures NoLongerTail(bytes, limit, tail)
  {
    forall start | 0 <= start && |bytes| - limit <= start < |bytes| - tail ensures !Decodes(bytes[start..]) {
      ShorterThanLongest(bytes, limit, |bytes| - start);
    }
  }

  lemma ShorterThanLongest(bytes: seq<Byte>, limit: nat, n: nat)
    requires n <= limit <= |bytes|
    ensures Decodes(bytes[|bytes| - n..]) ==> n <= LongestTail(bytes, limit)
  {
    if Decodes(bytes[|bytes| - n..]) {
      TailIsMaximal(bytes, limit, n);
    }
  }

  lemma KeptAround(bytes: seq<Byte>, maxBytes: nat, marker: seq<Byte>, front: nat, back: nat, head: nat, tail: nat)
    requires CutsCheaply(bytes) && |marker| < maxBytes < |bytes|
    requires front == (maxBytes - |marker|) / 2 && back == maxBytes - |marker| - front
    requires head == HeadLength(bytes, front) && tail == TailLength(bytes, back)
    ensures IsHeadMarkerTail(bytes, maxBytes, bytes[..head] + marker + bytes[|bytes| - tail..], marker, head, tail)
    ensures head + tail + Omitted(bytes, maxBytes, |marker|) == |bytes|
  {
    KeptAddsUp(bytes, maxBytes, |marker|);
    KeptHead(bytes, front);
    KeptTail(bytes, back);
    PutTogether(bytes, maxBytes, marker, front, back, head, tail);
  }

  lemma PutTogether(bytes: seq<Byte>, maxBytes: nat, marker: seq<Byte>, front: nat, back: nat, head: nat, tail: nat)
    requires |marker| < maxBytes < |bytes| && head + tail <= maxBytes - |marker|
    requires front == (maxBytes - |marker|) / 2 && back == maxBytes - |marker| - front
    requires IsKeptHead(bytes, front, head) && IsKeptTail(bytes, back, tail)
    ensures IsHeadMarkerTail(bytes, maxBytes, bytes[..head] + marker + bytes[|bytes| - tail..], marker, head, tail)
  {
  }

  lemma KeptAddsUp(bytes: seq<Byte>, maxBytes: nat, markerLength: nat)
    requires markerLength < maxBytes < |bytes|
    ensures var room := maxBytes - markerLength;
      var kept := HeadLength(bytes, room / 2) + TailLength(bytes, room - room / 2);
      kept <= room && kept + Omitted(bytes, maxBytes, markerLength) == |bytes|
  {
  }

  /** A limit without room for the marker keeps the part of the marker that fits. */
  method ClippedMarker(marker: seq<Byte>, maxBytes: nat) returns (clipped: seq<Byte>)
    requires maxBytes <= |marker| && forall i :: 0 <= i < |marker| ==> marker[i] < 128
    ensures clipped == marker[..maxBytes] && Decodes(clipped)
  {
    var cut := marker[..maxBytes];
    SevenBitDecodes(cut);
    clipped := PrefixAtMost(cut, maxBytes);
    assert cut[..maxBytes] == cut && LongestHead(cut, maxBytes) == maxBytes;
  }

  lemma Sandwich(head: seq<Byte>, marker: seq<Byte>, tail: seq<Byte>)
    requires Decodes(head) && Decodes(tail) && forall i :: 0 <= i < |marker| ==> marker[i] < 128
    ensures Decodes(head + marker + tail)
  {
    SevenBitDecodes(marker);
    DecodesConcat(head, marker);
    DecodesConcat(head + marker, tail);
  }

  /** What is kept around the marker ends at code points of the source. */
  lemma KeptPartsEndAtCodePoints(text: seq<CodePoint>, maxBytes: nat, bounded: seq<Byte>, marker: seq<Byte>, head: nat, tail: nat)
    requires IsHeadMarkerTail(Encode(text), maxBytes, bounded, marker, head, tail)
    ensures Boundary(text, head) && Boundary(text, |Encode(text)| - tail)
  {
    PrefixDecodesIffBoundary(text, head);
    SuffixDecodesIffBoundary(text, |Encode(text)| - tail);
  }

  /** Bounding a bounded text again changes nothing. */
  lemma BoundingIsIdempotent(kind: MarkerKind, bytes: seq<Byte>, maxBytes: nat, bounded: seq<Byte>, info: Truncation,
                             twice: seq<Byte>, infoTwice: Truncation)
    requires maxBytes >= 1 && IsBounded(kind, bytes, maxBytes, bounded, info)
    requires IsBounded(kind, bounded, maxBytes, twice, infoTwice)
    ensures twice == bounded && infoTwice == Intact
  {
  }
}
