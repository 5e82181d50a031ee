/** Cutting encoded text to a byte limit without splitting a code point (agent/tools/result_bounds.py). */
module Cutting {
  import opened Utf8

  /** Length of the longest decodable head of at most `n` bytes. */
  function LongestHead(bytes: seq<Byte>, n: nat): (r: nat)
    requires n <= |bytes|
    ensures r <= n
  {
    if Decodes(bytes[..n]) then n else LongestHead(bytes, n - 1)
  }

  /** Length of the longest decodable tail of at most `n` bytes. */
  function LongestTail(bytes: seq<Byte>, n: nat): (r: nat)
    requires n <= |bytes|
    ensures r <= n
  {
    if Decodes(bytes[|bytes| - n..]) then n else LongestTail(bytes, n - 1)
  }

  function Clamp(limit: int, top: nat): (r: nat) ensures r <= top {
    if limit <= 0 then 0 else if limit < top then limit else top
  }

  function HeadLength(bytes: seq<Byte>, limit: int): (r: nat) ensures r <= |bytes| {
    LongestHead(bytes, Clamp(limit, |bytes|))
  }

  function TailLength(bytes: seq<Byte>, limit: int): (r: nat) ensures r <= |bytes| {
    LongestTail(bytes, Clamp(limit, |bytes|))
  }

  method PrefixAtMost(value: seq<Byte>, limit: int) returns (head: seq<Byte>)
    ensures head == value[..HeadLength(value, limit)]
  {
    if limit <= 0 {
      return [];
    }
    var candidate := value[..Clamp(limit, |value|)];
    while candidate != []
      invariant |candidate| <= Clamp(limit, |value|) && candidate == value[..|candidate|]
      invariant LongestHead(value, Clamp(limit, |value|)) == LongestHead(value, |candidate|)
    {
      if Decodes(candidate) {
        return candidate;
      }
      candidate := candidate[..|candidate| - 1];
    }
    return [];
  }

  method SuffixAtMost(value: seq<Byte>, limit: int) returns (tail: seq<Byte>)
    ensures tail == value[|value| - TailLength(value, limit)..]
  {
    if limit <= 0 {
      return [];
    }
    var candidate := value[|value| - Clamp(limit, |value|)..];
    while candidate != []
      invariant |candidate| <= Clamp(limit, |value|) && candidate == value[|value| - |candidate|..]
      invariant LongestTail(value, Clamp(limit, |value|)) == LongestTail(value, |candidate|)
    {
      if Decodes(candidate) {
        return candidate;
      }
      candidate := candidate[1..];
    }
    return [];
  }

  lemma {:induction false} HeadsGrow(bytes: seq<Byte>, n: nat, m: nat)
    requires n <= m <= |bytes|
    ensures LongestHead(bytes, n) <= LongestHead(bytes, m)
  {
    if n < m && !Decodes(bytes[..m]) {
      HeadsGrow(bytes, n, m - 1);
    }
  }

  lemma {:induction false} TailsGrow(bytes: seq<Byte>, n: nat, m: nat)
    requires n <= m <= |bytes|
    ensures LongestTail(bytes, n) <= LongestTail(bytes, m)
  {
    if n < m && !Decodes(bytes[|bytes| - m..]) {
      TailsGrow(bytes, n, m - 1);
    }
  }

  lemma {:induction false} HeadIsMaximal(bytes: seq<Byte>, n: nat, j: nat)
    requires j <= n <= |bytes| && Decodes(bytes[..j])
    ensures LongestHead(bytes, n) >= j
  {
    if !Decodes(bytes[..n]) {
      HeadIsMaximal(bytes, n - 1, j);
    }
  }

  lemma {:induction false} TailIsMaximal(bytes: seq<Byte>, n: nat, j: nat)
    requires j <= n <= |bytes| && Decodes(bytes[|bytes| - j..])
    ensures LongestTail(bytes, n) >= j
  {
    if !Decodes(bytes[|bytes| - n..]) {
      TailIsMaximal(bytes, n - 1, j);
    }
  }

  /** At most three bytes are lost on each side to keep code points whole. */
  lemma CutsLoseAtMostThree(text: seq<CodePoint>, n: nat)
    requires n <= |Encode(text)|
    ensures n - 3 <= LongestHead(Encode(text), n) <= n
    ensures n - 3 <= LongestTail(Encode(text), n) <= n
  {
    var bytes := Encode(text);
    var j := BoundaryBelow(text, n);
    PrefixDecodesIffBoundary(text, j);
    HeadIsMaximal(bytes, n, j);
    var k := BoundaryAbove(text, |bytes| - n);
    SuffixDecodesIffBoundary(text, k);
    TailIsMaximal(bytes, n, |bytes| - k);
  }

  lemma {:induction false} HeadDecodes(bytes: seq<Byte>, n: nat)
    requires n <= |bytes|
    ensures Decodes(bytes[..LongestHead(bytes, n)])
  {
    var head := bytes[..n];
    assert n == 0 ==> head == [];
    if !Decodes(head) {
      HeadDecodes(bytes, n - 1);
    }
  }

  lemma {:induction false} TailDecodes(bytes: seq<Byte>, n: nat)
    requires n <= |bytes|
    ensures Decodes(bytes[|bytes| - LongestTail(bytes, n)..])
  {
    var tail := bytes[|bytes| - n..];
    assert n == 0 ==> tail == [];
    if !Decodes(tail) {
      TailDecodes(bytes, n - 1);
    }
  }

  /** Keeping code points whole never costs more than three bytes at either cut. */
  ghost predicate CutsCheaply(bytes: seq<Byte>) {
    && (forall n: nat :: n <= |bytes| ==> n - 3 <= HeadLength(bytes, n) <= n)
    && (forall n: nat :: n <= |bytes| ==> n - 3 <= TailLength(bytes, n) <= n)
  }

  lemma EncodedTextCutsCheaply(text: seq<CodePoint>)
    ensures CutsCheaply(Encode(text))
  {
    forall n: nat | n <= |Encode(text)|
      ensures n - 3 <= HeadLength(Encode(text), n) <= n && n - 3 <= TailLength(Encode(text), n) <= n
    {
      CutsLoseAtMostThree(text, n);
    }
  }
}
