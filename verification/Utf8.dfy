/** UTF-8 as the Runtime sees it: encoding of text, and which byte strings a strict decoder accepts
    (sections 3 and 4 of RFC 3629). */
module Utf8 {
  type Byte = b: int | 0 <= b < 256

  /** A Unicode scalar value: a surrogate has no UTF-8 form. */
  type CodePoint = c: int | 0 <= c < 0x11_0000 && !(0xD800 <= c < 0xE000)

  function EncodeOne(c: CodePoint): (bytes: seq<Byte>)
    ensures 1 <= |bytes| <= 4
  {
    if c < 0x80 then [c]
    else if c < 0x800 then [0xC0 + c / 64, 0x80 + c % 64]
    else if c < 0x1_0000 then [0xE0 + c / 4096, 0x80 + c / 64 % 64, 0x80 + c % 64]
    else [0xF0 + c / 262144, 0x80 + c / 4096 % 64, 0x80 + c / 64 % 64, 0x80 + c % 64]
  }

  function Encode(text: seq<CodePoint>): seq<Byte> {
    if text == [] then [] else EncodeOne(text[0]) + Encode(text[1..])
  }

  /** The table of section 3 of RFC 3629: the bits of the scalar value, six to a byte behind the lead. */
  lemma EncodingIsTheTable(w: nat, z: nat, y: nat, x: nat)
    requires y < 64 && x < 64
    ensures x + 64 * y < 0x80 ==> EncodeOne(64 * y + x) == [64 * y + x]
    ensures 2 <= y < 32 ==> EncodeOne(64 * y + x) == [0xC0 + y, 0x80 + x]
    ensures z < 16 && 64 * z + y >= 32 && !(0x360 <= 64 * z + y < 0x380) ==>
      EncodeOne(64 * (64 * z + y) + x) == [0xE0 + z, 0x80 + y, 0x80 + x]
    ensures z < 64 && 16 <= 64 * w + z < 0x110 ==>
      EncodeOne(64 * (64 * (64 * w + z) + y) + x) == [0xF0 + w, 0x80 + z, 0x80 + y, 0x80 + x]
  {
    var high := 64 * z + y;
    LowSixBits(y, x);
    LowSixBits(high, x);
    LowSixBits(z, y);
    if z < 64 && 16 <= 64 * w + z < 0x110 {
      var top := 64 * w + z;
      LowSixBits(64 * top + y, x);
      LowSixBits(top, y);
      LowSixBits(w, z);
    }
  }

  /** Number of bytes announced by a lead byte; 0 for a byte that cannot start a sequence. */
  function SequenceLength(lead: Byte): nat {
    if lead < 0x80 then 1
    else if 0xC2 <= lead < 0xE0 then 2
    else if 0xE0 <= lead < 0xF0 then 3
    else if 0xF0 <= lead < 0xF5 then 4
    else 0
  }

  predicate IsTrail(b: Byte) { 0x80 <= b < 0xC0 }

  predicate SecondByteAllowed(lead: Byte, second: Byte) {
    && IsTrail(second)
    && (lead == 0xE0 ==> 0xA0 <= second)
    && (lead == 0xED ==> second < 0xA0)
    && (lead == 0xF0 ==> 0x90 <= second)
    && (lead == 0xF4 ==> second < 0x90)
  }

  /** The bytes begin with one complete well-formed sequence. */
  predicate StartsWithSequence(bytes: seq<Byte>) {
    && bytes != []
    && var n := SequenceLength(bytes[0]);
    && 1 <= n <= |bytes|
    && (n >= 2 ==> SecondByteAllowed(bytes[0], bytes[1]))
    && (n >= 3 ==> IsTrail(bytes[2]))
    && (n >= 4 ==> IsTrail(bytes[3]))
  }

  /** A strict decoder accepts the bytes. */
  predicate Decodes(bytes: seq<Byte>) {
    bytes == [] || (StartsWithSequence(bytes) && Decodes(bytes[SequenceLength(bytes[0])..]))
  }

  /** The bytes are one complete well-formed sequence. */
  ghost predicate IsSequence(one: seq<Byte>) {
    && StartsWithSequence(one) && SequenceLength(one[0]) == |one|
    && forall k :: 1 <= k < |one| ==> IsTrail(one[k])
  }

  lemma EncodedIsSequence(c: CodePoint)
    ensures IsSequence(EncodeOne(c))
  {
  }

  lemma StartsBefore(a: seq<Byte>, b: seq<Byte>)
    requires StartsWithSequence(a)
    ensures StartsWithSequence(a + b) && (a + b)[0] == a[0]
    ensures (a + b)[SequenceLength(a[0])..] == a[SequenceLength(a[0])..] + b
  {
  }

  /** A decoder reads one sequence and goes on behind it. */
  lemma SequenceThenRest(one: seq<Byte>, rest: seq<Byte>)
    requires IsSequence(one)
    ensures Decodes(one + rest) <==> Decodes(rest)
  {
    StartsBefore(one, rest);
    assert one[|one|..] + rest == rest;
  }

  /** Neither part of a sequence cut in two is accepted. */
  lemma CutSequenceIsRefused(one: seq<Byte>, rest: seq<Byte>, k: nat)
    requires IsSequence(one) && 0 < k < |one|
    ensures !Decodes(one[..k]) && !Decodes(one[k..] + rest)
  {
    assert one[..k][0] == one[0];
    assert (one[k..] + rest)[0] == one[k];
  }

  lemma {:induction false} EncodingDecodes(text: seq<CodePoint>)
    ensures Decodes(Encode(text))
  {
    if text != [] {
      EncodedIsSequence(text[0]);
      EncodingDecodes(text[1..]);
      SequenceThenRest(EncodeOne(text[0]), Encode(text[1..]));
    }
  }

  /** The scalar value of the sequence at the front. */
  function FirstScalar(bytes: seq<Byte>): (c: CodePoint)
    requires StartsWithSequence(bytes)
  {
    var n := SequenceLength(bytes[0]);
    var lead: int := bytes[0];
    if n == 1 then lead
    else
      var second: int := bytes[1] - 0x80;
      if n == 2 then (lead - 0xC0) * 64 + second
      else
        var third: int := bytes[2] - 0x80;
        if n == 3 then (lead - 0xE0) * 4096 + second * 64 + third
        else
          var fourth: int := bytes[3] - 0x80;
          (lead - 0xF0) * 262144 + second * 4096 + third * 64 + fourth
  }

  lemma LowSixBits(high: nat, low: nat)
    requires low < 64
    ensures (high * 64 + low) / 64 == high && (high * 64 + low) % 64 == low
  {
  }

  lemma FirstScalarEncodes(bytes: seq<Byte>)
    requires StartsWithSequence(bytes)
    ensures EncodeOne(FirstScalar(bytes)) == bytes[..SequenceLength(bytes[0])]
  {
    var n := SequenceLength(bytes[0]);
    var lead: int := bytes[0];
    if n == 2 {
      LowSixBits(lead - 0xC0, bytes[1] - 0x80);
    } else if n == 3 {
      var high := (lead - 0xE0) * 64 + (bytes[1] - 0x80);
      LowSixBits(high, bytes[2] - 0x80);
      LowSixBits(lead - 0xE0, bytes[1] - 0x80);
      assert FirstScalar(bytes) == high * 64 + (bytes[2] - 0x80);
    } else if n == 4 {
      var high := (lead - 0xF0) * 64 + (bytes[1] - 0x80);
      var middle := high * 64 + (bytes[2] - 0x80);
      LowSixBits(middle, bytes[3] - 0x80);
      LowSixBits(high, bytes[2] - 0x80);
      LowSixBits(lead - 0xF0, bytes[1] - 0x80);
      assert FirstScalar(bytes) == middle * 64 + (bytes[3] - 0x80);
    }
  }

  /** The text that bytes stand for. */
  function Decode(bytes: seq<Byte>): seq<CodePoint>
    requires Decodes(bytes)
  {
    if bytes == [] then [] else [FirstScalar(bytes)] + Decode(bytes[SequenceLength(bytes[0])..])
  }

  lemma EncodeCons(c: CodePoint, text: seq<CodePoint>)
    ensures Encode([c] + text) == EncodeOne(c) + Encode(text)
  {
    assert ([c] + text)[1..] == text;
  }

  lemma TakeAndDrop(bytes: seq<Byte>, n: nat)
    requires n <= |bytes|
    ensures bytes[..n] + bytes[n..] == bytes
  {
  }

  /** The strict decoder accepts exactly the encodings of text, and decoding undoes encoding. */
  lemma {:induction false} DecodeThenEncode(bytes: seq<Byte>)
    requires Decodes(bytes)
    ensures Encode(Decode(bytes)) == bytes
  {
    if bytes != [] {
      var n := SequenceLength(bytes[0]);
      DecodeThenEncode(bytes[n..]);
      FirstScalarEncodes(bytes);
      EncodeCons(FirstScalar(bytes), Decode(bytes[n..]));
      TakeAndDrop(bytes, n);
    }
  }

  lemma ThreeParts(c: nat)
    requires c < 0x1_0000
    ensures (c / 4096) * 4096 + (c / 64 % 64) * 64 + c % 64 == c && c / 4096 < 16
  {
  }

  lemma FourParts(c: nat)
    requires c < 0x11_0000
    ensures (c / 262144) * 262144 + (c / 4096 % 64) * 4096 + (c / 64 % 64) * 64 + c % 64 == c && c / 262144 < 5
  {
  }

  lemma FirstScalarOfEncoded(c: CodePoint, bytes: seq<Byte>)
    requires StartsWithSequence(bytes) && |EncodeOne(c)| <= |bytes| && bytes[..|EncodeOne(c)|] == EncodeOne(c)
    requires SequenceLength(bytes[0]) == |EncodeOne(c)|
    ensures FirstScalar(bytes) == c
  {
    var one := EncodeOne(c);
    assert forall i :: 0 <= i < |one| ==> bytes[i] == one[i];
    ThreeParts(if c < 0x1_0000 then c else 0);
    FourParts(c);
  }

  lemma DecodeStep(one: seq<Byte>, rest: seq<Byte>)
    requires IsSequence(one) && Decodes(rest)
    ensures Decodes(one + rest) && StartsWithSequence(one + rest) && SequenceLength((one + rest)[0]) == |one|
    ensures (one + rest)[..|one|] == one
    ensures Decode(one + rest) == [FirstScalar(one + rest)] + Decode(rest)
  {
    SequenceThenRest(one, rest);
    StartsBefore(one, rest);
    assert one[|one|..] + rest == rest;
  }

  lemma {:induction false} EncodeThenDecode(text: seq<CodePoint>)
    ensures Decodes(Encode(text)) && Decode(Encode(text)) == text
  {
    if text != [] {
      EncodeThenDecode(text[1..]);
      EncodedIsSequence(text[0]);
      DecodeStep(EncodeOne(text[0]), Encode(text[1..]));
      FirstScalarOfEncoded(text[0], EncodeOne(text[0]) + Encode(text[1..]));
      assert [text[0]] + text[1..] == text;
    }
  }

  /** Byte position `k` falls between two code points of `text`, or at an end. */
  predicate Boundary(text: seq<CodePoint>, k: int) {
    k == 0 || (text != [] && k >= |EncodeOne(text[0])| && Boundary(text[1..], k - |EncodeOne(text[0])|))
  }

  lemma {:induction false} BoundaryInRange(text: seq<CodePoint>, k: int)
    requires Boundary(text, k)
    ensures 0 <= k <= |Encode(text)|
  {
    if k != 0 {
      BoundaryInRange(text[1..], k - |EncodeOne(text[0])|);
    }
  }

  lemma {:induction false} EndIsBoundary(text: seq<CodePoint>)
    ensures Boundary(text, |Encode(text)|)
  {
    if text != [] {
      EndIsBoundary(text[1..]);
    }
  }

  lemma TakeAcross(one: seq<Byte>, rest: seq<Byte>, k: nat)
    requires k <= |one| + |rest|
    ensures k >= |one| ==> (one + rest)[..k] == one + rest[..k - |one|] && (one + rest)[k..] == rest[k - |one|..]
    ensures k < |one| ==> (one + rest)[..k] == one[..k] && (one + rest)[k..] == one[k..] + rest
  {
  }

  /** A head that reaches behind the first sequence is accepted if its part of the rest is; a shorter one
      that is not empty never is. */
  lemma PrefixOfSequence(one: seq<Byte>, rest: seq<Byte>, k: nat, inRest: bool)
    requires IsSequence(one) && 0 < k <= |one + rest|
    requires k >= |one| ==> (Decodes(rest[..k - |one|]) <==> inRest)
    ensures Decodes((one + rest)[..k]) <==> k >= |one| && inRest
  {
    TakeAcross(one, rest, k);
    if k >= |one| {
      SequenceThenRest(one, rest[..k - |one|]);
    } else {
      CutSequenceIsRefused(one, rest, k);
    }
  }

  lemma SuffixOfSequence(one: seq<Byte>, rest: seq<Byte>, k: nat, inRest: bool)
    requires IsSequence(one) && 0 < k <= |one + rest|
    requires k >= |one| ==> (Decodes(rest[k - |one|..]) <==> inRest)
    ensures Decodes((one + rest)[k..]) <==> k >= |one| && inRest
  {
    TakeAcross(one, rest, k);
    if k < |one| {
      CutSequenceIsRefused(one, rest, k);
    }
  }

  /** A truncated head is refused exactly when the cut splits a code point. */
  lemma {:induction false} PrefixDecodesIffBoundary(text: seq<CodePoint>, k: nat)
    requires k <= |Encode(text)|
    ensures Decodes(Encode(text)[..k]) <==> Boundary(text, k)
  {
    if k > 0 {
      EncodedIsSequence(text[0]);
      var one, others := EncodeOne(text[0]), text[1..];
      if k >= |one| {
        PrefixDecodesIffBoundary(others, k - |one|);
      }
      PrefixOfSequence(one, Encode(others), k, k >= |one| && Boundary(others, k - |one|));
    }
  }

  /** A tail cut out of the encoding is refused exactly when the cut splits a code point. */
  lemma {:induction false} SuffixDecodesIffBoundary(text: seq<CodePoint>, k: nat)
    requires k <= |Encode(text)|
    ensures Decodes(Encode(text)[k..]) <==> Boundary(text, k)
  {
    if k == 0 {
      EncodingDecodes(text);
      assert Encode(text)[0..] == Encode(text);
    } else {
      EncodedIsSequence(text[0]);
      var one, others := EncodeOne(text[0]), text[1..];
      if k >= |one| {
        SuffixDecodesIffBoundary(others, k - |one|);
      }
      SuffixOfSequence(one, Encode(others), k, k >= |one| && Boundary(others, k - |one|));
    }
  }

  /** Some boundary lies at most three bytes below any position. */
  lemma {:induction false} BoundaryBelow(text: seq<CodePoint>, k: nat) returns (j: nat)
    requires k <= |Encode(text)|
    ensures j <= k <= j + 3 && Boundary(text, j)
  {
    if text == [] || k < |EncodeOne(text[0])| {
      j := 0;
    } else {
      j := BoundaryBelow(text[1..], k - |EncodeOne(text[0])|);
      j := j + |EncodeOne(text[0])|;
    }
  }

  /** Some boundary lies at most three bytes above any position. */
  lemma {:induction false} BoundaryAbove(text: seq<CodePoint>, k: nat) returns (j: nat)
    requires k <= |Encode(text)|
    ensures k <= j <= k + 3 && j <= |Encode(text)| && Boundary(text, j)
  {
    if k == 0 {
      j := 0;
    } else if k < |EncodeOne(text[0])| {
      j := |EncodeOne(text[0])|;
    } else {
      j := BoundaryAbove(text[1..], k - |EncodeOne(text[0])|);
      j := j + |EncodeOne(text[0])|;
    }
  }

  /** ASCII text as bytes. */
  function Ascii(s: string): (bytes: seq<Byte>)
    requires forall i :: 0 <= i < |s| ==> s[i] < 128 as char
    ensures |bytes| == |s|
    ensures forall i :: 0 <= i < |s| ==> bytes[i] == s[i] as int && bytes[i] < 128
  {
    seq(|s|, i requires 0 <= i < |s| => s[i] as int)
  }

  lemma {:induction false} SevenBitDecodes(bytes: seq<Byte>)
    requires forall i :: 0 <= i < |bytes| ==> bytes[i] < 128
    ensures Decodes(bytes)
  {
    if bytes != [] {
      SevenBitDecodes(bytes[1..]);
    }
  }

  lemma {:induction false} DecodesConcat(a: seq<Byte>, b: seq<Byte>)
    requires Decodes(a) && Decodes(b)
    ensures Decodes(a + b)
  {
    if a == [] {
      assert a + b == b;
    } else {
      DecodesConcat(a[SequenceLength(a[0])..], b);
      StartsBefore(a, b);
    }
  }
}
