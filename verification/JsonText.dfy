/** The serialization of JSON values, byte by byte, and that JsonSize counts its bytes: strings as in section 7 of
    RFC 8259 (agent/tools/result_bounds.py, _strict_json_bytes). */
module JsonText {
  import opened Utf8
  import opened JsonSize

  // ---------------------------------------------------------------- strings

  function HexDigit(n: nat): (digit: Byte)
    requires n < 16
  {
    if n < 10 then 0x30 + n else 0x61 + n - 10
  }

  /** A byte of a text as it stands between quotes. */
  function EscapeOf(b: Byte): seq<Byte> {
    if b == 0x22 || b == 0x5C then [0x5C, b]
    else if b == 0x08 then [0x5C, 0x62]
    else if b == 0x09 then [0x5C, 0x74]
    else if b == 0x0A then [0x5C, 0x6E]
    else if b == 0x0C then [0x5C, 0x66]
    else if b == 0x0D then [0x5C, 0x72]
    else if b < 0x20 then [0x5C, 0x75, 0x30, 0x30, HexDigit(b / 16), HexDigit(b % 16)]
    else [b]
  }

  function Escape(bytes: seq<Byte>): seq<Byte> {
    if bytes == [] then [] else EscapeOf(bytes[0]) + Escape(bytes[1..])
  }

  function Quoted(text: seq<CodePoint>): seq<Byte> { [0x22] + Escape(Encode(text)) + [0x22] }

  /** A reader's side of section 7: what may stand between the quotes. */
  function HexValue(digit: Byte): (value: int)
    ensures -1 <= value < 16
  {
    if 0x30 <= digit <= 0x39 then digit - 0x30
    else if 0x41 <= digit <= 0x46 then digit - 0x41 + 10
    else if 0x61 <= digit <= 0x66 then digit - 0x61 + 10
    else -1
  }

  /** How many bytes the first character of a string body takes; 0 when the body is not well formed there: no
      bare quotation mark, no control character, and every backslash opens an escape. */
  function FirstLength(body: seq<Byte>): (n: nat)
    requires body != []
    ensures n <= |body|
  {
    if body[0] == 0x22 || body[0] < 0x20 then 0
    else if body[0] != 0x5C then 1
    else if |body| < 2 then 0
    else if body[1] in {0x22, 0x5C, 0x2F, 0x62, 0x66, 0x6E, 0x72, 0x74} then 2
    else if body[1] == 0x75 && |body| >= 6 && HexValue(body[2]) >= 0 && HexValue(body[3]) >= 0
      && HexValue(body[4]) >= 0 && HexValue(body[5]) >= 0 then 6
    else 0
  }

  predicate IsStringBody(body: seq<Byte>) {
    body == [] || (FirstLength(body) > 0 && IsStringBody(body[FirstLength(body)..]))
  }

  /** The byte that the first character stands for; of the escapes by number only those of one byte are read. */
  function FirstByte(body: seq<Byte>): int
    requires body != [] && FirstLength(body) > 0
  {
    if body[0] != 0x5C then body[0]
    else if body[1] == 0x62 then 0x08
    else if body[1] == 0x66 then 0x0C
    else if body[1] == 0x6E then 0x0A
    else if body[1] == 0x72 then 0x0D
    else if body[1] == 0x74 then 0x09
    else if body[1] == 0x75 then
      ((HexValue(body[2]) * 16 + HexValue(body[3])) * 16 + HexValue(body[4])) * 16 + HexValue(body[5])
    else body[1]
  }

  function Unescaped(body: seq<Byte>): seq<int>
    requires IsStringBody(body)
  {
    if body == [] then [] else [FirstByte(body)] + Unescaped(body[FirstLength(body)..])
  }

  lemma HexDigitIsRead(n: nat)
    requires n < 16
    ensures HexValue(HexDigit(n)) == n
  {
  }

  lemma FirstIsRead(b: Byte, rest: seq<Byte>)
    ensures var body := EscapeOf(b) + rest;
      FirstLength(body) == |EscapeOf(b)| && FirstByte(body) == b && body[FirstLength(body)..] == rest
  {
    var body := EscapeOf(b) + rest;
    if b < 0x20 {
      HexDigitIsRead(b / 16);
      HexDigitIsRead(b % 16);
      assert HexValue(0x30) == 0;
    }
    assert body[|EscapeOf(b)|..] == rest;
  }

  /** The string form of a text is well formed between its quotes, and reads back as the bytes of the text. */
  lemma {:induction false} EscapedReadsBack(bytes: seq<Byte>)
    ensures IsStringBody(Escape(bytes)) && Unescaped(Escape(bytes)) == bytes
  {
    if bytes != [] {
      EscapedReadsBack(bytes[1..]);
      FirstIsRead(bytes[0], Escape(bytes[1..]));
      assert bytes == [bytes[0]] + bytes[1..];
    }
  }

  lemma QuotedReadsBack(text: seq<CodePoint>)
    ensures var quoted := Quoted(text);
      && |quoted| >= 2 && quoted[0] == 0x22 && quoted[|quoted| - 1] == 0x22
      && IsStringBody(quoted[1..|quoted| - 1]) && Unescaped(quoted[1..|quoted| - 1]) == Encode(text)
  {
    EscapedReadsBack(Encode(text));
    assert Quoted(text)[1..|Quoted(text)| - 1] == Escape(Encode(text));
  }

  lemma {:induction false} EscapeSize(bytes: seq<Byte>)
    ensures |Escape(bytes)| == EscapedSize(bytes)
  {
    if bytes != [] {
      EscapeSize(bytes[1..]);
    }
  }

  lemma QuotedSize(text: seq<CodePoint>)
    ensures |Quoted(text)| == TextSize(text)
  {
    EscapeSize(Encode(text));
  }

  // ---------------------------------------------------------------- values

  function Serialize(json: Json): seq<Byte> {
    match json
    case Literal(token) => token
    case Text(text) => Quoted(text)
    case Array(items) => [0x5B] + ItemsText(items) + [0x5D]
    case Object(fields) => [0x7B] + FieldsText(fields) + [0x7D]
  }

  function ItemsText(items: seq<Json>): seq<Byte> {
    if items == [] then []
    else Serialize(items[0]) + (if |items| > 1 then [0x2C, 0x20] else []) + ItemsText(items[1..])
  }

  function FieldsText(fields: seq<Field>): seq<Byte> {
    if fields == [] then []
    else FieldText(fields[0]) + (if |fields| > 1 then [0x2C, 0x20] else []) + FieldsText(fields[1..])
  }

  function FieldText(field: Field): seq<Byte> { Quoted(field.key) + [0x3A, 0x20] + Serialize(field.value) }

  /** The size of a value is the number of bytes of its serialization. */
  lemma {:induction false} SizeCountsBytes(json: Json)
    ensures |Serialize(json)| == Size(json)
  {
    match json
    case Literal(_) =>
    case Text(text) => QuotedSize(text);
    case Array(items) => ItemsSizeCountsBytes(items);
    case Object(fields) => FieldsSizeCountsBytes(fields);
  }

  lemma {:induction false} ItemsSizeCountsBytes(items: seq<Json>)
    ensures |ItemsText(items)| == ItemsSize(items)
  {
    if items != [] {
      SizeCountsBytes(items[0]);
      ItemsSizeCountsBytes(items[1..]);
    }
  }

  lemma {:induction false} FieldsSizeCountsBytes(fields: seq<Field>)
    ensures |FieldsText(fields)| == FieldsSize(fields)
  {
    if fields != [] {
      QuotedSize(fields[0].key);
      SizeCountsBytes(fields[0].value);
      FieldsSizeCountsBytes(fields[1..]);
    }
  }

  /** An array is its items in brackets, with a comma and a blank before each but the first. */
  lemma {:induction false} ArrayText(items: seq<Json>, item: Json)
    ensures Serialize(Array([])) == [0x5B, 0x5D]
    ensures Serialize(Array(items + [item]))
         == [0x5B] + ItemsText(items) + (if items == [] then [] else [0x2C, 0x20]) + Serialize(item) + [0x5D]
  {
    ItemsTextAppend(items, item);
  }

  lemma {:induction false} ItemsTextAppend(items: seq<Json>, item: Json)
    ensures ItemsText(items + [item]) == ItemsText(items) + (if items == [] then [] else [0x2C, 0x20]) + Serialize(item)
  {
    var all := items + [item];
    if items == [] {
      assert all == [item] && [item][1..] == [];
    } else {
      assert all[0] == items[0] && all[1..] == items[1..] + [item];
      ItemsTextAppend(items[1..], item);
      if |items| == 1 {
        assert items[1..] == [];
      }
    }
  }

  /** An object is its fields in braces, each a string, a colon, a blank and the value, with a comma and a blank
      before each but the first. */
  lemma {:induction false} ObjectText(fields: seq<Field>, field: Field)
    ensures Serialize(Object([])) == [0x7B, 0x7D]
    ensures Serialize(Object(fields + [field]))
         == [0x7B] + FieldsText(fields) + (if fields == [] then [] else [0x2C, 0x20])
            + (Quoted(field.key) + [0x3A, 0x20] + Serialize(field.value)) + [0x7D]
  {
    FieldsTextAppend(fields, field);
    assert FieldsText([]) == [] && [0x7B] + [] + [0x7D] == [0x7B, 0x7D];
  }

  lemma {:induction false} FieldsTextAppend(fields: seq<Field>, field: Field)
    ensures FieldsText(fields + [field]) == FieldsText(fields) + (if fields == [] then [] else [0x2C, 0x20]) + FieldText(field)
  {
    var all := fields + [field];
    if fields == [] {
      assert all == [field] && [field][1..] == [];
    } else {
      assert all[0] == fields[0] && all[1..] == fields[1..] + [field];
      FieldsTextAppend(fields[1..], field);
      if |fields| == 1 {
        assert fields[1..] == [];
      }
    }
  }

  // ---------------------------------------------------------------- the order of fields

  lemma FieldsSizeCons(field: Field, rest: seq<Field>)
    ensures FieldsSize([field] + rest)
         == TextSize(field.key) + 2 + Size(field.value) + (if rest == [] then 0 else 2) + FieldsSize(rest)
  {
    assert ([field] + rest)[1..] == rest;
  }

  lemma {:induction false} FieldsSizeMoved(fields: seq<Field>, i: nat)
    requires i < |fields|
    ensures FieldsSize(fields) == FieldsSize([fields[i]] + (fields[..i] + fields[i + 1..]))
  {
    var first := fields[0];
    assert fields == [first] + fields[1..];
    if i == 0 {
      assert fields[..0] + fields[1..] == fields[1..];
    } else {
      var rest := fields[1..][..i - 1] + fields[1..][i..];
      FieldsSizeMoved(fields[1..], i - 1);
      assert fields[..i] + fields[i + 1..] == [first] + rest;
      FieldsSizeCons(first, fields[1..]);
      FieldsSizeCons(fields[i], rest);
      FieldsSizeCons(first, rest);
      FieldsSizeCons(fields[i], [first] + rest);
    }
  }

  lemma WithoutOne(a: multiset<Field>, b: multiset<Field>, field: Field)
    requires multiset{field} + a == multiset{field} + b
    ensures a == b
  {
    assert a == (multiset{field} + a) - multiset{field};
  }

  lemma TakenOut(fields: seq<Field>, i: nat)
    requires i < |fields|
    ensures multiset(fields) == multiset{fields[i]} + multiset(fields[..i] + fields[i + 1..])
  {
    assert fields == fields[..i] + [fields[i]] + fields[i + 1..];
  }

  /** Sorting the keys of a dictionary does not change how many bytes it takes. */
  lemma {:induction false} SizeIgnoresOrder(a: seq<Field>, b: seq<Field>)
    requires multiset(a) == multiset(b)
    ensures Size(Object(a)) == Size(Object(b))
  {
    if a == [] {
      assert |multiset(b)| == 0;
    } else {
      assert a == [a[0]] + a[1..];
      assert a[0] in multiset(b);
      var i :| 0 <= i < |b| && b[i] == a[0];
      var rest := b[..i] + b[i + 1..];
      TakenOut(b, i);
      WithoutOne(multiset(a[1..]), multiset(rest), a[0]);
      SizeIgnoresOrder(a[1..], rest);
      FieldsSizeMoved(b, i);
      FieldsSizeCons(a[0], a[1..]);
      FieldsSizeCons(a[0], rest);
      assert |multiset(a[1..])| == |multiset(rest)|;
    }
  }
}
