/** JSON values and the number of bytes their serialization takes: strings with the escapes of section 7
    of RFC 8259, ", " between items and ": " behind a key, everything else unescaped. */
module JsonSize {
  import opened Utf8

  datatype Json =
    | Literal(token: seq<Byte>)            // a number, true, false or null
    | Text(text: seq<CodePoint>)
    | Array(items: seq<Json>)
    | Object(fields: seq<Field>)

  datatype Field = Field(key: seq<CodePoint>, value: Json)

  /** Bytes of one byte of text inside quotes. */
  function Escaped(b: Byte): (size: nat)
    ensures 1 <= size <= 6
  {
    if b == 0x22 || b == 0x5C || b == 0x08 || b == 0x09 || b == 0x0A || b == 0x0C || b == 0x0D then 2
    else if b < 0x20 then 6
    else 1
  }

  function EscapedSize(bytes: seq<Byte>): (size: nat)
    ensures |bytes| <= size <= 6 * |bytes|
  {
    if bytes == [] then 0 else Escaped(bytes[0]) + EscapedSize(bytes[1..])
  }

  /** Bytes of a text with its quotes. */
  function TextSize(text: seq<CodePoint>): nat { EscapedSize(Encode(text)) + 2 }

  function Size(json: Json): nat {
    match json
    case Literal(token) => |token|
    case Text(text) => TextSize(text)
    case Array(items) => ItemsSize(items) + 2
    case Object(fields) => FieldsSize(fields) + 2
  }

  /** Items with their commas. */
  function ItemsSize(items: seq<Json>): nat {
    if items == [] then 0
    else Size(items[0]) + (if |items| > 1 then 2 else 0) + ItemsSize(items[1..])
  }

  function FieldsSize(fields: seq<Field>): nat {
    if fields == [] then 0
    else TextSize(fields[0].key) + 2 + Size(fields[0].value) + (if |fields| > 1 then 2 else 0) + FieldsSize(fields[1..])
  }

  lemma {:induction false} EscapedConcat(a: seq<Byte>, b: seq<Byte>)
    ensures EscapedSize(a + b) == EscapedSize(a) + EscapedSize(b)
  {
    if a == [] {
      assert a + b == b;
    } else {
      assert (a + b)[1..] == a[1..] + b;
      EscapedConcat(a[1..], b);
    }
  }

  // ---------------------------------------------------------------- dictionaries

  predicate HasKey(fields: seq<Field>, key: seq<CodePoint>) {
    exists i :: 0 <= i < |fields| && fields[i].key == key
  }

  /** Assignment to a key: in place if the key is there, at the end otherwise. */
  function Put(fields: seq<Field>, key: seq<CodePoint>, value: Json): seq<Field> {
    if fields == [] then [Field(key, value)]
    else if fields[0].key == key then [Field(key, value)] + fields[1..]
    else [fields[0]] + Put(fields[1..], key, value)
  }

  function Update(fields: seq<Field>, more: seq<Field>): seq<Field>
    decreases more
  {
    if more == [] then fields else Update(Put(fields, more[0].key, more[0].value), more[1..])
  }
}
