/** The order in which metadata fields are considered: objective facts first, then by name
    (agent/tools/result_bounds.py). */
module MetadataOrder {
  import opened Utf8
  import opened JsonSize

  /** Not behind the other name, by code points. */
  predicate NotBehind(a: seq<CodePoint>, b: seq<CodePoint>) {
    a == [] || (b != [] && (a[0] < b[0] || (a[0] == b[0] && NotBehind(a[1..], b[1..]))))
  }

  predicate InOrder(a: Field, b: Field, rank: seq<CodePoint> -> nat) {
    rank(a.key) < rank(b.key) || (rank(a.key) == rank(b.key) && NotBehind(a.key, b.key))
  }

  /** Behind everything that may stand before it. */
  function Inserted(field: Field, sorted: seq<Field>, rank: seq<CodePoint> -> nat): seq<Field> {
    if sorted == [] then [field]
    else if InOrder(sorted[0], field, rank) then [sorted[0]] + Inserted(field, sorted[1..], rank)
    else [field] + sorted
  }

  /** A stable sort by rank and name. */
  function Ordered(fields: seq<Field>, rank: seq<CodePoint> -> nat): seq<Field> {
    if fields == [] then []
    else Inserted(fields[|fields| - 1], Ordered(fields[..|fields| - 1], rank), rank)
  }

  ghost predicate IsOrdered(fields: seq<Field>, rank: seq<CodePoint> -> nat) {
    forall i, j :: 0 <= i < j < |fields| ==> InOrder(fields[i], fields[j], rank)
  }

  /** The fields of one name, in their order. */
  function OfKey(fields: seq<Field>, key: seq<CodePoint>): seq<Field> {
    if fields == [] then [] else (if fields[0].key == key then [fields[0]] else []) + OfKey(fields[1..], key)
  }

  lemma {:induction false} NotBehindIsTotal(a: seq<CodePoint>, b: seq<CodePoint>)
    ensures NotBehind(a, b) || NotBehind(b, a)
    ensures NotBehind(a, b) && NotBehind(b, a) ==> a == b
  {
    if a != [] && b != [] && a[0] == b[0] {
      NotBehindIsTotal(a[1..], b[1..]);
      assert a == [a[0]] + a[1..] && b == [b[0]] + b[1..];
    }
  }

  lemma {:induction false} NotBehindChains(a: seq<CodePoint>, b: seq<CodePoint>, c: seq<CodePoint>)
    requires NotBehind(a, b) && NotBehind(b, c)
    ensures NotBehind(a, c)
  {
    if a != [] && a[0] == b[0] && b[0] == c[0] {
      NotBehindChains(a[1..], b[1..], c[1..]);
    }
  }

  lemma InOrderChains(a: Field, b: Field, c: Field, rank: seq<CodePoint> -> nat)
    requires InOrder(a, b, rank) && InOrder(b, c, rank)
    ensures InOrder(a, c, rank)
  {
    if rank(a.key) == rank(b.key) == rank(c.key) {
      NotBehindChains(a.key, b.key, c.key);
    }
  }

  lemma ConsIsOrdered(first: Field, rest: seq<Field>, rank: seq<CodePoint> -> nat)
    requires IsOrdered(rest, rank) && forall k :: 0 <= k < |rest| ==> InOrder(first, rest[k], rank)
    ensures IsOrdered([first] + rest, rank)
  {
  }

  lemma {:induction false} FirstStaysFirst(first: Field, field: Field, sorted: seq<Field>, rank: seq<CodePoint> -> nat)
    requires InOrder(first, field, rank) && forall k :: 0 <= k < |sorted| ==> InOrder(first, sorted[k], rank)
    ensures forall k :: 0 <= k < |Inserted(field, sorted, rank)| ==> InOrder(first, Inserted(field, sorted, rank)[k], rank)
  {
    if sorted != [] {
      FirstStaysFirst(first, field, sorted[1..], rank);
    }
  }

  lemma FieldFirst(field: Field, sorted: seq<Field>, rank: seq<CodePoint> -> nat)
    requires IsOrdered(sorted, rank) && sorted != [] && !InOrder(sorted[0], field, rank)
    ensures forall k :: 0 <= k < |sorted| ==> InOrder(field, sorted[k], rank) && !InOrder(sorted[k], field, rank)
  {
    NotBehindIsTotal(sorted[0].key, field.key);
    forall k | 0 <= k < |sorted| ensures InOrder(field, sorted[k], rank) && !InOrder(sorted[k], field, rank) {
      if k > 0 {
        InOrderChains(field, sorted[0], sorted[k], rank);
        if InOrder(sorted[k], field, rank) {
          InOrderChains(sorted[0], sorted[k], field, rank);
        }
      }
    }
  }

  lemma {:induction false} InsertedIsOrdered(field: Field, sorted: seq<Field>, rank: seq<CodePoint> -> nat)
    requires IsOrdered(sorted, rank)
    ensures IsOrdered(Inserted(field, sorted, rank), rank)
  {
    if sorted != [] {
      if InOrder(sorted[0], field, rank) {
        InsertedIsOrdered(field, sorted[1..], rank);
        FirstStaysFirst(sorted[0], field, sorted[1..], rank);
        ConsIsOrdered(sorted[0], Inserted(field, sorted[1..], rank), rank);
      } else {
        FieldFirst(field, sorted, rank);
        ConsIsOrdered(field, sorted, rank);
      }
    }
  }

  lemma {:induction false} InsertedIsThere(field: Field, sorted: seq<Field>, rank: seq<CodePoint> -> nat)
    ensures multiset(Inserted(field, sorted, rank)) == multiset(sorted) + multiset{field}
  {
    if sorted != [] {
      assert sorted == [sorted[0]] + sorted[1..];
      InsertedIsThere(field, sorted[1..], rank);
    }
  }

  lemma OfKeyCons(first: Field, rest: seq<Field>, key: seq<CodePoint>)
    ensures OfKey([first] + rest, key) == (if first.key == key then [first] else []) + OfKey(rest, key)
  {
    assert ([first] + rest)[1..] == rest;
  }

  lemma {:induction false} NoneOfKey(sorted: seq<Field>, key: seq<CodePoint>)
    requires forall k :: 0 <= k < |sorted| ==> sorted[k].key != key
    ensures OfKey(sorted, key) == []
  {
    if sorted != [] {
      NoneOfKey(sorted[1..], key);
    }
  }

  lemma KeysDiffer(field: Field, sorted: seq<Field>, rank: seq<CodePoint> -> nat)
    requires forall k :: 0 <= k < |sorted| ==> !InOrder(sorted[k], field, rank)
    ensures forall k :: 0 <= k < |sorted| ==> sorted[k].key != field.key
  {
    NotBehindIsTotal(field.key, field.key);
  }

  lemma {:induction false} InsertedKeepsKeys(field: Field, sorted: seq<Field>, key: seq<CodePoint>, rank: seq<CodePoint> -> nat)
    requires IsOrdered(sorted, rank)
    ensures OfKey(Inserted(field, sorted, rank), key) == OfKey(sorted, key) + if field.key == key then [field] else []
  {
    if sorted == [] {
      OfKeyCons(field, [], key);
    } else if InOrder(sorted[0], field, rank) {
      InsertedKeepsKeys(field, sorted[1..], key, rank);
      OfKeyCons(sorted[0], Inserted(field, sorted[1..], rank), key);
    } else {
      OfKeyCons(field, sorted, key);
      FieldFirst(field, sorted, rank);
      KeysDiffer(field, sorted, rank);
      if field.key == key {
        NoneOfKey(sorted, key);
      }
    }
  }

  lemma {:induction false} OfKeyAppend(fields: seq<Field>, field: Field, key: seq<CodePoint>)
    ensures OfKey(fields + [field], key) == OfKey(fields, key) + if field.key == key then [field] else []
  {
    if fields == [] {
      assert fields + [field] == [field] && [field][1..] == [];
    } else {
      assert (fields + [field])[1..] == fields[1..] + [field];
      OfKeyAppend(fields[1..], field, key);
    }
  }

  /** The fields are all there, in order, and those of one name as they were: this determines the order. */
  lemma {:induction false} OrderedIsStableSort(fields: seq<Field>, key: seq<CodePoint>, rank: seq<CodePoint> -> nat)
    ensures IsOrdered(Ordered(fields, rank), rank)
    ensures multiset(Ordered(fields, rank)) == multiset(fields)
    ensures OfKey(Ordered(fields, rank), key) == OfKey(fields, key)
  {
    if fields != [] {
      var n := |fields| - 1;
      OrderedIsStableSort(fields[..n], key, rank);
      InsertedIsOrdered(fields[n], Ordered(fields[..n], rank), rank);
      InsertedIsThere(fields[n], Ordered(fields[..n], rank), rank);
      InsertedKeepsKeys(fields[n], Ordered(fields[..n], rank), key, rank);
      OfKeyAppend(fields[..n], fields[n], key);
      assert fields == fields[..n] + [fields[n]];
    }
  }
}
