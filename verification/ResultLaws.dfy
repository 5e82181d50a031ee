/** How the reduction of a tool result spends its bytes, counted in serialized bytes and with its own numbers
    (agent/tools/result_bounds.py). */
module ResultLaws {
  import opened Common
  import opened Utf8
  import opened BoundedText
  import opened JsonSize
  import opened JsonText
  import opened MetadataOrder
  import opened ResultBounds

  function Positive(n: int): nat { if n > 0 then n else 0 }
  function OneOrMore(n: int): nat { if n > 1 then n else 1 }

  // ---------------------------------------------------------------- the body

  lemma FieldsTextCons(field: Field, rest: seq<Field>)
    ensures FieldsText([field] + rest) == FieldText(field) + (if rest == [] then [] else [0x2C, 0x20]) + FieldsText(rest)
  {
    assert ([field] + rest)[1..] == rest;
  }

  /** The body that is sent: its keys in order, the content and the metadata serialized, null or the code of the error,
      and true exactly without one. */
  lemma BodyIsSerialized(content: String, metadata: seq<Field>, error: Option<String>, names: Names)
    ensures Serialize(Body(content, metadata, error, names)) == BodyText(content, metadata, error, names)
  {
    var a, b := Field(names.content, Text(content)), Field(names.errorCode, ErrorField(error));
    var c := Field(names.metadata, Object(metadata));
    var d := Field(names.ok, Literal(if error.None? then [116, 114, 117, 101] else [102, 97, 108, 115, 101]));
    FieldsTextCons(d, []);
    FieldsTextCons(c, [d]);
    FieldsTextCons(b, [c, d]);
    FieldsTextCons(a, [b, c, d]);
    FourFields(a, b, c, d);
    NothingBehind(FieldText(d));
  }

  lemma FourFields(a: Field, b: Field, c: Field, d: Field)
    ensures [a, b, c, d] == [a] + [b, c, d] && [b, c, d] == [b] + [c, d] && [c, d] == [c] + [d] && [d] == [d] + []
  {
  }

  lemma NothingBehind(a: seq<Byte>)
    ensures a + [] + [] == a
  {
  }

  // ---------------------------------------------------------------- the budgets

  /** The budgets of the search in bytes: what the empty body and a reserve of 768 leave to the content, a third or 768
      for the diagnostics, and steps of at least one byte, with 2304 more when salient evidence has to fit. */
  lemma BudgetsAre(bounded: String, error: Option<String>, maxBytes: nat, names: Names, budget: nat, excess: nat, salient: bool)
    requires budget >= 1
    ensures FirstBudget(maxBytes, BodySize([], [], error, names)) == OneOrMore(maxBytes - |BodyText([], [], error, names)| - 768)
    ensures MetadataBudget(bounded, error, maxBytes, names) == Positive(maxBytes - |BodyText(bounded, [], error, names)| - 768)
    ensures Reserve(budget) == if budget / 3 < 768 then budget / 3 else 768
    ensures NextBudget(budget, excess, salient) == OneOrMore(budget - OneOrMore(excess + if salient then 2304 else 0))
  {
    BodySizeCountsBytes([], [], error, names);
    BodySizeCountsBytes(bounded, [], error, names);
  }

  /** The search has at most twelve rounds, and its budget never grows. */
  lemma {:induction false} SearchIsShort(content: String, metadata: seq<Field>, error: Option<String>, maxBytes: nat, salient: bool,
      setting: Setting, failed: seq<Try>, position: Position)
    requires Searched(content, metadata, error, maxBytes, salient, setting, failed, position)
    ensures position.Shrinking? ==> position.round == |failed| < 12
    ensures failed != [] ==> position.budget <= failed[|failed| - 1].budget
  {
    if failed != [] {
      var n := |failed| - 1;
      var before: Position, excess: nat :|
        && Searched(content, metadata, error, maxBytes, salient, setting, failed[..n], before)
        && FailsBy(content, metadata, error, maxBytes, setting, failed[n], excess)
        && before.budget == failed[n].budget >= 1 && position == Moved(before, excess, maxBytes, salient);
      SearchIsShort(content, metadata, error, maxBytes, salient, setting, failed[..n], before);
      OneMoreRound(before, excess, maxBytes, salient);
    }
  }

  /** A round that failed: the next budget, until the twelfth round or one that changes nothing; from there, or from
      the limit if that is less, every smaller budget. */
  lemma OneMoreRound(before: Position, excess: nat, maxBytes: nat, salient: bool)
    requires before.budget >= 1
    ensures var after := Moved(before, excess, maxBytes, salient);
      var next := NextBudget(before.budget, excess, salient);
      && after.budget <= before.budget
      && (before.CountingDown? ==> after == CountingDown(before.budget - 1))
      && (before.Shrinking? && (next == before.budget || before.round >= 11) ==>
            after == CountingDown(if next < maxBytes then next else maxBytes))
      && (before.Shrinking? && next < before.budget && before.round < 11 ==> after == Shrinking(next, before.round + 1))
  {
  }

  // ---------------------------------------------------------------- what a container keeps

  /** A bounded field stays exactly when the serialized object with it is within the budget. */
  lemma FieldStaysIff(before: seq<Field>, child: Field, budget: int)
    ensures WithField(before, child, budget) ==
      if |Serialize(Object(Put(before, child.key, child.value)))| <= budget then Put(before, child.key, child.value) else before
  {
    SizeCountsBytes(Object(Put(before, child.key, child.value)));
  }

  /** A list that lost items ends with a note about them exactly when the serialized list with it is within the budget. */
  lemma NoteIsAddedIff(items: seq<Json>, taken: seq<Json>, budget: int, setting: Setting)
    ensures var noted := taken + [Text(setting.missing(|Serialize(Array(items))|, Positive(|items| - |taken|)))];
      WithNote(items, taken, budget, setting) ==
        if |taken| < |items| && |Serialize(Array(noted))| <= budget then noted else taken
  {
    SizeCountsBytes(Array(items));
    SizeCountsBytes(Array(taken + [Text(setting.missing(|Serialize(Array(items))|, Positive(|items| - |taken|)))]));
  }

  /** An assignment to a key changes what stands under it and nothing else, and keeps the order of the keys. */
  lemma {:induction false} PutIs(fields: seq<Field>, key: String, value: Json, other: String)
    ensures HasKey(Put(fields, key, value), other) <==> other == key || HasKey(fields, other)
    ensures HasKey(Put(fields, key, value), other) ==>
      ValueOf(Put(fields, key, value), other) == if other == key then value else ValueOf(fields, other)
    ensures |Put(fields, key, value)| == |fields| + if HasKey(fields, key) then 0 else 1
    ensures forall i :: 0 <= i < |fields| ==> Put(fields, key, value)[i].key == fields[i].key
  {
    if fields == [] {
      PutBehind(Field(key, value), [], [], key, other);
      assert [Field(key, value)] + [] == [Field(key, value)];
    } else {
      var rest := fields[1..];
      assert fields == [fields[0]] + rest;
      if fields[0].key == key {
        assert Put(fields, key, value) == [Field(key, value)] + rest;
        PutBehind(Field(key, value), rest, rest, key, other);
        PutBehind(fields[0], rest, rest, key, other);
      } else {
        PutIs(rest, key, value, other);
        PutBehind(fields[0], rest, Put(rest, key, value), key, other);
        KeyBehind(fields[0], rest, key);
      }
    }
  }

  lemma PutBehind(first: Field, rest: seq<Field>, after: seq<Field>, key: String, other: String)
    ensures HasKey([first] + rest, other) <==> first.key == other || HasKey(rest, other)
    ensures HasKey([first] + after, other) <==> first.key == other || HasKey(after, other)
    ensures HasKey([first] + after, other) ==>
      ValueOf([first] + after, other) == if first.key == other then first.value else ValueOf(after, other)
  {
    KeyBehind(first, rest, other);
    KeyBehind(first, after, other);
    assert ([first] + after)[1..] == after;
  }

  /** What is said about the content stands over fields of the tool with the same names, and the others stay. */
  lemma {:induction false} UpdateWins(fields: seq<Field>, more: seq<Field>, key: String)
    ensures HasKey(Update(fields, more), key) <==> HasKey(fields, key) || HasKey(more, key)
    ensures HasKey(fields, key) && !HasKey(more, key) ==> ValueOf(Update(fields, more), key) == ValueOf(fields, key)
    ensures forall i :: 0 <= i < |more| && more[i].key == key && !HasKey(more[i + 1..], key) ==>
      HasKey(Update(fields, more), key) && ValueOf(Update(fields, more), key) == more[i].value
    decreases more
  {
    if more != [] {
      var put := Put(fields, more[0].key, more[0].value);
      PutIs(fields, more[0].key, more[0].value, key);
      UpdateWins(put, more[1..], key);
      KeyBehind(more[0], more[1..], key);
      assert more == [more[0]] + more[1..];
      forall i | 0 < i < |more| ensures more[i..][1..] == more[1..][i..] && more[i] == more[1..][i - 1] {
      }
    }
  }

  // ---------------------------------------------------------------- the metadata diagnostics

  /** What is omitted is what the original has beyond the retained bytes. */
  lemma MissingIs(original: nat, retained: nat)
    ensures Missing(original, retained) == Positive(original - retained)
  {
  }

  /** The field that goes in a round of counting is the last that is none of the five diagnostics that stay. */
  lemma RemovedIsLastFree(fields: seq<Field>, names: Names, i: nat)
    requires i < |fields|
    ensures LastRemovable(fields, names) == i <==>
      && fields[i].key !in {names.truncated, names.original, names.retained, names.omitted, names.marker}
      && forall j :: i < j < |fields| ==> fields[j].key in {names.truncated, names.original, names.retained, names.omitted, names.marker}
  {
  }

  /** Of the compact diagnostics those stay that fit the budget on their own. */
  lemma {:induction false} SmallIs(fields: seq<Field>, budget: int, field: Field)
    ensures field in KeepSmall(fields, budget) <==> field in fields && |Serialize(Object([field]))| <= budget
  {
    if fields != [] {
      SmallIs(fields[1..], budget, field);
      SizeCountsBytes(Object([fields[0]]));
    }
  }

  /** Bounded metadata are described and counted in at most four rounds; if that is too large in bytes, the compact
      diagnostics stand for it, and if these are too large together, nothing does. */
  lemma DescribedIs(bounded: seq<Field>, original: nat, budget: int, setting: Setting)
    ensures var added := Added(Diagnostics(setting, original, 0), Ordered(bounded, setting.rank), budget);
      var counted := Counted(added, original, budget, setting.names, 4);
      var small := KeepSmall(setting.compact(original), budget);
      FromBounded(bounded, original, budget, setting) ==
        if |Serialize(Object(counted))| <= budget then counted
        else if |Serialize(Object(small))| <= budget then small else []
  {
    var added := Added(Diagnostics(setting, original, 0), Ordered(bounded, setting.rank), budget);
    SizeCountsBytes(Object(Counted(added, original, budget, setting.names, 4)));
    SizeCountsBytes(Object(KeepSmall(setting.compact(original), budget)));
  }

  /** A bounded value behind the eighth level is a cut text, and a value within its budget is left alone. */
  lemma DepthAndBudget(value: Json, budget: int, depth: nat, setting: Setting, bounded: Json)
    requires depth <= 9 && FitsAs(value, budget, depth, setting, bounded)
    ensures budget <= 0 ==> Serialize(bounded) == [0x6E, 0x75, 0x6C, 0x6C]
    ensures 0 < budget && depth == 9 ==> bounded.Text? && TextFits(setting.repr(value), budget, bounded.text)
    ensures depth < 9 && 0 < |Serialize(value)| <= budget ==> bounded == value
  {
    SizeCountsBytes(value);
  }
}
