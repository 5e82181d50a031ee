/** Bounding a whole tool result, content and metadata together, by the size of its serialized body
    (agent/tools/result_bounds.py). */
module ResultBounds {
  import opened Common
  import opened Utf8
  import opened Cutting
  import opened MarkerIteration
  import opened BoundedText
  import opened JsonSize
  import opened JsonText
  import opened MetadataOrder
  import Decimal

  const DIAGNOSTIC_RESERVE := 768
  const SEMANTIC_RESERVE := 2304
  const MAX_DEPTH := 8

  type String = seq<CodePoint>

  /** The names the reducer writes; no claim depends on how they are spelled. */
  datatype Names = Names(
    truncated: String, partial: String, strategy: String, original: String, retained: String, omitted: String,
    marker: String, truncation: String,
    content: String, errorCode: String, metadata: String, ok: String)

  /** What is decided elsewhere: the ranks of the objective names, the text of a value that is no text, the note
      about missing items, the diagnostics of a truncated content, and the metadata diagnostics besides their
      counts, which show the original size. */
  datatype Setting = Setting(
    names: Names, rank: String -> nat, repr: Json -> String, missing: (nat, nat) -> String,
    diagnose: Truncation -> seq<Field>, other: nat -> seq<Field>, compact: nat -> seq<Field>)

  // ---------------------------------------------------------------- metadata values

  const NULL := Literal([110, 117, 108, 108])

  ghost predicate TextFits(text: String, maxBytes: int, bounded: String) {
    if |Encode(text)| <= maxBytes then bounded == text
    else if maxBytes <= 0 then bounded == []
    else exists info :: IsBounded(OfMetadata, Encode(text), maxBytes, Encode(bounded), info)
  }

  /** One nested text within its limit. */
  method BoundMetadataText(text: String, maxBytes: int) returns (bounded: String)
    ensures TextFits(text, maxBytes, bounded)
  {
    if |Encode(text)| <= maxBytes {
      return text;
    }
    if maxBytes <= 0 {
      return [];
    }
    var bytes, _ := BoundText(OfMetadata, text, maxBytes);
    DecodeThenEncode(bytes);
    bounded := Decode(bytes);
  }

  function AtLeastOne(budget: int): (positive: nat)
    ensures positive >= 1
  {
    if budget > 1 then budget else 1
  }

  /** What bounding a value makes of it: a value that fits is kept, a text is cut, a container keeps what
      fits of its bounded parts, and anything too deep becomes a cut text. */
  ghost predicate FitsAs(value: Json, budget: int, depth: nat, setting: Setting, bounded: Json)
    requires depth <= MAX_DEPTH + 1
    decreases MAX_DEPTH + 1 - depth, 0, 0
  {
    if budget <= 0 then bounded == NULL
    else if depth > MAX_DEPTH then bounded.Text? && TextFits(setting.repr(value), budget, bounded.text)
    else if Size(value) <= budget then bounded == value
    else match value
      case Text(text) => bounded.Text? && TextFits(text, budget, bounded.text)
      case Object(fields) => bounded.Object? && ObjectFits(fields, budget, depth, setting, bounded.fields)
      case Array(items) => bounded.Array? && ItemsFit(items, budget, depth, setting, bounded.items)
      case Literal(_) => bounded.Text? && TextFits(setting.repr(value), budget, bounded.text)
  }

  /** The names are bounded, and the fields then considered in order. */
  ghost predicate ObjectFits(fields: seq<Field>, budget: int, depth: nat, setting: Setting, kept: seq<Field>)
    requires depth <= MAX_DEPTH
    decreases MAX_DEPTH - depth, 2, 0
  {
    exists named: seq<Field> :: Renamed(fields, named) && FieldsFit(Ordered(named, setting.rank), budget, depth, setting, kept)
  }

  ghost predicate Renamed(fields: seq<Field>, named: seq<Field>) {
    |named| == |fields| && forall i :: 0 <= i < |fields| ==>
      named[i].value == fields[i].value && TextFits(fields[i].key, 256, named[i].key)
  }

  /** Field by field, in the order given: a field that would overrun the budget is left out. */
  ghost predicate FieldsFit(fields: seq<Field>, budget: int, depth: nat, setting: Setting, kept: seq<Field>)
    requires depth <= MAX_DEPTH
    decreases MAX_DEPTH - depth, 1, |fields|
  {
    if fields == [] then kept == []
    else
      var n := |fields| - 1;
      exists before, child: Field ::
        && FieldsFit(fields[..n], budget, depth, setting, before)
        && ChildFits(fields[n], before, budget, depth, setting, child)
        && kept == WithField(before, child, budget)
  }

  ghost predicate ChildFits(field: Field, before: seq<Field>, budget: int, depth: nat, setting: Setting, child: Field)
    requires depth <= MAX_DEPTH
    decreases MAX_DEPTH - depth, 0, 1
  {
    && child.key == field.key
    && FitsAs(field.value, AtLeastOne(budget - Size(Object(before)) - |child.key| - 16), depth + 1, setting, child.value)
  }

  function WithField(before: seq<Field>, child: Field, budget: int): seq<Field> {
    var candidate := Put(before, child.key, child.value);
    if Size(Object(candidate)) <= budget then candidate else before
  }

  /** The items from the first on that fit behind each other. */
  ghost predicate ItemsTaken(items: seq<Json>, budget: int, depth: nat, setting: Setting, kept: seq<Json>)
    requires depth <= MAX_DEPTH
    decreases MAX_DEPTH - depth, 1, |kept|
  {
    && |kept| <= |items|
    && (kept != [] ==>
          var n := |kept| - 1;
          && ItemsTaken(items, budget, depth, setting, kept[..n])
          && ItemFits(items[n], kept[..n], budget, depth, setting, kept[n])
          && Size(Array(kept)) <= budget)
  }

  ghost predicate ItemFits(item: Json, before: seq<Json>, budget: int, depth: nat, setting: Setting, child: Json)
    requires depth <= MAX_DEPTH
    decreases MAX_DEPTH - depth, 0, 1
  {
    FitsAs(item, AtLeastOne(budget - Size(Array(before)) - 4), depth + 1, setting, child)
  }

  /** Item by item up to the first that would overrun the budget, then a note on how many are missing. */
  ghost predicate ItemsFit(items: seq<Json>, budget: int, depth: nat, setting: Setting, kept: seq<Json>)
    requires depth <= MAX_DEPTH
    decreases MAX_DEPTH - depth, 2, 0
  {
    exists taken ::
      && ItemsTaken(items, budget, depth, setting, taken)
      && (|taken| < |items| ==> exists child ::
            ItemFits(items[|taken|], taken, budget, depth, setting, child) && Size(Array(taken + [child])) > budget)
      && kept == WithNote(items, taken, budget, setting)
  }

  function WithNote(items: seq<Json>, taken: seq<Json>, budget: int, setting: Setting): seq<Json> {
    if |taken| >= |items| then taken
    else
      var noted := taken + [Text(setting.missing(Size(Array(items)), |items| - |taken|))];
      if Size(Array(noted)) <= budget then noted else taken
  }

  method BoundMetadataValue(value: Json, budget: int, depth: nat, setting: Setting) returns (bounded: Json)
    requires depth <= MAX_DEPTH + 1
    ensures FitsAs(value, budget, depth, setting, bounded)
    decreases MAX_DEPTH + 1 - depth, 0, 0
  {
    if budget <= 0 {
      return NULL;
    }
    if depth > MAX_DEPTH {
      var text := BoundMetadataText(setting.repr(value), budget);
      return Text(text);
    }
    if Size(value) <= budget {
      return value;
    }
    match value {
      case Text(text) =>
        var kept := BoundMetadataText(text, budget);
        bounded := Text(kept);
      case Object(fields) =>
        var named := BoundKeys(fields);
        var kept := BoundFields(Ordered(named, setting.rank), budget, depth, setting);
        bounded := Object(kept);
      case Array(items) =>
        var kept := BoundItems(items, budget, depth, setting);
        bounded := Array(kept);
      case Literal(_) =>
        var kept := BoundMetadataText(setting.repr(value), budget);
        bounded := Text(kept);
    }
  }

  method BoundKeys(fields: seq<Field>) returns (named: seq<Field>)
    ensures Renamed(fields, named)
  {
    named := [];
    while |named| < |fields|
      invariant |named| <= |fields|
      invariant forall i :: 0 <= i < |named| ==>
        named[i].value == fields[i].value && TextFits(fields[i].key, 256, named[i].key)
    {
      var key := BoundMetadataText(fields[|named|].key, 256);
      named := named + [Field(key, fields[|named|].value)];
    }
  }

  method BoundFields(fields: seq<Field>, budget: int, depth: nat, setting: Setting) returns (kept: seq<Field>)
    requires budget > 0 && depth <= MAX_DEPTH
    ensures FieldsFit(fields, budget, depth, setting, kept)
    decreases MAX_DEPTH - depth, 1, |fields|
  {
    kept := [];
    var next := 0;
    while next < |fields|
      invariant 0 <= next <= |fields|
      invariant FieldsFit(fields[..next], budget, depth, setting, kept)
    {
      var child := BoundField(fields[next], kept, budget, depth, setting);
      OneMoreField(fields, next, budget, depth, setting, kept, child);
      kept := KeepIfItFits(kept, child, budget);
      next := next + 1;
    }
    assert fields[..next] == fields;
  }

  method BoundField(field: Field, before: seq<Field>, budget: int, depth: nat, setting: Setting) returns (child: Field)
    requires depth <= MAX_DEPTH
    ensures ChildFits(field, before, budget, depth, setting, child)
    decreases MAX_DEPTH - depth, 0, 1
  {
    var remaining := AtLeastOne(budget - Size(Object(before)) - |field.key| - 16);
    var value := BoundMetadataValue(field.value, remaining, depth + 1, setting);
    child := Field(field.key, value);
  }

  method KeepIfItFits(before: seq<Field>, child: Field, budget: int) returns (kept: seq<Field>)
    ensures kept == WithField(before, child, budget)
  {
    var candidate := Put(before, child.key, child.value);
    kept := if Size(Object(candidate)) <= budget then candidate else before;
  }

  lemma OneMoreField(fields: seq<Field>, next: nat, budget: int, depth: nat, setting: Setting, before: seq<Field>, child: Field)
    requires depth <= MAX_DEPTH && next < |fields|
    requires FieldsFit(fields[..next], budget, depth, setting, before)
    requires ChildFits(fields[next], before, budget, depth, setting, child)
    ensures FieldsFit(fields[..next + 1], budget, depth, setting, WithField(before, child, budget))
  {
    assert fields[..next + 1][..next] == fields[..next] && fields[..next + 1][next] == fields[next];
  }

  method BoundItems(items: seq<Json>, budget: int, depth: nat, setting: Setting) returns (kept: seq<Json>)
    requires budget > 0 && depth <= MAX_DEPTH
    ensures ItemsFit(items, budget, depth, setting, kept)
    decreases MAX_DEPTH - depth, 2
  {
    ghost var overrun;
    kept, overrun := TakeItems(items, budget, depth, setting);
    NoteFollows(items, budget, depth, setting, kept, overrun);
    if |kept| < |items| {
      var sentinel := Text(setting.missing(Size(Array(items)), |items| - |kept|));
      if Size(Array(kept + [sentinel])) <= budget {
        kept := kept + [sentinel];
      }
    }
  }

  /** The items that fit, and the bounded form of the first that does not. */
  method TakeItems(items: seq<Json>, budget: int, depth: nat, setting: Setting) returns (kept: seq<Json>, ghost overrun: Json)
    requires budget > 0 && depth <= MAX_DEPTH
    ensures ItemsTaken(items, budget, depth, setting, kept)
    ensures |kept| < |items| ==>
      ItemFits(items[|kept|], kept, budget, depth, setting, overrun) && Size(Array(kept + [overrun])) > budget
    decreases MAX_DEPTH - depth, 1
  {
    kept := [];
    overrun := NULL;
    while |kept| < |items|
      invariant ItemsTaken(items, budget, depth, setting, kept)
      decreases |items| - |kept|
    {
      var child := BoundItem(items[|kept|], kept, budget, depth, setting);
      if Size(Array(kept + [child])) > budget {
        return kept, child;
      }
      OneMoreItem(items, budget, depth, setting, kept, child);
      kept := kept + [child];
    }
  }

  method BoundItem(item: Json, before: seq<Json>, budget: int, depth: nat, setting: Setting) returns (child: Json)
    requires depth <= MAX_DEPTH
    ensures ItemFits(item, before, budget, depth, setting, child)
    decreases MAX_DEPTH - depth, 0, 1
  {
    child := BoundMetadataValue(item, AtLeastOne(budget - Size(Array(before)) - 4), depth + 1, setting);
  }

  lemma OneMoreItem(items: seq<Json>, budget: int, depth: nat, setting: Setting, before: seq<Json>, child: Json)
    requires depth <= MAX_DEPTH && |before| < |items| && ItemsTaken(items, budget, depth, setting, before)
    requires ItemFits(items[|before|], before, budget, depth, setting, child) && Size(Array(before + [child])) <= budget
    ensures ItemsTaken(items, budget, depth, setting, before + [child])
  {
    assert (before + [child])[..|before|] == before;
  }

  lemma NoteFollows(items: seq<Json>, budget: int, depth: nat, setting: Setting, taken: seq<Json>, overrun: Json)
    requires depth <= MAX_DEPTH && ItemsTaken(items, budget, depth, setting, taken)
    requires |taken| < |items| ==>
      ItemFits(items[|taken|], taken, budget, depth, setting, overrun) && Size(Array(taken + [overrun])) > budget
    ensures ItemsFit(items, budget, depth, setting, WithNote(items, taken, budget, setting))
  {
  }

  /** A bounded container serializes within its budget unless nothing is left of it, and a bounded text
      has at most so many bytes. */
  lemma BoundedValueFits(value: Json, budget: int, depth: nat, setting: Setting, bounded: Json)
    requires depth <= MAX_DEPTH + 1 && budget > 0 && FitsAs(value, budget, depth, setting, bounded)
    ensures bounded.Object? ==> Size(bounded) <= budget || bounded.fields == []
    ensures bounded.Array? ==> Size(bounded) <= budget || bounded.items == []
    ensures bounded.Text? ==> |Encode(bounded.text)| <= budget || Size(bounded) <= budget
    ensures bounded.Literal? ==> bounded == value
    ensures |Serialize(bounded)| == Size(bounded)
  {
    SizeCountsBytes(bounded);
    if depth <= MAX_DEPTH && Size(value) > budget {
      match value
      case Object(fields) =>
        var named: seq<Field> :| Renamed(fields, named) && FieldsFit(Ordered(named, setting.rank), budget, depth, setting, bounded.fields);
        KeptFieldsFit(Ordered(named, setting.rank), budget, depth, setting, bounded.fields);
      case Array(items) => KeptItemsFit(items, budget, depth, setting, bounded.items);
      case Text(text) => FittingText(text, budget, bounded.text);
      case Literal(_) => FittingText(setting.repr(value), budget, bounded.text);
    } else if depth > MAX_DEPTH {
      FittingText(setting.repr(value), budget, bounded.text);
    }
  }

  lemma FittingText(text: String, maxBytes: int, bounded: String)
    requires maxBytes > 0 && TextFits(text, maxBytes, bounded)
    ensures |Encode(bounded)| <= maxBytes
  {
  }

  lemma KeptItemsFit(items: seq<Json>, budget: int, depth: nat, setting: Setting, kept: seq<Json>)
    requires depth <= MAX_DEPTH && ItemsFit(items, budget, depth, setting, kept)
    ensures Size(Array(kept)) <= budget || kept == []
  {
    var taken :| ItemsTaken(items, budget, depth, setting, taken) && kept == WithNote(items, taken, budget, setting);
  }

  lemma {:induction false} KeptFieldsFit(fields: seq<Field>, budget: int, depth: nat, setting: Setting, kept: seq<Field>)
    requires depth <= MAX_DEPTH && FieldsFit(fields, budget, depth, setting, kept)
    ensures Size(Object(kept)) <= budget || kept == []
    decreases |fields|
  {
    if fields != [] {
      var n := |fields| - 1;
      var before, child: Field :|
        && FieldsFit(fields[..n], budget, depth, setting, before)
        && ChildFits(fields[n], before, budget, depth, setting, child)
        && kept == WithField(before, child, budget);
      KeptFieldsFit(fields[..n], budget, depth, setting, before);
    }
  }

  // ---------------------------------------------------------------- the metadata object

  function Number(n: nat): Json { Literal(Digits(n)) }

  function Digits(n: nat): (token: seq<Byte>)
    ensures |token| == Decimal.Width(n)
  {
    var s := Decimal.Render(n);
    seq(|s|, i requires 0 <= i < |s| => if s[i] < 128 as char then s[i] as int else 0)
  }

  /** The diagnostics the reducer adds to truncated metadata. */
  function Diagnostics(setting: Setting, original: nat, retained: nat): seq<Field> {
    setting.other(original)
    + [Field(setting.names.original, Number(original)), Field(setting.names.retained, Number(retained)),
       Field(setting.names.omitted, Number(Missing(original, retained)))]
  }

  function Missing(original: nat, retained: nat): nat { if original > retained then original - retained else 0 }

  /** The fields that fit one after the other behind those that are there, none of which they replace. */
  function Added(present: seq<Field>, fields: seq<Field>, budget: int): (all: seq<Field>)
    ensures present <= all
  {
    if fields == [] then present
    else
      var n := |fields| - 1;
      var before := Added(present, fields[..n], budget);
      if HasKey(before, fields[n].key) || Size(Object(before + [fields[n]])) > budget then before
      else before + [fields[n]]
  }

  /** What was added comes from the fields, and nothing that was left out would still fit. */
  lemma {:induction false} AddedIsMaximal(present: seq<Field>, fields: seq<Field>, budget: int)
    ensures var all := Added(present, fields, budget);
      && (all == present || Size(Object(all)) <= budget)
      && (forall field :: field in all ==> field in present || field in fields)
      && forall i :: 0 <= i < |fields| && !HasKey(all, fields[i].key) ==> Size(Object(all + [fields[i]])) > budget
  {
    if fields != [] {
      var n := |fields| - 1;
      var before, all := Added(present, fields[..n], budget), Added(present, fields, budget);
      AddedIsMaximal(present, fields[..n], budget);
      forall i | 0 <= i < |fields| && !HasKey(all, fields[i].key) ensures Size(Object(all + [fields[i]])) > budget {
        StillMissing(before, fields[n], fields[i].key);
        if i < n {
          assert fields[..n][i] == fields[i] && !HasKey(before, fields[..n][i].key);
          InsertedIsLarger(before, fields[n], fields[i]);
        }
      }
    }
  }

  lemma StillMissing(before: seq<Field>, field: Field, key: String)
    ensures HasKey(before, key) || field.key == key ==> HasKey(before + [field], key)
  {
    assert (before + [field])[|before|] == field;
    if i :| 0 <= i < |before| && before[i].key == key {
      assert (before + [field])[i].key == key;
    }
  }

  lemma InsertedIsLarger(before: seq<Field>, inserted: Field, field: Field)
    ensures Size(Object(before + [inserted] + [field])) >= Size(Object(before + [field]))
  {
    FieldsSnoc(before, field);
    FieldsSnoc(before, inserted);
    FieldsSnoc(before + [inserted], field);
  }

  lemma {:induction false} FieldsSnoc(fields: seq<Field>, field: Field)
    ensures FieldsSize(fields + [field])
         == FieldsSize(fields) + TextSize(field.key) + 2 + Size(field.value) + if fields == [] then 0 else 2
  {
    if fields == [] {
      assert fields + [field] == [field] && [field][1..] == [];
    } else {
      assert (fields + [field])[1..] == fields[1..] + [field];
      FieldsSnoc(fields[1..], field);
    }
  }

  method AddWhatFits(diagnostics: seq<Field>, fields: seq<Field>, budget: int) returns (result: seq<Field>)
    ensures result == Added(diagnostics, fields, budget)
  {
    result := diagnostics;
    var next := 0;
    while next < |fields|
      invariant 0 <= next <= |fields|
      invariant result == Added(diagnostics, fields[..next], budget)
    {
      assert fields[..next + 1][..next] == fields[..next];
      if !HasKey(result, fields[next].key) {
        PutAppends(result, fields[next].key, fields[next].value);
        var trial := Put(result, fields[next].key, fields[next].value);
        if Size(Object(trial)) <= budget {
          result := trial;
        }
      }
      next := next + 1;
    }
    assert fields[..next] == fields;
  }

  lemma {:induction false} PutAppends(fields: seq<Field>, key: String, value: Json)
    requires !HasKey(fields, key)
    ensures Put(fields, key, value) == fields + [Field(key, value)]
  {
    if fields != [] {
      assert fields == [fields[0]] + fields[1..];
      KeyBehind(fields[0], fields[1..], key);
      PutAppends(fields[1..], key, value);
    }
  }

  /** One round of counting: the size before the round is written into it. */
  function Recounted(fields: seq<Field>, original: nat, names: Names): seq<Field> {
    var retained := Size(Object(fields));
    Put(Put(fields, names.retained, Number(retained)), names.omitted, Number(Missing(original, retained)))
  }

  /** The rounds left: the counts change the size they describe, and the last field that is no protected
      diagnostic goes while the whole is too large. */
  function Counted(fields: seq<Field>, original: nat, budget: int, names: Names, rounds: nat): seq<Field>
    decreases rounds
  {
    if rounds == 0 then fields
    else
      var counted := Recounted(fields, original, names);
      var last := LastRemovable(counted, names);
      if Size(Object(counted)) <= budget || last == -1 then counted
      else Counted(counted[..last] + counted[last + 1..], original, budget, names, rounds - 1)
  }

  const COUNT_ROUNDS := 4

  method CountRetained(fields: seq<Field>, original: nat, budget: int, setting: Setting) returns (result: seq<Field>)
    ensures result == Counted(fields, original, budget, setting.names, COUNT_ROUNDS)
  {
    result := CountRounds(fields, original, budget, setting.names, COUNT_ROUNDS,
      Counted(fields, original, budget, setting.names, COUNT_ROUNDS));
  }

  method CountRounds(fields: seq<Field>, original: nat, budget: int, names: Names, rounds: nat, ghost goal: seq<Field>)
    returns (result: seq<Field>)
    requires goal == Counted(fields, original, budget, names, rounds)
    ensures result == goal
  {
    result := fields;
    var left := rounds;
    while left > 0
      invariant 0 <= left <= rounds
      invariant goal == Counted(result, original, budget, names, left)
    {
      var done;
      result, done := CountOnce(result, original, budget, names, left, goal);
      if done {
        return;
      }
      left := left - 1;
    }
    NoneCounted(result, original, budget, names);
  }

  lemma NoneCounted(fields: seq<Field>, original: nat, budget: int, names: Names)
    ensures Counted(fields, original, budget, names, 0) == fields
  {
  }

  method CountOnce(fields: seq<Field>, original: nat, budget: int, names: Names, ghost left: nat, ghost goal: seq<Field>)
    returns (next: seq<Field>, done: bool)
    requires left > 0 && goal == Counted(fields, original, budget, names, left)
    ensures goal == if done then next else Counted(next, original, budget, names, left - 1)
  {
    var size := Size(Object(fields));
    var counted := WriteCounts(fields, size, original, names);
    var last := LastRemovable(counted, names);
    CountedNext(fields, original, budget, names, left, counted, last);
    done := Size(Object(counted)) <= budget || last == -1;
    next := if done then counted else counted[..last] + counted[last + 1..];
  }

  method WriteCounts(fields: seq<Field>, retained: nat, original: nat, names: Names) returns (counted: seq<Field>)
    requires retained == Size(Object(fields))
    ensures counted == Recounted(fields, original, names)
  {
    counted := Put(fields, names.retained, Number(retained));
    counted := Put(counted, names.omitted, Number(if original > retained then original - retained else 0));
  }

  lemma CountedNext(fields: seq<Field>, original: nat, budget: int, names: Names, rounds: nat, counted: seq<Field>, last: int)
    requires rounds > 0 && counted == Recounted(fields, original, names) && last == LastRemovable(counted, names)
    ensures Counted(fields, original, budget, names, rounds)
         == if Size(Object(counted)) <= budget || last == -1 then counted
            else Counted(counted[..last] + counted[last + 1..], original, budget, names, rounds - 1)
  {
  }

  /** The last field that is none of the protected diagnostics. */
  function LastRemovable(fields: seq<Field>, names: Names): (last: int)
    ensures -1 <= last < |fields|
    ensures last >= 0 ==> !Protected(fields[last].key, names)
    ensures forall i :: last < i < |fields| ==> Protected(fields[i].key, names)
  {
    if fields == [] then -1
    else
      var n := |fields| - 1;
      if Protected(fields[n].key, names) then LastRemovable(fields[..n], names) else n
  }

  predicate Protected(key: String, names: Names) {
    key in {names.truncated, names.original, names.retained, names.omitted, names.marker}
  }

  function ValueOf(fields: seq<Field>, key: String): (value: Json)
    requires HasKey(fields, key)
  {
    if fields[0].key == key then fields[0].value
    else
      assert HasKey(fields[1..], key) by {
        var i :| 0 <= i < |fields| && fields[i].key == key;
        assert fields[1..][i - 1].key == key;
      }
      ValueOf(fields[1..], key)
  }

  lemma {:induction false} PutReplaces(fields: seq<Field>, key: String, value: Json)
    requires HasKey(fields, key)
    ensures FieldsSize(Put(fields, key, value)) == FieldsSize(fields) - Size(ValueOf(fields, key)) + Size(value)
    ensures HasKey(Put(fields, key, value), key) && ValueOf(Put(fields, key, value), key) == value
    ensures |Put(fields, key, value)| == |fields|
    ensures forall other :: other != key && HasKey(fields, other) ==>
      HasKey(Put(fields, key, value), other) && ValueOf(Put(fields, key, value), other) == ValueOf(fields, other)
  {
    if fields[0].key == key {
      FieldsCons(Field(key, value), fields[1..]);
      FieldsCons(fields[0], fields[1..]);
      assert fields == [fields[0]] + fields[1..];
      forall other | other != key && HasKey(fields, other)
        ensures HasKey([Field(key, value)] + fields[1..], other)
             && ValueOf([Field(key, value)] + fields[1..], other) == ValueOf(fields, other)
      {
        KeyBehind(fields[0], fields[1..], other);
        KeyBehind(Field(key, value), fields[1..], other);
      }
      assert HasKey([Field(key, value)] + fields[1..], key) by {
        assert ([Field(key, value)] + fields[1..])[0].key == key;
      }
    } else {
      assert fields == [fields[0]] + fields[1..];
      KeyBehind(fields[0], fields[1..], key);
      PutReplaces(fields[1..], key, value);
      var rest := Put(fields[1..], key, value);
      FieldsCons(fields[0], fields[1..]);
      FieldsCons(fields[0], rest);
      KeyBehind(fields[0], rest, key);
      forall other | other != key && HasKey(fields, other)
        ensures HasKey([fields[0]] + rest, other) && ValueOf([fields[0]] + rest, other) == ValueOf(fields, other)
      {
        KeyBehind(fields[0], fields[1..], other);
        KeyBehind(fields[0], rest, other);
      }
    }
  }

  lemma KeyBehind(first: Field, rest: seq<Field>, key: String)
    ensures HasKey([first] + rest, key) <==> first.key == key || HasKey(rest, key)
    ensures first.key != key && HasKey(rest, key) ==> ValueOf([first] + rest, key) == ValueOf(rest, key)
    ensures first.key == key ==> HasKey([first] + rest, key) && ValueOf([first] + rest, key) == first.value
  {
    var all := [first] + rest;
    assert all[0] == first && all[1..] == rest;
    if i :| 0 <= i < |rest| && rest[i].key == key {
      assert all[i + 1].key == key;
    }
    if i :| 0 <= i < |all| && all[i].key == key {
      assert i == 0 || rest[i - 1].key == key;
    }
  }

  // ---------------------------------------------------------------- what the counts say

  /** The fields hold these two counts. */
  ghost predicate Shows(fields: seq<Field>, retained: nat, omitted: nat, names: Names) {
    && HasKey(fields, names.retained) && HasKey(fields, names.omitted)
    && ValueOf(fields, names.retained) == Number(retained) && ValueOf(fields, names.omitted) == Number(omitted)
  }

  /** A round writes the size before it; the size behind it differs by the widths of the counts. */
  lemma RoundShows(fields: seq<Field>, original: nat, names: Names, oldRetained: nat, oldOmitted: nat)
    requires names.retained != names.omitted && Shows(fields, oldRetained, oldOmitted, names)
    ensures var size := Size(Object(fields));
      && Shows(Recounted(fields, original, names), size, Missing(original, size), names)
      && Size(Object(Recounted(fields, original, names)))
         == size + Widths(size, Missing(original, size)) - Widths(oldRetained, oldOmitted)
  {
    var retained := Size(Object(fields));
    var once := Put(fields, names.retained, Number(retained));
    PutReplaces(fields, names.retained, Number(retained));
    PutReplaces(once, names.omitted, Number(Missing(original, retained)));
  }

  function Widths(retained: nat, omitted: nat): nat { Decimal.Width(retained) + Decimal.Width(omitted) }

  function Without(fields: seq<Field>, i: nat): seq<Field>
    requires i < |fields|
  {
    fields[..i] + fields[i + 1..]
  }

  lemma {:induction false} RemovalKeepsValue(fields: seq<Field>, i: nat, key: String)
    requires i < |fields| && fields[i].key != key && HasKey(fields, key)
    ensures HasKey(Without(fields, i), key) && ValueOf(Without(fields, i), key) == ValueOf(fields, key)
  {
    var first, rest := fields[0], fields[1..];
    assert fields == [first] + rest;
    KeyBehind(first, rest, key);
    if i == 0 {
      assert Without(fields, 0) == rest;
    } else {
      WithoutLater(first, rest, i - 1);
      KeyBehind(first, Without(rest, i - 1), key);
      if first.key != key {
        RemovalKeepsValue(rest, i - 1, key);
      }
    }
  }

  lemma WithoutLater(first: Field, rest: seq<Field>, i: nat)
    requires i < |rest|
    ensures Without([first] + rest, i + 1) == [first] + Without(rest, i)
  {
  }

  /** The fields before a round, and the counts they hold. */
  datatype Round = Round(fields: seq<Field>, retained: nat, omitted: nat)

  /** The round is followed by a removal: its counts do not fit the budget, and something may go. */
  predicate Removes(round: Round, original: nat, budget: int, names: Names) {
    var counted := Recounted(round.fields, original, names);
    Size(Object(counted)) > budget && LastRemovable(counted, names) != -1
  }

  /** What a round leaves. */
  function Left(round: Round, original: nat, budget: int, names: Names): seq<Field> {
    var counted := Recounted(round.fields, original, names);
    if Removes(round, original, budget, names) then Without(counted, LastRemovable(counted, names)) else counted
  }

  /** The bytes that the removal behind a round frees. */
  function Freed(round: Round, original: nat, budget: int, names: Names): int {
    Size(Object(Recounted(round.fields, original, names))) - Size(Object(Left(round, original, budget, names)))
  }

  /** The round that the counting ends with: the first without a removal, or the last one allowed. */
  function LastRound(round: Round, original: nat, budget: int, names: Names, rounds: nat): Round
    decreases rounds
  {
    if rounds <= 1 || !Removes(round, original, budget, names) then round
    else
      var size := Size(Object(round.fields));
      LastRound(Round(Left(round, original, budget, names), size, Missing(original, size)), original, budget, names, rounds - 1)
  }

  lemma LeftShows(round: Round, original: nat, budget: int, names: Names)
    requires names.retained != names.omitted && Shows(round.fields, round.retained, round.omitted, names)
    ensures var size := Size(Object(round.fields));
      Shows(Left(round, original, budget, names), size, Missing(original, size), names)
  {
    RoundShows(round.fields, original, names, round.retained, round.omitted);
    var counted := Recounted(round.fields, original, names);
    var last := LastRemovable(counted, names);
    if last >= 0 {
      RemovalKeepsValue(counted, last, names.retained);
      RemovalKeepsValue(counted, last, names.omitted);
    }
  }

  lemma {:induction false} CountedEndsWithLastRound(round: Round, original: nat, budget: int, names: Names, rounds: nat)
    requires rounds > 0 && names.retained != names.omitted && Shows(round.fields, round.retained, round.omitted, names)
    ensures var last := LastRound(round, original, budget, names, rounds);
      && Shows(last.fields, last.retained, last.omitted, names)
      && Counted(round.fields, original, budget, names, rounds) == Left(last, original, budget, names)
    decreases rounds
  {
    LeftShows(round, original, budget, names);
    CountedNext(round.fields, original, budget, names, rounds, Recounted(round.fields, original, names),
      LastRemovable(Recounted(round.fields, original, names), names));
    if rounds > 1 && Removes(round, original, budget, names) {
      var size := Size(Object(round.fields));
      CountedEndsWithLastRound(
        Round(Left(round, original, budget, names), size, Missing(original, size)), original, budget, names, rounds - 1);
    }
  }

  /** The names of the counts are no others. */
  ghost predicate NamesApart(setting: Setting, original: nat) {
    var names := setting.names;
    && names.retained != names.omitted && names.original != names.retained && names.original != names.omitted
    && !HasKey(setting.other(original), names.retained) && !HasKey(setting.other(original), names.omitted)
  }

  lemma {:induction false} ValueBehind(before: seq<Field>, rest: seq<Field>, key: String)
    requires !HasKey(before, key) && HasKey(rest, key)
    ensures HasKey(before + rest, key) && ValueOf(before + rest, key) == ValueOf(rest, key)
  {
    if before == [] {
      assert before + rest == rest;
    } else {
      assert before == [before[0]] + before[1..] && before + rest == [before[0]] + (before[1..] + rest);
      KeyBehind(before[0], before[1..], key);
      ValueBehind(before[1..], rest, key);
      KeyBehind(before[0], before[1..] + rest, key);
    }
  }

  lemma {:induction false} ValueInFront(front: seq<Field>, all: seq<Field>, key: String)
    requires front <= all && HasKey(front, key)
    ensures HasKey(all, key) && ValueOf(all, key) == ValueOf(front, key)
  {
    assert front == [front[0]] + front[1..] && all == [all[0]] + all[1..];
    KeyBehind(front[0], front[1..], key);
    KeyBehind(all[0], all[1..], key);
    if front[0].key != key {
      ValueInFront(front[1..], all[1..], key);
    }
  }

  /** Fresh diagnostics say that nothing is retained and everything is omitted. */
  lemma DiagnosticsShow(setting: Setting, original: nat)
    requires NamesApart(setting, original)
    ensures Shows(Diagnostics(setting, original, 0), 0, original, setting.names)
    ensures HasKey(Diagnostics(setting, original, 0), setting.names.original)
  {
    var names, other := setting.names, setting.other(original);
    var a, b := Field(names.original, Number(original)), Field(names.retained, Number(0));
    var c := Field(names.omitted, Number(original));
    KeyBehind(c, [], names.omitted);
    KeyBehind(b, [c], names.omitted);
    KeyBehind(b, [c], names.retained);
    KeyBehind(a, [b, c], names.omitted);
    KeyBehind(a, [b, c], names.retained);
    assert [c] == [c] + [] && [b, c] == [b] + [c] && [a, b, c] == [a] + [b, c];
    ValueBehind(other, [a, b, c], names.retained);
    ValueBehind(other, [a, b, c], names.omitted);
    assert Diagnostics(setting, original, 0) == other + [a, b, c];
    assert (other + [a, b, c])[|other|] == a;
  }

  /** The counting starts with the fresh diagnostics and the fields added to them. */
  function FirstRound(bounded: seq<Field>, original: nat, budget: int, setting: Setting): Round {
    Round(Added(Diagnostics(setting, original, 0), Ordered(bounded, setting.rank), budget), 0, original)
  }

  /** Which returned metadata state their own size: those whose new counts are together as wide as the ones the
      last round found, plus what a removal behind it freed. A first round that fits finds 0 and the original
      size, and is the last. */
  lemma ReturnedCountIsExactIff(bounded: seq<Field>, original: nat, budget: int, setting: Setting)
    requires NamesApart(setting, original)
    requires var first := FirstRound(bounded, original, budget, setting);
      Size(Object(Counted(first.fields, original, budget, setting.names, COUNT_ROUNDS))) <= budget
    ensures var names, first := setting.names, FirstRound(bounded, original, budget, setting);
      var last, fitted := LastRound(first, original, budget, names, COUNT_ROUNDS), FromBounded(bounded, original, budget, setting);
      var size := Size(Object(last.fields));
      && Shows(fitted, size, Missing(original, size), names)
      && (ValueOf(fitted, names.retained) == Number(Size(Object(fitted))) <==>
            Widths(size, Missing(original, size)) == Widths(last.retained, last.omitted) + Freed(last, original, budget, names))
      && (Size(Object(Recounted(first.fields, original, names))) <= budget ==> last == first)
  {
    var first := FirstRound(bounded, original, budget, setting);
    FirstRoundShows(bounded, original, budget, setting);
    CountIsExactIff(first, original, budget, setting.names);
  }

  lemma FirstRoundShows(bounded: seq<Field>, original: nat, budget: int, setting: Setting)
    requires NamesApart(setting, original)
    ensures Shows(FirstRound(bounded, original, budget, setting).fields, 0, original, setting.names)
  {
    var fields := FirstRound(bounded, original, budget, setting).fields;
    DiagnosticsShow(setting, original);
    ValueInFront(Diagnostics(setting, original, 0), fields, setting.names.retained);
    ValueInFront(Diagnostics(setting, original, 0), fields, setting.names.omitted);
  }

  lemma CountIsExactIff(first: Round, original: nat, budget: int, names: Names)
    requires names.retained != names.omitted && Shows(first.fields, first.retained, first.omitted, names)
    ensures var last := LastRound(first, original, budget, names, COUNT_ROUNDS);
      var result, size := Counted(first.fields, original, budget, names, COUNT_ROUNDS), Size(Object(last.fields));
      && Shows(result, size, Missing(original, size), names)
      && (ValueOf(result, names.retained) == Number(Size(Object(result))) <==>
            Widths(size, Missing(original, size)) == Widths(last.retained, last.omitted) + Freed(last, original, budget, names))
  {
    CountedEndsWithLastRound(first, original, budget, names, COUNT_ROUNDS);
    LeftIsExactIff(LastRound(first, original, budget, names, COUNT_ROUNDS), original, budget, names);
  }

  lemma LeftIsExactIff(last: Round, original: nat, budget: int, names: Names)
    requires names.retained != names.omitted && Shows(last.fields, last.retained, last.omitted, names)
    ensures var result, size := Left(last, original, budget, names), Size(Object(last.fields));
      && Shows(result, size, Missing(original, size), names)
      && (ValueOf(result, names.retained) == Number(Size(Object(result))) <==>
            Widths(size, Missing(original, size)) == Widths(last.retained, last.omitted) + Freed(last, original, budget, names))
  {
    LeftShows(last, original, budget, names);
    RoundShows(last.fields, original, names, last.retained, last.omitted);
    NumbersAreApart(Size(Object(last.fields)), Size(Object(Left(last, original, budget, names))));
  }

  lemma NumbersAreApart(m: nat, n: nat)
    ensures Number(m) == Number(n) ==> m == n
  {
    if Number(m) == Number(n) {
      var s, t := Decimal.Render(m), Decimal.Render(n);
      assert |s| == |Digits(m)| == |Digits(n)| == |t|;
      forall i | 0 <= i < |s| ensures s[i] == t[i] {
        assert Digits(m)[i] == s[i] as int && Digits(n)[i] == t[i] as int;
      }
      Decimal.RenderIsInjective(m, n);
    }
  }

  /** The compact diagnostics that fit one by one. */
  function KeepSmall(fields: seq<Field>, budget: int): seq<Field> {
    if fields == [] then []
    else (if Size(Object([fields[0]])) <= budget then [fields[0]] else []) + KeepSmall(fields[1..], budget)
  }

  /** What is made of metadata that do not fit the budget: the diagnostics, what fits of the bounded
      fields behind them, and the counts; the compact diagnostics if that is too large, or nothing. */
  ghost predicate IsFitted(source: seq<Field>, budget: int, setting: Setting, fitted: seq<Field>) {
    var original := Size(Object(source));
    if budget <= 0 then fitted == []
    else if original <= budget then fitted == source
    else exists bounded: seq<Field> ::
      && FitsAs(Object(source), AtLeastOne(budget - Reserve(budget)), 0, setting, Object(bounded))
      && fitted == FromBounded(bounded, original, budget, setting)
  }

  function Reserve(budget: int): int {
    if DIAGNOSTIC_RESERVE < budget / 3 then DIAGNOSTIC_RESERVE else budget / 3
  }

  function FromBounded(bounded: seq<Field>, original: nat, budget: int, setting: Setting): (fitted: seq<Field>)
    ensures Size(Object(fitted)) <= budget || fitted == []
  {
    var added := Added(Diagnostics(setting, original, 0), Ordered(bounded, setting.rank), budget);
    var counted := Counted(added, original, budget, setting.names, COUNT_ROUNDS);
    var small := KeepSmall(setting.compact(original), budget);
    if Size(Object(counted)) <= budget then counted
    else if Size(Object(small)) <= budget then small else []
  }

  /** Metadata that fit the budget are kept as they are; otherwise what is returned fits, or is empty. */
  method FitMetadata(source: seq<Field>, budget: int, setting: Setting) returns (fitted: seq<Field>, cut: bool)
    ensures IsFitted(source, budget, setting, fitted)
    ensures cut <==> budget <= 0 || Size(Object(source)) > budget
    ensures Size(Object(fitted)) <= budget || fitted == []
    ensures cut <==> budget <= 0 || |Serialize(Object(source))| > budget
    ensures |Serialize(Object(fitted))| <= budget || fitted == []
  {
    fitted, cut := FitBySize(source, budget, setting);
    SizeCountsBytes(Object(source));
    SizeCountsBytes(Object(fitted));
  }

  method FitBySize(source: seq<Field>, budget: int, setting: Setting) returns (fitted: seq<Field>, cut: bool)
    ensures IsFitted(source, budget, setting, fitted)
    ensures cut <==> budget <= 0 || Size(Object(source)) > budget
    ensures Size(Object(fitted)) <= budget || fitted == []
  {
    if budget <= 0 {
      return [], true;
    }
    var original := Size(Object(source));
    if original <= budget {
      return source, false;
    }
    var bounded := BoundSource(source, budget, setting);
    fitted := Describe(bounded, original, budget, setting);
    cut := true;
  }

  method BoundSource(source: seq<Field>, budget: int, setting: Setting) returns (bounded: seq<Field>)
    requires 0 < budget < Size(Object(source))
    ensures FitsAs(Object(source), AtLeastOne(budget - Reserve(budget)), 0, setting, Object(bounded))
  {
    var candidate := BoundMetadataValue(Object(source), AtLeastOne(budget - Reserve(budget)), 0, setting);
    bounded := candidate.fields;
  }

  /** The bounded fields with their diagnostics. */
  method Describe(bounded: seq<Field>, original: nat, budget: int, setting: Setting) returns (fitted: seq<Field>)
    ensures fitted == FromBounded(bounded, original, budget, setting)
  {
    fitted := AddWhatFits(Diagnostics(setting, original, 0), Ordered(bounded, setting.rank), budget);
    fitted := CountRetained(fitted, original, budget, setting);
    if Size(Object(fitted)) > budget {
      fitted := KeepSmall(setting.compact(original), budget);
      if Size(Object(fitted)) > budget {
        fitted := [];
      }
    }
  }

  // ---------------------------------------------------------------- metadata whose count is wrong

  /** So many times the letter x. */
  function Repeated(n: nat): String { if n == 0 then [] else [120] + Repeated(n - 1) }

  lemma {:induction false} RepeatedSize(n: nat)
    ensures TextSize(Repeated(n)) == n + 2
  {
    if n > 0 {
      RepeatedSize(n - 1);
      EncodeCons(120, Repeated(n - 1));
      EscapedConcat([120], Encode(Repeated(n - 1)));
      assert [120][1..] == [];
    }
  }

  /** Metadata that already hold a long text under the name of the original size. */
  function LongSource(names: Names, length: nat): seq<Field> { [Field(names.original, Text(Repeated(length)))] }

  lemma LongSourceSize(names: Names, length: nat)
    ensures Size(Object(LongSource(names, length))) == TextSize(names.original) + length + 6
  {
    var field := Field(names.original, Text(Repeated(length)));
    RepeatedSize(length);
    FieldsCons(field, []);
    assert LongSource(names, length) == [field] + [];
  }

  lemma OrderedOne(field: Field, rank: String -> nat)
    ensures Ordered([field], rank) == [field] && Ordered([], rank) == []
  {
    assert [field][..0] == [];
  }

  /** Whatever is kept of these metadata has that name. */
  lemma LongSourceKept(setting: Setting, length: nat, budget: int, bounded: seq<Field>)
    requires TextSize(setting.names.original) <= 100 && 0 < budget < length
    requires FitsAs(Object(LongSource(setting.names, length)), budget, 0, setting, Object(bounded))
    ensures bounded == [] || (|bounded| == 1 && bounded[0].key == setting.names.original)
  {
    LongSourceSize(setting.names, length);
    var named: seq<Field> :| Renamed(LongSource(setting.names, length), named)
      && FieldsFit(Ordered(named, setting.rank), budget, 0, setting, bounded);
    assert named == [named[0]] && named[0].key == setting.names.original;
    OrderedOne(named[0], setting.rank);
    OneFieldKept(named[0], budget, setting, bounded);
  }

  lemma OneFieldKept(field: Field, budget: int, setting: Setting, kept: seq<Field>)
    requires FieldsFit([field], budget, 0, setting, kept)
    ensures kept == [] || (|kept| == 1 && kept[0].key == field.key)
  {
    assert [field][..0] == [];
  }

  lemma {:induction false} FieldsAreNotSmall(fields: seq<Field>)
    ensures FieldsSize(fields) >= 4 * |fields|
  {
    if fields != [] {
      FieldsAreNotSmall(fields[1..]);
    }
  }

  lemma OwnNameIsSkipped(present: seq<Field>, bounded: seq<Field>, budget: int)
    requires bounded == [] || (|bounded| == 1 && HasKey(present, bounded[0].key))
    ensures Added(present, bounded, budget) == present
  {
    if bounded != [] {
      assert bounded[..0] == [];
      assert Added(present, bounded[..0], budget) == present;
    }
  }

  lemma FourDigits(n: nat)
    ensures 1000 <= n < 10000 ==> Decimal.Width(n) == 4
    ensures n >= 10 ==> Decimal.Width(n) >= 2
    ensures n < 10000 ==> Decimal.Width(n) <= 4
  {
    Decimal.WidthIsPowerBracket(n, 1);
    Decimal.WidthIsPowerBracket(n, 3);
    Decimal.WidthIsPowerBracket(n, 4);
    assert Decimal.Pow10(4) == 10000 && Decimal.Pow10(3) == 1000 && Decimal.Pow10(1) == 10;
  }

  /** Under a budget of 2000 bytes what is returned for them does not state its own size. */
  lemma CountCanBeWrong(setting: Setting, length: nat, fitted: seq<Field>)
    requires length == 6000 && TextSize(setting.names.original) <= 100
    requires NamesApart(setting, Size(Object(LongSource(setting.names, length))))
    requires Size(Object(Diagnostics(setting, Size(Object(LongSource(setting.names, length))), 0))) <= 1000
    requires IsFitted(LongSource(setting.names, length), 2000, setting, fitted)
    ensures HasKey(fitted, setting.names.retained)
    ensures ValueOf(fitted, setting.names.retained) != Number(Size(Object(fitted)))
  {
    var source := LongSource(setting.names, length);
    var original := Size(Object(source));
    LongSourceSize(setting.names, length);
    var bounded: seq<Field> :|
      && FitsAs(Object(source), AtLeastOne(2000 - Reserve(2000)), 0, setting, Object(bounded))
      && fitted == FromBounded(bounded, original, 2000, setting);
    LongSourceKept(setting, length, AtLeastOne(2000 - Reserve(2000)), bounded);
    DiagnosticsAlone(bounded, original, setting);
    FreshCountIsWrong(bounded, original, 2000, setting);
  }

  lemma DiagnosticsAlone(bounded: seq<Field>, original: nat, setting: Setting)
    requires NamesApart(setting, original) && Size(Object(Diagnostics(setting, original, 0))) <= 1000 && 6000 <= original < 7000
    requires bounded == [] || (|bounded| == 1 && bounded[0].key == setting.names.original)
    ensures var fields := FirstRound(bounded, original, 2000, setting).fields;
      var size := Size(Object(fields));
      && size >= 10 && Decimal.Width(Missing(original, size)) >= Decimal.Width(original)
      && Size(Object(Recounted(fields, original, setting.names))) <= 2000
  {
    var present := Diagnostics(setting, original, 0);
    DiagnosticsShow(setting, original);
    if bounded != [] {
      OrderedOne(bounded[0], setting.rank);
      assert bounded == [bounded[0]];
    }
    OwnNameIsSkipped(present, bounded, 2000);
    FieldsAreNotSmall(present);
    var size := Size(Object(present));
    FourDigits(size);
    FourDigits(original);
    FourDigits(Missing(original, size));
    RoundShows(present, original, setting.names, 0, original);
  }

  /** A first round that fits states a wrong size whenever the size has two digits and the omitted count stays
      as wide as the original size. */
  lemma FreshCountIsWrong(bounded: seq<Field>, original: nat, budget: int, setting: Setting)
    requires NamesApart(setting, original)
    requires var fields := FirstRound(bounded, original, budget, setting).fields;
      var size := Size(Object(fields));
      && size >= 10 && Decimal.Width(Missing(original, size)) >= Decimal.Width(original)
      && Size(Object(Recounted(fields, original, setting.names))) <= budget
    ensures var fitted := FromBounded(bounded, original, budget, setting);
      HasKey(fitted, setting.names.retained) && ValueOf(fitted, setting.names.retained) != Number(Size(Object(fitted)))
  {
    var first := FirstRound(bounded, original, budget, setting);
    FirstRoundShows(bounded, original, budget, setting);
    CountedNext(first.fields, original, budget, setting.names, COUNT_ROUNDS, Recounted(first.fields, original, setting.names),
      LastRemovable(Recounted(first.fields, original, setting.names), setting.names));
    ReturnedCountIsExactIff(bounded, original, budget, setting);
    FourDigits(Size(Object(first.fields)));
  }

  // ---------------------------------------------------------------- the whole result

  function ErrorField(error: Option<String>): Json {
    if error.None? then Literal([110, 117, 108, 108]) else Text(error.value)
  }

  /** The body a provider is sent. */
  function Body(content: String, metadata: seq<Field>, error: Option<String>, names: Names): Json {
    Object([Field(names.content, Text(content)), Field(names.errorCode, ErrorField(error)),
            Field(names.metadata, Object(metadata)),
            Field(names.ok, Literal(if error.None? then [116, 114, 117, 101] else [102, 97, 108, 115, 101]))])
  }

  function BodySize(content: String, metadata: seq<Field>, error: Option<String>, names: Names): nat {
    Size(Body(content, metadata, error, names))
  }

  /** The body byte by byte: the keys in order, null or the code of the error, true exactly without one. */
  function BodyText(content: String, metadata: seq<Field>, error: Option<String>, names: Names): seq<Byte> {
    [0x7B] + (Written(names.content, Quoted(content)) + [0x2C, 0x20]
    + (Written(names.errorCode, if error.None? then [0x6E, 0x75, 0x6C, 0x6C] else Quoted(error.value)) + [0x2C, 0x20]
    + (Written(names.metadata, Serialize(Object(metadata))) + [0x2C, 0x20]
    + Written(names.ok, if error.None? then [0x74, 0x72, 0x75, 0x65] else [0x66, 0x61, 0x6C, 0x73, 0x65])))) + [0x7D]
  }

  function Written(key: String, value: seq<Byte>): seq<Byte> { Quoted(key) + [0x3A, 0x20] + value }

  /** The size that is checked is the number of bytes sent. */
  lemma BodySizeCountsBytes(content: String, metadata: seq<Field>, error: Option<String>, names: Names)
    ensures |BodyText(content, metadata, error, names)| == BodySize(content, metadata, error, names)
  {
    BodySizeIsSum(content, metadata, error, names);
    QuotedSize(names.content);
    QuotedSize(names.errorCode);
    QuotedSize(names.metadata);
    QuotedSize(names.ok);
    QuotedSize(content);
    SizeCountsBytes(Object(metadata));
    if error.Some? {
      QuotedSize(error.value);
    }
  }

  function Overhead(error: Option<String>, names: Names): nat {
    TextSize(names.content) + TextSize(names.errorCode) + TextSize(names.metadata) + TextSize(names.ok)
    + Size(ErrorField(error)) + (if error.None? then 4 else 5) + 16
  }

  lemma BodySizeIsSum(content: String, metadata: seq<Field>, error: Option<String>, names: Names)
    ensures BodySize(content, metadata, error, names) == Overhead(error, names) + TextSize(content) + Size(Object(metadata))
  {
    var a, b := Field(names.content, Text(content)), Field(names.errorCode, ErrorField(error));
    var c := Field(names.metadata, Object(metadata));
    var d := Field(names.ok, Literal(if error.None? then [116, 114, 117, 101] else [102, 97, 108, 115, 101]));
    FieldsCons(d, []);
    FieldsCons(c, [d]);
    FieldsCons(b, [c, d]);
    FieldsCons(a, [b, c, d]);
    assert Body(content, metadata, error, names).fields == [a] + [b, c, d];
    assert [b, c, d] == [b] + [c, d] && [c, d] == [c] + [d] && [d] == [d] + [];
  }

  lemma FieldsCons(field: Field, rest: seq<Field>)
    ensures FieldsSize([field] + rest)
         == TextSize(field.key) + 2 + Size(field.value) + (if rest == [] then 0 else 2) + FieldsSize(rest)
  {
    assert ([field] + rest)[1..] == rest;
  }

  /** The least content a truncation leaves: the text itself if it is one byte or none, otherwise the line
      feed that opens the marker. */
  function Smallest(content: String): String {
    if |Encode(content)| <= 1 then content else [10]
  }

  lemma LineFeed()
    ensures Encode([10]) == [10] && EscapedSize([10]) == 2
  {
    assert [10][1..] == [];
  }

  lemma EscapedAtLeastLineFeed(before: seq<Byte>, after: seq<Byte>)
    ensures EscapedSize(before + [10] + after) >= 2
  {
    EscapedConcat(before + [10], after);
    EscapedConcat(before, [10]);
    assert [10][1..] == [];
  }

  lemma MarkerOpensWithLineFeed(original: nat, omitted: nat)
    ensures |Marker(OfResult, original, omitted)| >= 1 && Marker(OfResult, original, omitted)[0] == 10
  {
  }

  lemma ClippedHasLineFeed(marker: seq<Byte>, limit: nat)
    requires 1 <= limit <= |marker| && marker[0] == 10
    ensures EscapedSize(marker[..limit]) >= 2
  {
    assert marker[..limit] == [] + [10] + marker[1..limit];
    EscapedAtLeastLineFeed([], marker[1..limit]);
  }

  lemma AroundLineFeed(head: seq<Byte>, marker: seq<Byte>, tail: seq<Byte>)
    requires marker != [] && marker[0] == 10
    ensures EscapedSize(head + marker + tail) >= 2
  {
    assert head + marker + tail == head + [10] + (marker[1..] + tail);
    EscapedAtLeastLineFeed(head, marker[1..] + tail);
  }

  lemma CutHasLineFeed(bytes: seq<Byte>, limit: nat, omitted: nat, result: seq<Byte>, info: Truncation)
    requires limit >= 1 && IsCut(OfResult, bytes, limit, omitted, result, info)
    ensures EscapedSize(result) >= 2
  {
    MarkerOpensWithLineFeed(|bytes|, |bytes|);
    MarkerOpensWithLineFeed(|bytes|, omitted);
    if MarkerLength(Fixed(OfResult), |bytes|, |bytes|) >= limit {
      ClippedHasLineFeed(Marker(OfResult, |bytes|, |bytes|), limit);
    } else {
      var marker := Marker(OfResult, |bytes|, omitted);
      var head: nat, tail: nat :| head + tail + omitted == |bytes| && IsHeadMarkerTail(bytes, limit, result, marker, head, tail);
      AroundLineFeed(bytes[..head], marker, bytes[|bytes| - tail..]);
    }
  }

  lemma EncodeIsInjective(a: String, b: String)
    requires Encode(a) == Encode(b)
    ensures a == b
  {
    EncodeThenDecode(a);
    EncodeThenDecode(b);
  }

  lemma NothingIsSmaller(content: String, limit: nat, bounded: String, info: Truncation)
    requires limit >= 1 && IsBounded(OfResult, Encode(content), limit, Encode(bounded), info)
    ensures |Encode(content)| <= limit ==> bounded == content
    ensures TextSize(bounded) >= TextSize(Smallest(content))
  {
    LineFeed();
    if |Encode(content)| <= limit {
      EncodeIsInjective(bounded, content);
    } else {
      CutHasLineFeed(Encode(content), limit, SettledCount(OfResult, Encode(content), limit), Encode(bounded), info);
    }
  }

  lemma OneByteIsSmallest(content: String, bounded: String, info: Truncation)
    requires IsBounded(OfResult, Encode(content), 1, Encode(bounded), info)
    ensures bounded == Smallest(content)
  {
    LineFeed();
    if |Encode(content)| > 1 {
      MarkerOpensWithLineFeed(|Encode(content)|, |Encode(content)|);
      assert Marker(OfResult, |Encode(content)|, |Encode(content)|)[..1] == [10];
    }
    EncodeIsInjective(bounded, Smallest(content));
  }

  // ---------------------------------------------------------------- bounding the result

  /** What a caller may rely on: a body that fits is unchanged; otherwise the reduced body fits whenever
      the least content fits with empty metadata, and that is exactly when any reduction can. */
  ghost predicate IsReduced(content: String, metadata: seq<Field>, error: Option<String>, maxBytes: nat, names: Names,
      bounded: String, fitted: seq<Field>) {
    if BodySize(content, metadata, error, names) <= maxBytes then bounded == content && fitted == metadata
    else
      && (BodySize(bounded, fitted, error, names) <= maxBytes <==> BodySize(Smallest(content), [], error, names) <= maxBytes)
      && (BodySize(bounded, fitted, error, names) > maxBytes ==> bounded == Smallest(content) && fitted == [])
      && exists limit: nat, info: Truncation :: limit >= 1 && IsBounded(OfResult, Encode(content), limit, Encode(bounded), info)
  }

  /** What one content budget leads to. */
  datatype Try = Try(budget: nat, bounded: String, fitted: seq<Field>)

  /** The content bounded to the budget, and the metadata, with what is said about the content, fitted
      into what this leaves. */
  ghost predicate IsTry(content: String, metadata: seq<Field>, error: Option<String>, maxBytes: nat, setting: Setting, t: Try) {
    t.budget >= 1 && exists info ::
      && IsBounded(OfResult, Encode(content), t.budget, Encode(t.bounded), info)
      && IsFitted(Update(metadata, setting.diagnose(info)), MetadataBudget(t.bounded, error, maxBytes, setting.names), setting, t.fitted)
  }

  function MetadataBudget(bounded: String, error: Option<String>, maxBytes: nat, names: Names): nat {
    var remaining := maxBytes - BodySize(bounded, [], error, names);
    if remaining > DIAGNOSTIC_RESERVE then remaining - DIAGNOSTIC_RESERVE else 0
  }

  /** One attempt with a content budget. It succeeds exactly when the bounded content alone fits. */
  method Attempt(content: String, metadata: seq<Field>, error: Option<String>, maxBytes: nat, budget: nat, setting: Setting)
    returns (bounded: String, fitted: seq<Field>, size: nat, ghost info: Truncation)
    requires budget >= 1
    ensures IsTry(content, metadata, error, maxBytes, setting, Try(budget, bounded, fitted))
    ensures IsBounded(OfResult, Encode(content), budget, Encode(bounded), info)
    ensures size == BodySize(bounded, fitted, error, setting.names)
    ensures size <= maxBytes <==> BodySize(bounded, [], error, setting.names) <= maxBytes
  {
    var counts;
    bounded, counts := BoundContent(content, budget);
    info := counts;
    var names := setting.names;
    var source := Update(metadata, setting.diagnose(counts));
    var cut;
    fitted, cut := FitMetadata(source, MetadataBudget(bounded, error, maxBytes, names), setting);
    size := BodySize(bounded, fitted, error, names);
    BodySizeIsSum(bounded, fitted, error, names);
    BodySizeIsSum(bounded, [], error, names);
    EmptyIsLeast(fitted);
  }

  method BoundContent(content: String, budget: nat) returns (bounded: String, info: Truncation)
    requires budget >= 1
    ensures IsBounded(OfResult, Encode(content), budget, Encode(bounded), info)
  {
    var bytes;
    bytes, info := BoundText(OfResult, content, budget);
    DecodedBounding(content, budget, bytes, info);
    bounded := Decode(bytes);
    DecodeThenEncode(bytes);
  }

  lemma DecodedBounding(content: String, budget: nat, bytes: seq<Byte>, info: Truncation)
    requires budget >= 1 && IsBounded(OfResult, Encode(content), budget, bytes, info)
    ensures Decodes(bytes)
  {
    EncodingDecodes(content);
  }

  lemma EmptyIsLeast(fields: seq<Field>)
    ensures Size(Object(fields)) >= Size(Object([])) == 2
  {
  }

  const ROUNDS := 12

  /** Where the search for a content budget stands: in its rounds, or counting down to zero. */
  datatype Position = Shrinking(budget: nat, round: nat) | CountingDown(budget: nat)

  function Least(a: nat, b: nat): nat { if a < b then a else b }

  /** A round that failed by `excess` shrinks the budget; the last round, or one that shrinks nothing, is
      followed by every smaller budget. */
  function Moved(position: Position, excess: nat, maxBytes: nat, salient: bool): Position
    requires position.budget >= 1
  {
    match position
    case CountingDown(budget) => CountingDown(budget - 1)
    case Shrinking(budget, round) =>
      var next := NextBudget(budget, excess, salient);
      if next == budget || round + 1 >= ROUNDS then CountingDown(Least(next, maxBytes)) else Shrinking(next, round + 1)
  }

  /** The attempt's body is too large by `excess`. */
  ghost predicate FailsBy(content: String, metadata: seq<Field>, error: Option<String>, maxBytes: nat, setting: Setting, t: Try, excess: nat) {
    && IsTry(content, metadata, error, maxBytes, setting, t)
    && excess > 0 && BodySize(t.bounded, t.fitted, error, setting.names) == maxBytes + excess
  }

  /** The attempts that failed, one after the other, and where the search goes on behind them. */
  ghost predicate Searched(content: String, metadata: seq<Field>, error: Option<String>, maxBytes: nat, salient: bool,
      setting: Setting, failed: seq<Try>, position: Position)
    decreases |failed|
  {
    if failed == [] then position == Shrinking(FirstBudget(maxBytes, BodySize([], [], error, setting.names)), 0)
    else
      var last := failed[|failed| - 1];
      exists before: Position, excess: nat ::
        && Searched(content, metadata, error, maxBytes, salient, setting, failed[..|failed| - 1], before)
        && FailsBy(content, metadata, error, maxBytes, setting, last, excess)
        && before.budget == last.budget >= 1 && position == Moved(before, excess, maxBytes, salient)
  }

  /** The first attempt of the search whose body fits; the least content when the search runs out. */
  ghost predicate IsFirstFit(content: String, metadata: seq<Field>, error: Option<String>, maxBytes: nat, salient: bool,
      setting: Setting, bounded: String, fitted: seq<Field>)
  {
    exists failed: seq<Try>, position: Position ::
      && Searched(content, metadata, error, maxBytes, salient, setting, failed, position)
      && if position.budget == 0 then bounded == Smallest(content) && fitted == []
         else
           && IsTry(content, metadata, error, maxBytes, setting, Try(position.budget, bounded, fitted))
           && BodySize(bounded, fitted, error, setting.names) <= maxBytes
  }

  lemma OneMoreFailed(content: String, metadata: seq<Field>, error: Option<String>, maxBytes: nat, salient: bool,
      setting: Setting, failed: seq<Try>, position: Position, t: Try, excess: nat)
    requires Searched(content, metadata, error, maxBytes, salient, setting, failed, position)
    requires FailsBy(content, metadata, error, maxBytes, setting, t, excess) && t.budget == position.budget >= 1
    ensures Searched(content, metadata, error, maxBytes, salient, setting, failed + [t], Moved(position, excess, maxBytes, salient))
  {
    var all := failed + [t];
    assert all[..|all| - 1] == failed && all[|all| - 1] == t;
  }

  /** A body that fits is returned as it is; otherwise the search decides. Its last resort is reached only
      when not even the least content fits. */
  method BoundResultValues(content: String, metadata: seq<Field>, error: Option<String>, maxBytes: nat, salient: bool,
      setting: Setting)
    returns (bounded: String, fitted: seq<Field>)
    requires maxBytes >= 1
    ensures IsReduced(content, metadata, error, maxBytes, setting.names, bounded, fitted)
    ensures BodySize(content, metadata, error, setting.names) > maxBytes ==>
      IsFirstFit(content, metadata, error, maxBytes, salient, setting, bounded, fitted)
    ensures |BodyText(content, metadata, error, setting.names)| <= maxBytes ==> bounded == content && fitted == metadata
    ensures |BodyText(content, metadata, error, setting.names)| > maxBytes ==>
      (|BodyText(bounded, fitted, error, setting.names)| <= maxBytes <==>
       |BodyText(Smallest(content), [], error, setting.names)| <= maxBytes)
  {
    bounded, fitted := BoundResult(content, metadata, error, maxBytes, salient, setting);
    BodySizeCountsBytes(content, metadata, error, setting.names);
    BodySizeCountsBytes(bounded, fitted, error, setting.names);
    BodySizeCountsBytes(Smallest(content), [], error, setting.names);
  }

  method BoundResult(content: String, metadata: seq<Field>, error: Option<String>, maxBytes: nat, salient: bool,
      setting: Setting)
    returns (bounded: String, fitted: seq<Field>)
    requires maxBytes >= 1
    ensures IsReduced(content, metadata, error, maxBytes, setting.names, bounded, fitted)
    ensures BodySize(content, metadata, error, setting.names) > maxBytes ==>
      IsFirstFit(content, metadata, error, maxBytes, salient, setting, bounded, fitted)
  {
    if BodySize(content, metadata, error, setting.names) <= maxBytes {
      return content, metadata;
    }
    var budget, found;
    ghost var failed;
    bounded, fitted, budget, found, failed := Shrink(content, metadata, error, maxBytes, salient, setting);
    if !found {
      bounded, fitted := CountDown(content, metadata, error, maxBytes, salient, setting, budget, failed);
    }
  }

  /** The next attempt of the search: its result if it fits, its size if not. */
  method TryBudget(content: String, metadata: seq<Field>, error: Option<String>, maxBytes: nat, salient: bool, setting: Setting,
      budget: nat, ghost position: Position, ghost failed: seq<Try>)
    returns (bounded: String, fitted: seq<Field>, size: nat, ghost failedNow: seq<Try>)
    requires budget == position.budget >= 1 && BodySize(content, metadata, error, setting.names) > maxBytes
    requires Searched(content, metadata, error, maxBytes, salient, setting, failed, position)
    ensures size <= maxBytes ==>
      IsFirstFit(content, metadata, error, maxBytes, salient, setting, bounded, fitted)
      && IsReduced(content, metadata, error, maxBytes, setting.names, bounded, fitted)
    ensures size > maxBytes ==>
      Searched(content, metadata, error, maxBytes, salient, setting, failedNow, Moved(position, size - maxBytes, maxBytes, salient))
    ensures size > maxBytes && budget == 1 ==> BodySize(Smallest(content), [], error, setting.names) > maxBytes
  {
    ghost var info;
    bounded, fitted, size, info := Attempt(content, metadata, error, maxBytes, budget, setting);
    AttemptDecides(content, error, maxBytes, budget, setting.names, bounded, info);
    failedNow := failed + [Try(budget, bounded, fitted)];
    if size > maxBytes {
      OneMoreFailed(content, metadata, error, maxBytes, salient, setting, failed, position, Try(budget, bounded, fitted), size - maxBytes);
    }
  }

  /** The rounds of the search. */
  method Shrink(content: String, metadata: seq<Field>, error: Option<String>, maxBytes: nat, salient: bool, setting: Setting)
    returns (bounded: String, fitted: seq<Field>, budget: nat, found: bool, ghost failed: seq<Try>)
    requires maxBytes >= 1 && BodySize(content, metadata, error, setting.names) > maxBytes
    ensures found ==> IsFirstFit(content, metadata, error, maxBytes, salient, setting, bounded, fitted)
    ensures found ==> IsReduced(content, metadata, error, maxBytes, setting.names, bounded, fitted)
    ensures !found ==> Searched(content, metadata, error, maxBytes, salient, setting, failed, CountingDown(budget)) && budget >= 1
  {
    budget := FirstBudget(maxBytes, BodySize([], [], error, setting.names));
    bounded, fitted, budget, found, failed := ShrinkFrom(content, metadata, error, maxBytes, salient, setting, budget);
  }

  lemma RoundMoves(budget: nat, round: nat, excess: nat, maxBytes: nat, salient: bool)
    requires budget >= 1
    ensures var next := NextBudget(budget, excess, salient);
      Moved(Shrinking(budget, round), excess, maxBytes, salient)
      == if next == budget || round + 1 >= ROUNDS then CountingDown(Least(next, maxBytes)) else Shrinking(next, round + 1)
  {
  }

  method ShrinkFrom(content: String, metadata: seq<Field>, error: Option<String>, maxBytes: nat, salient: bool, setting: Setting, first: nat)
    returns (bounded: String, fitted: seq<Field>, budget: nat, found: bool, ghost failed: seq<Try>)
    requires maxBytes >= 1 && BodySize(content, metadata, error, setting.names) > maxBytes && first >= 1
    requires Searched(content, metadata, error, maxBytes, salient, setting, [], Shrinking(first, 0))
    ensures found ==> IsFirstFit(content, metadata, error, maxBytes, salient, setting, bounded, fitted)
    ensures found ==> IsReduced(content, metadata, error, maxBytes, setting.names, bounded, fitted)
    ensures !found ==> Searched(content, metadata, error, maxBytes, salient, setting, failed, CountingDown(budget)) && budget >= 1
  {
    failed := [];
    budget := first;
    var round := 0;
    while true
      invariant round < ROUNDS && budget >= 1
      invariant Searched(content, metadata, error, maxBytes, salient, setting, failed, Shrinking(budget, round))
      decreases ROUNDS - round
    {
      var more;
      bounded, fitted, budget, found, more, failed :=
        ShrinkOnce(content, metadata, error, maxBytes, salient, setting, budget, round, failed);
      if !more {
        return;
      }
      round := round + 1;
    }
  }

  /** One round of the search: a fit, a smaller budget for the next round, or where to count down from. */
  method ShrinkOnce(content: String, metadata: seq<Field>, error: Option<String>, maxBytes: nat, salient: bool, setting: Setting,
      budget: nat, round: nat, ghost failed: seq<Try>)
    returns (bounded: String, fitted: seq<Field>, next: nat, found: bool, more: bool, ghost failedNow: seq<Try>)
    requires maxBytes >= 1 && BodySize(content, metadata, error, setting.names) > maxBytes && budget >= 1
    requires Searched(content, metadata, error, maxBytes, salient, setting, failed, Shrinking(budget, round))
    ensures found ==> !more && IsFirstFit(content, metadata, error, maxBytes, salient, setting, bounded, fitted)
    ensures found ==> IsReduced(content, metadata, error, maxBytes, setting.names, bounded, fitted)
    ensures !found ==> next >= 1 && Searched(content, metadata, error, maxBytes, salient, setting, failedNow,
      if more then Shrinking(next, round + 1) else CountingDown(next))
    ensures more ==> round + 1 < ROUNDS
  {
    var size: nat;
    bounded, fitted, size, failedNow :=
      TryBudget(content, metadata, error, maxBytes, salient, setting, budget, Shrinking(budget, round), failed);
    next, found, more := budget, size <= maxBytes, false;
    if !found {
      next := NextBudget(budget, size - maxBytes, salient);
      RoundMoves(budget, round, size - maxBytes, maxBytes, salient);
      more := next != budget && round + 1 < ROUNDS;
      next := if more then next else Least(next, maxBytes);
    }
  }

  /** Every smaller budget down to one byte. */
  method CountDown(content: String, metadata: seq<Field>, error: Option<String>, maxBytes: nat, salient: bool, setting: Setting,
      start: nat, ghost failedBefore: seq<Try>)
    returns (bounded: String, fitted: seq<Field>)
    requires start >= 1 && BodySize(content, metadata, error, setting.names) > maxBytes
    requires Searched(content, metadata, error, maxBytes, salient, setting, failedBefore, CountingDown(start))
    ensures IsFirstFit(content, metadata, error, maxBytes, salient, setting, bounded, fitted)
    ensures IsReduced(content, metadata, error, maxBytes, setting.names, bounded, fitted)
  {
    ghost var failed := failedBefore;
    var budget := start;
    while budget > 0
      invariant Searched(content, metadata, error, maxBytes, salient, setting, failed, CountingDown(budget))
      invariant budget == 0 ==> BodySize(Smallest(content), [], error, setting.names) > maxBytes
    {
      var size: nat;
      bounded, fitted, size, failed :=
        TryBudget(content, metadata, error, maxBytes, salient, setting, budget, CountingDown(budget), failed);
      if size <= maxBytes {
        return;
      }
      budget := budget - 1;
    }
    ghost var info;
    bounded, info := LeastContent(content);
    fitted := [];
  }

  function FirstBudget(maxBytes: nat, empty: nat): (budget: nat)
    ensures budget >= 1
  {
    if maxBytes > empty + DIAGNOSTIC_RESERVE + 1 then maxBytes - empty - DIAGNOSTIC_RESERVE else 1
  }

  function NextBudget(budget: nat, excess: nat, salient: bool): (next: nat)
    requires budget >= 1
    ensures 1 <= next <= budget
  {
    var drop := excess + if salient then SEMANTIC_RESERVE else 0;
    var step := if drop > 1 then drop else 1;
    if budget > step + 1 then budget - step else 1
  }

  /** What one attempt shows about the least content. */
  lemma AttemptDecides(content: String, error: Option<String>, maxBytes: nat, budget: nat, names: Names, bounded: String, info: Truncation)
    requires budget >= 1 && IsBounded(OfResult, Encode(content), budget, Encode(bounded), info)
    ensures BodySize(bounded, [], error, names) <= maxBytes ==> BodySize(Smallest(content), [], error, names) <= maxBytes
    ensures budget == 1 ==> bounded == Smallest(content)
  {
    NothingIsSmaller(content, budget, bounded, info);
    BodySizeIsSum(bounded, [], error, names);
    BodySizeIsSum(Smallest(content), [], error, names);
    if budget == 1 {
      OneByteIsSmallest(content, bounded, info);
    }
  }

  method LeastContent(content: String) returns (bounded: String, ghost info: Truncation)
    ensures bounded == Smallest(content) && IsBounded(OfResult, Encode(content), 1, Encode(bounded), info)
  {
    var counts;
    bounded, counts := BoundContent(content, 1);
    info := counts;
    OneByteIsSmallest(content, bounded, info);
  }

  /** Reducing a reduced result again changes nothing, whether or not it fits. */
  lemma ReducingIsIdempotent(content: String, metadata: seq<Field>, error: Option<String>, maxBytes: nat, names: Names,
      bounded: String, fitted: seq<Field>, twice: String, refitted: seq<Field>)
    requires IsReduced(content, metadata, error, maxBytes, names, bounded, fitted)
    requires IsReduced(bounded, fitted, error, maxBytes, names, twice, refitted)
    ensures twice == bounded && refitted == fitted
  {
    LineFeed();
    if BodySize(bounded, fitted, error, names) > maxBytes {
      assert Smallest(Smallest(content)) == Smallest(content);
    }
  }
}
