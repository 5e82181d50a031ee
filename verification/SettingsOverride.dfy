/** The settings override of one Turn and its stored form, in which an unset field is left out and an
    explicit null is written (agent/runtime/settings.py, agent/runtime/thread_store.py). */
module SettingsOverride {
  import opened Common
  import opened Transcript

  /** A field that inherits from the Thread, or a value of its own. */
  datatype Field<T> = Unset | Set(value: T)

  datatype KeepMode = KeepNone | KeepAll
  datatype ApprovalMode = Untrusted | OnRequest | Never

  datatype Thinking = Thinking(enabled: bool, budgetTokens: Option<int>, keep: Option<KeepMode>, intensity: Option<string>)
  {
    /** What the constructor of the settings accepts. */
    predicate Valid() {
      && (budgetTokens.Some? ==> budgetTokens.value > 0)
      && (intensity.Some? ==> !Blank(intensity.value))
      && (!enabled ==> budgetTokens.None? && keep.None? && intensity.None?)
    }
  }

  datatype AgentLimits = AgentLimits(maxIterations: int, maxToolCalls: int, maxSeconds: real)
  {
    predicate Valid() {
      1 <= maxIterations <= 100 && 1 <= maxToolCalls <= 500 && 0.0 < maxSeconds <= 3600.0
    }
  }

  predicate Blank(text: string) { forall i :: 0 <= i < |text| ==> text[i] == ' ' || text[i] == '\t' || text[i] == '\n' }

  datatype Override = Override(
    provider: Field<string>, model: Field<string>, temperature: Field<Option<real>>, maxTokens: Field<Option<int>>,
    thinking: Field<Option<Thinking>>, limits: Field<AgentLimits>, approvalMode: Field<ApprovalMode>)
  {
    predicate Valid() {
      && (thinking.Set? && thinking.value.Some? ==> thinking.value.value.Valid())
      && (limits.Set? ==> limits.value.Valid())
    }
  }

  // ---------------------------------------------------------------- the stored form

  datatype Name =
    | PROVIDER_CONFIG_ID | MODEL | TEMPERATURE | MAX_TOKENS | THINKING | LIMITS | APPROVAL_MODE
    | ENABLED | BUDGET_TOKENS | KEEP | INTENSITY
    | MAX_ITERATIONS | MAX_TOOL_CALLS | MAX_EXECUTION_SECONDS
    | Unknown(name: string)

  datatype Json =
    | Null | Bool(truth: bool) | Int(number: int) | Real(decimal: real) | Text(text: string)
    | KeepText(keep: KeepMode) | ModeText(mode: ApprovalMode)
    | Dict(fields: map<Name, Json>)

  function Nullable<T>(value: Option<T>, encode: T -> Json): Json {
    if value.None? then Null else encode(value.value)
  }

  function EncodeThinking(thinking: Thinking): Json {
    var fields := map[
      ENABLED := Bool(thinking.enabled),
      BUDGET_TOKENS := Nullable(thinking.budgetTokens, (n: int) => Int(n)),
      KEEP := Nullable(thinking.keep, (k: KeepMode) => KeepText(k))];
    Dict(if thinking.intensity.None? then fields else fields[INTENSITY := Text(thinking.intensity.value)])
  }

  function EncodeLimits(limits: AgentLimits): Json {
    Dict(map[MAX_ITERATIONS := Int(limits.maxIterations), MAX_TOOL_CALLS := Int(limits.maxToolCalls),
             MAX_EXECUTION_SECONDS := Real(limits.maxSeconds)])
  }

  /** Writes the field unless it is unset. */
  function Put<T>(fields: map<Name, Json>, name: Name, field: Field<T>, encode: T -> Json): map<Name, Json> {
    if field.Unset? then fields else fields[name := encode(field.value)]
  }

  function Encode(override: Override): map<Name, Json> {
    var a := Put(map[], PROVIDER_CONFIG_ID, override.provider, (s: string) => Text(s));
    var b := Put(a, MODEL, override.model, (s: string) => Text(s));
    var c := Put(b, TEMPERATURE, override.temperature, (t: Option<real>) => Nullable(t, (x: real) => Real(x)));
    var d := Put(c, MAX_TOKENS, override.maxTokens, (t: Option<int>) => Nullable(t, (n: int) => Int(n)));
    var e := Put(d, THINKING, override.thinking, (t: Option<Thinking>) => Nullable(t, EncodeThinking));
    var f := Put(e, LIMITS, override.limits, EncodeLimits);
    Put(f, APPROVAL_MODE, override.approvalMode, (m: ApprovalMode) => ModeText(m))
  }

  // ---------------------------------------------------------------- reading it back

  /** None is the decoding error. */
  function DecodeThinking(fields: map<Name, Json>): Option<Thinking> {
    if ENABLED !in fields || !fields[ENABLED].Bool? then None
    else
      var budget := if BUDGET_TOKENS in fields then fields[BUDGET_TOKENS] else Null;
      var keep := if KEEP in fields then fields[KEEP] else Null;
      var intensity := if INTENSITY in fields then fields[INTENSITY] else Null;
      if !(budget.Null? || budget.Int?) || !(keep.Null? || keep.KeepText?) || !(intensity.Null? || intensity.Text?) then None
      else
        var thinking := Thinking(fields[ENABLED].truth,
          if budget.Null? then None else Some(budget.number),
          if keep.Null? then None else Some(keep.keep),
          if intensity.Null? then None else Some(intensity.text));
        if thinking.Valid() then Some(thinking) else None
  }

  function DecodeLimits(fields: map<Name, Json>): Option<AgentLimits> {
    if fields.Keys != {MAX_ITERATIONS, MAX_TOOL_CALLS, MAX_EXECUTION_SECONDS}
       || !fields[MAX_ITERATIONS].Int? || !fields[MAX_TOOL_CALLS].Int? || !fields[MAX_EXECUTION_SECONDS].Real? then None
    else
      var limits := AgentLimits(fields[MAX_ITERATIONS].number, fields[MAX_TOOL_CALLS].number, fields[MAX_EXECUTION_SECONDS].decimal);
      if limits.Valid() then Some(limits) else None
  }

  /** A name that is absent leaves the field unset; otherwise its value must decode. */
  function Take<T>(fields: map<Name, Json>, name: Name, decode: Json -> Option<T>): Option<Field<T>> {
    if name !in fields then Some(Unset)
    else
      var value := decode(fields[name]);
      if value.None? then None else Some(Set(value.value))
  }

  function AsText(json: Json): Option<string> { if json.Text? then Some(json.text) else None }
  function AsMode(json: Json): Option<ApprovalMode> { if json.ModeText? then Some(json.mode) else None }
  function AsReal(json: Json): Option<Option<real>> {
    if json.Null? then Some(None) else if json.Real? then Some(Some(json.decimal)) else None
  }
  function AsInt(json: Json): Option<Option<int>> {
    if json.Null? then Some(None) else if json.Int? then Some(Some(json.number)) else None
  }
  function AsLimits(json: Json): Option<AgentLimits> { if json.Dict? then DecodeLimits(json.fields) else None }
  function AsThinking(json: Json): Option<Option<Thinking>> {
    if json.Null? then Some(None)
    else if !json.Dict? then None
    else
      var thinking := DecodeThinking(json.fields);
      if thinking.None? then None else Some(Some(thinking.value))
  }

  const NAMES := {PROVIDER_CONFIG_ID, MODEL, TEMPERATURE, MAX_TOKENS, THINKING, LIMITS, APPROVAL_MODE}

  function Decode(fields: map<Name, Json>): Option<Override> {
    var provider := Take(fields, PROVIDER_CONFIG_ID, AsText);
    var model := Take(fields, MODEL, AsText);
    var temperature := Take(fields, TEMPERATURE, AsReal);
    var maxTokens := Take(fields, MAX_TOKENS, AsInt);
    var thinking := Take(fields, THINKING, AsThinking);
    var limits := Take(fields, LIMITS, AsLimits);
    var mode := Take(fields, APPROVAL_MODE, AsMode);
    if !(fields.Keys <= NAMES) || provider.None? || model.None? || temperature.None? || maxTokens.None?
       || thinking.None? || limits.None? || mode.None? then None
    else Some(Override(provider.value, model.value, temperature.value, maxTokens.value, thinking.value, limits.value, mode.value))
  }

  lemma ThinkingRoundTrips(thinking: Option<Thinking>)
    requires thinking.Some? ==> thinking.value.Valid()
    ensures AsThinking(Nullable(thinking, EncodeThinking)) == Some(thinking)
  {
  }

  lemma LimitsRoundTrip(limits: AgentLimits)
    requires limits.Valid()
    ensures AsLimits(EncodeLimits(limits)) == Some(limits)
  {
    assert EncodeLimits(limits).fields.Keys == {MAX_ITERATIONS, MAX_TOOL_CALLS, MAX_EXECUTION_SECONDS};
  }

  /** Where each field of an override ends up: absent exactly when unset. */
  lemma EncodedFields(override: Override)
    ensures var fields := Encode(override);
      && fields.Keys <= NAMES
      && (PROVIDER_CONFIG_ID in fields <==> override.provider.Set?)
      && (MODEL in fields <==> override.model.Set?)
      && (TEMPERATURE in fields <==> override.temperature.Set?)
      && (MAX_TOKENS in fields <==> override.maxTokens.Set?)
      && (THINKING in fields <==> override.thinking.Set?)
      && (LIMITS in fields <==> override.limits.Set?)
      && (APPROVAL_MODE in fields <==> override.approvalMode.Set?)
  {
  }

  /** Limits are written whole, and read only whole and within their ranges. */
  lemma LimitsAreRead(limits: AgentLimits, fields: map<Name, Json>)
    ensures EncodeLimits(limits) == Dict(fields) <==>
      fields.Keys == {MAX_ITERATIONS, MAX_TOOL_CALLS, MAX_EXECUTION_SECONDS} && fields[MAX_ITERATIONS] == Int(limits.maxIterations)
      && fields[MAX_TOOL_CALLS] == Int(limits.maxToolCalls) && fields[MAX_EXECUTION_SECONDS] == Real(limits.maxSeconds)
    ensures AsLimits(Dict(fields)) == Some(limits) <==>
      EncodeLimits(limits) == Dict(fields) && 1 <= limits.maxIterations <= 100 && 1 <= limits.maxToolCalls <= 500
      && 0.0 < limits.maxSeconds <= 3600.0
  {
    assert EncodeLimits(limits).fields.Keys == {MAX_ITERATIONS, MAX_TOOL_CALLS, MAX_EXECUTION_SECONDS};
  }

  /** Thinking is read as its fields say, an absent one like null; a switched-off one has no other field. */
  lemma ThinkingIsRead(thinking: Thinking, fields: map<Name, Json>)
    ensures DecodeThinking(fields) == Some(thinking) <==>
      && ENABLED in fields && fields[ENABLED] == Bool(thinking.enabled)
      && FieldIs(fields, BUDGET_TOKENS, if thinking.budgetTokens.None? then Null else Int(thinking.budgetTokens.value))
      && FieldIs(fields, KEEP, if thinking.keep.None? then Null else KeepText(thinking.keep.value))
      && FieldIs(fields, INTENSITY, if thinking.intensity.None? then Null else Text(thinking.intensity.value))
      && (thinking.budgetTokens.Some? ==> thinking.budgetTokens.value > 0)
      && (thinking.intensity.Some? ==> !Blank(thinking.intensity.value))
      && (thinking.enabled || (thinking.budgetTokens.None? && thinking.keep.None? && thinking.intensity.None?))
  {
  }

  ghost predicate FieldIs(fields: map<Name, Json>, name: Name, value: Json) {
    (if name in fields then fields[name] else Null) == value
  }

  /** What a readable override was read from: every set field from its own name with a value of its own kind, an
      explicit null where there is none, and no name for an unset field. */
  lemma ReadFields(fields: map<Name, Json>, override: Override)
    requires Decode(fields) == Some(override)
    ensures Reads(fields, PROVIDER_CONFIG_ID, override.provider, (s: string) => Text(s))
    ensures Reads(fields, MODEL, override.model, (s: string) => Text(s))
    ensures Reads(fields, TEMPERATURE, override.temperature, (t: Option<real>) => if t.None? then Null else Real(t.value))
    ensures Reads(fields, MAX_TOKENS, override.maxTokens, (n: Option<int>) => if n.None? then Null else Int(n.value))
    ensures Reads(fields, APPROVAL_MODE, override.approvalMode, (m: ApprovalMode) => ModeText(m))
    ensures Reads(fields, LIMITS, override.limits, (l: AgentLimits) => EncodeLimits(l))
    ensures THINKING in fields <==> override.thinking.Set?
    ensures override.thinking.Set? && override.thinking.value.None? ==> fields[THINKING] == Null
    ensures override.thinking.Set? && override.thinking.value.Some? ==>
      fields[THINKING].Dict? && DecodeThinking(fields[THINKING].fields) == Some(override.thinking.value.value)
  {
    if override.limits.Set? {
      LimitsAreRead(override.limits.value, fields[LIMITS].fields);
    }
  }

  ghost predicate Reads<T>(fields: map<Name, Json>, name: Name, field: Field<T>, encode: T -> Json) {
    if field.Unset? then name !in fields else name in fields && fields[name] == encode(field.value)
  }

  /** A name that no field has is refused. */
  lemma UnknownNameIsRefused(fields: map<Name, Json>, name: Name)
    requires name in fields
    requires name !in {PROVIDER_CONFIG_ID, MODEL, TEMPERATURE, MAX_TOKENS, THINKING, LIMITS, APPROVAL_MODE}
    ensures Decode(fields).None?
  {
    assert name !in NAMES;
  }

  /** What is stored is read back, with unset fields and explicit nulls kept apart. */
  lemma OverrideRoundTrips(override: Override)
    requires override.Valid()
    ensures Decode(Encode(override)) == Some(override)
  {
    EncodedFields(override);
    PlainFieldsRoundTrip(override);
    NestedFieldsRoundTrip(override);
  }

  lemma PlainFieldsRoundTrip(override: Override)
    ensures Take(Encode(override), PROVIDER_CONFIG_ID, AsText) == Some(override.provider)
    ensures Take(Encode(override), MODEL, AsText) == Some(override.model)
    ensures Take(Encode(override), TEMPERATURE, AsReal) == Some(override.temperature)
    ensures Take(Encode(override), MAX_TOKENS, AsInt) == Some(override.maxTokens)
    ensures Take(Encode(override), APPROVAL_MODE, AsMode) == Some(override.approvalMode)
  {
    EncodedFields(override);
  }

  lemma NestedFieldsRoundTrip(override: Override)
    requires override.Valid()
    ensures Take(Encode(override), THINKING, AsThinking) == Some(override.thinking)
    ensures Take(Encode(override), LIMITS, AsLimits) == Some(override.limits)
  {
    EncodedFields(override);
    if override.thinking.Set? {
      assert Encode(override)[THINKING] == Nullable(override.thinking.value, EncodeThinking);
      ThinkingRoundTrips(override.thinking.value);
    }
    if override.limits.Set? {
      assert Encode(override)[LIMITS] == EncodeLimits(override.limits.value);
      LimitsRoundTrip(override.limits.value);
    }
  }

  // ---------------------------------------------------------------- an override or none

  function EncodeOptional(override: Option<Override>): Json {
    if override.None? then Null else Dict(Encode(override.value))
  }

  function DecodeOptional(json: Json): Option<Option<Override>> {
    if json.Null? then Some(None)
    else if !json.Dict? then None
    else
      var override := Decode(json.fields);
      if override.None? then None else Some(Some(override.value))
  }

  /** No override and an override that sets nothing stay different, too. */
  lemma OptionalRoundTrips(override: Option<Override>)
    requires override.Some? ==> override.value.Valid()
    ensures DecodeOptional(EncodeOptional(override)) == Some(override)
  {
    if override.Some? {
      OverrideRoundTrips(override.value);
    }
  }
}
