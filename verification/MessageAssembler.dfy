/** Assembling the deltas of one model response (agent/runtime/message_assembler.py). */
module MessageAssembler {
  import opened Common

  datatype Delta =
    | TextDelta(text: string)
    | ReasoningDelta(text: string)
    | ToolDelta(index: int, id: string, name: string, arguments: string)   // "" for a part that is absent
    | MessageEnd(finishReason: string, usage: string)
    | ErrorDelta

  // ---------------------------------------------------------------- what a stream says

  function TextOf(deltas: seq<Delta>): string {
    if deltas == [] then ""
    else
      var last := deltas[|deltas| - 1];
      TextOf(deltas[..|deltas| - 1]) + if last.TextDelta? then last.text else ""
  }

  function ReasoningOf(deltas: seq<Delta>): string {
    if deltas == [] then ""
    else
      var last := deltas[|deltas| - 1];
      ReasoningOf(deltas[..|deltas| - 1]) + if last.ReasoningDelta? then last.text else ""
  }

  function ArgumentsOf(deltas: seq<Delta>, index: int): string {
    if deltas == [] then ""
    else
      var last := deltas[|deltas| - 1];
      ArgumentsOf(deltas[..|deltas| - 1], index) + if last.ToolDelta? && last.index == index then last.arguments else ""
  }

  predicate Mentions(deltas: seq<Delta>, index: int) {
    exists i :: 0 <= i < |deltas| && deltas[i].ToolDelta? && deltas[i].index == index
  }

  /** The id that some delta gives the index. */
  ghost predicate Names(deltas: seq<Delta>, index: int, id: string) {
    id != "" && exists i :: 0 <= i < |deltas| && deltas[i].ToolDelta? && deltas[i].index == index && deltas[i].id == id
  }

  ghost predicate Calls(deltas: seq<Delta>, index: int, name: string) {
    name != "" && exists i :: 0 <= i < |deltas| && deltas[i].ToolDelta? && deltas[i].index == index && deltas[i].name == name
  }

  /** No delta contradicts another: an index keeps its id and its name, an id keeps its index, and nothing
      follows the end. */
  ghost predicate Acceptable(deltas: seq<Delta>) {
    && (forall i :: 0 <= i < |deltas| ==> !deltas[i].ErrorDelta? && (deltas[i].ToolDelta? ==> deltas[i].index >= 0))
    && (forall i :: 0 <= i < |deltas| - 1 ==> !deltas[i].MessageEnd?)
    && (forall index, a, b :: Names(deltas, index, a) && Names(deltas, index, b) ==> a == b)
    && (forall index, other, id :: Names(deltas, index, id) && Names(deltas, other, id) ==> index == other)
    && (forall index, a, b :: Calls(deltas, index, a) && Calls(deltas, index, b) ==> a == b)
  }

  predicate Ended(deltas: seq<Delta>) { deltas != [] && deltas[|deltas| - 1].MessageEnd? }

  predicate About(delta: Delta, index: int) { delta.ToolDelta? && delta.index == index }

  lemma Added(deltas: seq<Delta>, delta: Delta)
    ensures TextOf(deltas + [delta]) == TextOf(deltas) + if delta.TextDelta? then delta.text else ""
    ensures ReasoningOf(deltas + [delta]) == ReasoningOf(deltas) + if delta.ReasoningDelta? then delta.text else ""
    ensures forall index ::
      ArgumentsOf(deltas + [delta], index) == ArgumentsOf(deltas, index) + if About(delta, index) then delta.arguments else ""
    ensures forall index :: Mentions(deltas + [delta], index) <==> Mentions(deltas, index) || About(delta, index)
    ensures forall index, id ::
      Names(deltas + [delta], index, id) <==> Names(deltas, index, id) || (About(delta, index) && delta.id == id != "")
    ensures forall index, name ::
      Calls(deltas + [delta], index, name) <==> Calls(deltas, index, name) || (About(delta, index) && delta.name == name != "")
  {
    var more := deltas + [delta];
    assert more[..|deltas|] == deltas && more[|deltas|] == delta;
    forall index ensures Mentions(more, index) <==> Mentions(deltas, index) || (About(delta, index)) {
      if i :| 0 <= i < |deltas| && deltas[i].ToolDelta? && deltas[i].index == index {
        assert more[i] == deltas[i];
      }
    }
    forall index, id
      ensures Names(more, index, id) <==> Names(deltas, index, id) || (About(delta, index) && delta.id == id != "")
    {
      if i :| 0 <= i < |deltas| && deltas[i].ToolDelta? && deltas[i].index == index && deltas[i].id == id {
        assert more[i] == deltas[i];
      }
    }
    forall index, name
      ensures Calls(more, index, name) <==> Calls(deltas, index, name) || (About(delta, index) && delta.name == name != "")
    {
      if i :| 0 <= i < |deltas| && deltas[i].ToolDelta? && deltas[i].index == index && deltas[i].name == name {
        assert more[i] == deltas[i];
      }
    }
  }

  lemma EmptyStreamSaysNothing(index: int)
    ensures TextOf([]) == ReasoningOf([]) == ArgumentsOf([], index) == "" && !Mentions([], index)
  {
  }

  /** The next delta contradicts nothing before it. */
  ghost predicate Compatible(deltas: seq<Delta>, delta: Delta) {
    && !Ended(deltas) && !delta.ErrorDelta?
    && (delta.ToolDelta? ==>
          && delta.index >= 0
          && (delta.id != "" ==> IdFree(deltas, delta.index, delta.id))
          && (delta.name != "" ==> forall name :: Calls(deltas, delta.index, name) ==> name == delta.name))
  }

  ghost predicate IdFree(deltas: seq<Delta>, index: int, id: string) {
    && (forall other :: Names(deltas, other, id) ==> other == index)
    && (forall a :: Names(deltas, index, a) ==> a == id)
  }

  lemma CompatibleIsAcceptable(deltas: seq<Delta>, delta: Delta)
    requires Acceptable(deltas)
    ensures Acceptable(deltas + [delta]) <==> Compatible(deltas, delta)
  {
    var more := deltas + [delta];
    Added(deltas, delta);
    assert more[|deltas|] == delta && forall i :: 0 <= i < |deltas| ==> more[i] == deltas[i];
    if Acceptable(more) {
      AcceptableIsCompatible(deltas, delta);
    }
    if Compatible(deltas, delta) {
      assert forall i :: 0 <= i < |more| - 1 ==> !more[i].MessageEnd?;
    }
  }

  lemma AcceptableIsCompatible(deltas: seq<Delta>, delta: Delta)
    requires Acceptable(deltas + [delta])
    ensures Compatible(deltas, delta)
  {
    var more := deltas + [delta];
    Added(deltas, delta);
    assert more[|deltas|] == delta;
    if deltas != [] {
      assert more[|deltas| - 1] == deltas[|deltas| - 1];
    }
    if delta.ToolDelta? && delta.id != "" {
      assert Names(more, delta.index, delta.id);
    }
    if delta.ToolDelta? && delta.name != "" {
      assert Calls(more, delta.index, delta.name);
    }
  }

  // ---------------------------------------------------------------- the response

  datatype ToolCall = ToolCall(id: string, name: string, rawArguments: string)
  datatype Response = Response(reasoning: string, text: string, calls: seq<ToolCall>, finishReason: string, usage: string)

  /** What assembly depends on: the joined texts, each mentioned index with its call, and the end. */
  datatype Projection = Projection(text: string, reasoning: string, calls: map<int, ToolCall>, finishReason: string, usage: string)

  /** The calls in the order of their indexes below `n`. */
  function InOrder(calls: map<int, ToolCall>, n: nat): seq<ToolCall> {
    if n == 0 then [] else InOrder(calls, n - 1) + if n - 1 in calls then [calls[n - 1]] else []
  }

  lemma {:induction false} OrderNeedsNoBound(calls: map<int, ToolCall>, n: nat, m: nat)
    requires n <= m && forall index :: index in calls ==> index < n
    ensures InOrder(calls, m) == InOrder(calls, n)
  {
    if n < m {
      OrderNeedsNoBound(calls, n, m - 1);
    }
  }

  /** The stream has this projection: "" stands for an id or a name that no delta gives. */
  ghost predicate Projects(deltas: seq<Delta>, p: Projection) {
    && p.text == TextOf(deltas) && p.reasoning == ReasoningOf(deltas)
    && (forall index :: index in p.calls <==> Mentions(deltas, index))
    && (forall index :: index in p.calls ==> CallIs(deltas, index, p.calls[index]))
    && (Ended(deltas) ==> p.finishReason == deltas[|deltas| - 1].finishReason && p.usage == deltas[|deltas| - 1].usage)
  }

  ghost predicate CallIs(deltas: seq<Delta>, index: int, call: ToolCall) {
    && call.rawArguments == ArgumentsOf(deltas, index)
    && (call.id == "" ==> forall id :: !Names(deltas, index, id))
    && (call.id != "" ==> Names(deltas, index, call.id))
    && (call.name == "" ==> forall name :: !Calls(deltas, index, name))
    && (call.name != "" ==> Calls(deltas, index, call.name))
  }

  /** Assembly succeeds when every call has an id and a name. */
  predicate Complete(p: Projection) {
    forall index :: index in p.calls ==> p.calls[index].id != "" && p.calls[index].name != ""
  }

  ghost predicate IsResponse(p: Projection, r: Response) {
    && r.text == p.text && r.reasoning == p.reasoning && r.finishReason == p.finishReason && r.usage == p.usage
    && exists n: nat :: (forall index :: index in p.calls ==> index < n) && r.calls == InOrder(p.calls, n)
  }

  /** Two streams with equal projections have equal responses: how the deltas were cut and interleaved
      does not show. */
  lemma ProjectionDecides(p: Projection, a: Response, b: Response)
    requires IsResponse(p, a) && IsResponse(p, b)
    ensures a == b
  {
    var n: nat :| (forall index :: index in p.calls ==> index < n) && a.calls == InOrder(p.calls, n);
    var m: nat :| (forall index :: index in p.calls ==> index < m) && b.calls == InOrder(p.calls, m);
    if n <= m {
      OrderNeedsNoBound(p.calls, n, m);
    } else {
      OrderNeedsNoBound(p.calls, m, n);
    }
  }

  /** An acceptable stream has one projection only. */
  lemma OneProjection(deltas: seq<Delta>, p: Projection, q: Projection)
    requires Acceptable(deltas) && Ended(deltas) && Projects(deltas, p) && Projects(deltas, q)
    ensures p == q
  {
    forall index | index in p.calls ensures p.calls[index] == q.calls[index] {
      assert Mentions(deltas, index);
      assert CallIs(deltas, index, p.calls[index]) && CallIs(deltas, index, q.calls[index]);
    }
    forall index ensures index in p.calls <==> index in q.calls {
      assert index in p.calls <==> Mentions(deltas, index);
    }
    assert p.calls == q.calls;
  }

  lemma {:induction false} CallAt(calls: map<int, ToolCall>, n: nat, k: nat) returns (index: nat)
    requires k < |InOrder(calls, n)|
    ensures index < n && index in calls && InOrder(calls, n)[k] == calls[index]
    ensures |InOrder(calls, index)| == k
  {
    if k < |InOrder(calls, n - 1)| {
      index := CallAt(calls, n - 1, k);
    } else {
      index := n - 1;
    }
  }

  /** Every call below the bound is there, behind those of the smaller indexes. */
  lemma {:induction false} EachCallHasItsPlace(calls: map<int, ToolCall>, n: nat, index: nat)
    requires index < n && index in calls
    ensures |InOrder(calls, index)| < |InOrder(calls, n)| && InOrder(calls, n)[|InOrder(calls, index)|] == calls[index]
  {
    if index < n - 1 {
      EachCallHasItsPlace(calls, n - 1, index);
    }
  }

  /** The calls of a stream are complete exactly when its deltas give every index an id and a name. */
  lemma CompleteIff(deltas: seq<Delta>, p: Projection)
    requires Projects(deltas, p)
    ensures Complete(p) <==> forall index :: Mentions(deltas, index) ==>
      (exists id :: Names(deltas, index, id)) && (exists name :: Calls(deltas, index, name))
  {
    forall index | index in p.calls
      ensures p.calls[index].id != "" <==> exists id :: Names(deltas, index, id)
      ensures p.calls[index].name != "" <==> exists name :: Calls(deltas, index, name)
    {
      assert CallIs(deltas, index, p.calls[index]);
    }
  }

  /** The accepted calls of a message have pairwise distinct ids. */
  lemma AcceptedIdsAreDistinct(deltas: seq<Delta>, p: Projection, r: Response, j: nat, k: nat)
    requires Acceptable(deltas) && Projects(deltas, p) && Complete(p) && IsResponse(p, r)
    requires j < k < |r.calls|
    ensures r.calls[j].id != r.calls[k].id
  {
    var n: nat :| (forall index :: index in p.calls ==> index < n) && r.calls == InOrder(p.calls, n);
    var a := CallAt(p.calls, n, j);
    var b := CallAt(p.calls, n, k);
    assert a != b;
    assert CallIs(deltas, a, p.calls[a]) && CallIs(deltas, b, p.calls[b]);
  }

  // ---------------------------------------------------------------- the assembler

  datatype CallState = CallState(id: string, name: string, arguments: seq<string>)

  function Joined(parts: seq<string>): string {
    if parts == [] then "" else Joined(parts[..|parts| - 1]) + parts[|parts| - 1]
  }

  lemma JoinedNext(parts: seq<string>, part: string)
    ensures Joined(parts + [part]) == Joined(parts) + part
  {
    assert (parts + [part])[..|parts|] == parts;
  }

  class Assembler {
    var text: seq<string>
    var reasoning: seq<string>
    var toolCalls: map<int, CallState>
    var ids: map<string, int>
    var finished: bool
    var finishReason: string
    var usage: string
    var deltaSeen: bool
    ghost var consumed: seq<Delta>

    /** The fields hold exactly what the deltas consumed so far say. */
    ghost predicate Valid()
      reads this
    {
      && Acceptable(consumed)
      && TextsFollow(consumed, text, reasoning)
      && ToolsFollow(consumed, toolCalls, ids)
      && EndFollows(consumed, finished, finishReason, usage)
    }

    constructor ()
      ensures Valid() && consumed == []
    {
      text, reasoning, toolCalls, ids := [], [], map[], map[];
      finished, finishReason, usage, deltaSeen, consumed := false, "", "", false, [];
    }

    /** Takes the next delta; refuses it exactly when the stream would no longer be acceptable. */
    method Add(delta: Delta) returns (ok: bool)
      requires Valid()
      modifies this
      ensures ok == Acceptable(old(consumed) + [delta])
      ensures ok ==> Valid() && consumed == old(consumed) + [delta]
    {
      CompatibleIsAcceptable(consumed, delta);
      TextsFollowNext(consumed, delta, text, reasoning);
      ToolsFollowNext(consumed, delta, toolCalls, ids);
      EndFollowsNext(consumed, delta, finished, finishReason, usage);
      ok := Take(delta);
      if ok {
        consumed := consumed + [delta];
      }
    }

    /** The change of the fields for one delta. */
    method Take(delta: Delta) returns (ok: bool)
      requires Acceptable(consumed) && ToolsFollow(consumed, toolCalls, ids) && finished == Ended(consumed)
      modifies this`text, this`reasoning, this`toolCalls, this`ids, this`finished, this`finishReason, this`usage, this`deltaSeen
      ensures ok == Compatible(consumed, delta)
      ensures ok ==> text == if delta.TextDelta? then old(text) + [delta.text] else old(text)
      ensures ok ==> reasoning == if delta.ReasoningDelta? then old(reasoning) + [delta.text] else old(reasoning)
      ensures ok ==> ids == if delta.ToolDelta? && delta.id != "" then old(ids)[delta.id := delta.index] else old(ids)
      ensures ok && delta.ToolDelta? ==> toolCalls == old(toolCalls)[delta.index := Merged(old(toolCalls), delta)]
      ensures ok && !delta.ToolDelta? ==> toolCalls == old(toolCalls)
      ensures ok ==> finished == delta.MessageEnd?
      ensures ok && delta.MessageEnd? ==> finishReason == delta.finishReason && usage == delta.usage
    {
      if finished {
        return false;
      }
      match delta {
        case TextDelta(part) =>
          text := text + [part];
          deltaSeen := deltaSeen || part != "";
          ok := true;
        case ReasoningDelta(part) =>
          reasoning := reasoning + [part];
          deltaSeen := deltaSeen || part != "";
          ok := true;
        case ToolDelta(index, id, name, arguments) =>
          ok := AddToolCall(delta);
          deltaSeen := true;
        case MessageEnd(reason, spent) =>
          finishReason, usage, finished := reason, spent, true;
          ok := true;
        case ErrorDelta => ok := false;
      }
    }

    /** What the fields stand for. */
    function Projected(): Projection
      reads this
    {
      Projection(Joined(text), Joined(reasoning), map index | index in toolCalls :: CallOf(toolCalls[index]), finishReason, usage)
    }

    /** The stream consumed so far has exactly this projection. */
    lemma ProjectedIsProjection()
      requires Valid()
      ensures Projects(consumed, Projected())
    {
    }

    /** Builds the response; fails before the end of the stream, and when a call lacks its id or its name. */
    method Assemble() returns (response: Option<Response>)
      requires Valid()
      ensures response.Some? <==> Ended(consumed) && Complete(Projected())
      ensures response.Some? ==> IsResponse(Projected(), response.value)
    {
      if !finished {
        return None;
      }
      var p := Projected();
      assert forall index :: index in p.calls ==> Mentions(consumed, index);
      var calls := CallsInOrder(p);
      response := if calls.None? then None else Some(Response(p.reasoning, p.text, calls.value, p.finishReason, p.usage));
    }

    /** Merges one tool delta into the state of its index. */
    method AddToolCall(delta: Delta) returns (ok: bool)
      requires Acceptable(consumed) && ToolsFollow(consumed, toolCalls, ids) && delta.ToolDelta? && !Ended(consumed)
      modifies this`toolCalls, this`ids
      ensures ok == Compatible(consumed, delta)
      ensures ok ==> ids == if delta.id == "" then old(ids) else old(ids)[delta.id := delta.index]
      ensures ok ==> toolCalls == old(toolCalls)[delta.index := Merged(old(toolCalls), delta)]
    {
      if delta.index < 0 {
        return false;
      }
      if delta.id != "" {
        if delta.id in ids && ids[delta.id] != delta.index {
          assert Names(consumed, ids[delta.id], delta.id);
          return false;
        }
        ids := ids[delta.id := delta.index];
      }
      var state := if delta.index in toolCalls then toolCalls[delta.index] else CallState("", "", []);
      if delta.id != "" {
        if state.id != "" && state.id != delta.id {
          assert Names(consumed, delta.index, state.id);
          return false;
        }
        state := state.(id := delta.id);
      }
      if delta.name != "" {
        if state.name != "" && state.name != delta.name {
          assert Calls(consumed, delta.index, state.name);
          return false;
        }
        state := state.(name := delta.name);
      }
      state := state.(arguments := state.arguments + [delta.arguments]);
      toolCalls := toolCalls[delta.index := state];
      ok := true;
    }
  }

  /** The calls in the order of their indexes; None when one lacks its id or its name. */
  method CallsInOrder(p: Projection) returns (calls: Option<seq<ToolCall>>)
    requires forall index :: index in p.calls ==> index >= 0
    ensures calls.None? <==> !Complete(p)
    ensures calls.Some? ==> exists n: nat :: (forall index :: index in p.calls ==> index < n) && calls.value == InOrder(p.calls, n)
  {
    var n := Above(p.calls.Keys);
    var found: seq<ToolCall> := [];
    var index: nat := 0;
    while index < n
      invariant 0 <= index <= n && found == InOrder(p.calls, index)
      invariant forall i :: i in p.calls && 0 <= i < index ==> p.calls[i].id != "" && p.calls[i].name != ""
    {
      if index in p.calls {
        if p.calls[index].id == "" || p.calls[index].name == "" {
          return None;
        }
        found := found + [p.calls[index]];
      }
      index := index + 1;
    }
    calls := Some(found);
  }

  /** A number above all indexes. */
  method Above(indexes: set<int>) returns (n: nat)
    ensures forall index: int :: index in indexes ==> index < n
  {
    n := 0;
    var rest: set<int> := indexes;
    while true
      invariant rest <= indexes
      invariant forall index: int :: index in indexes && index !in rest ==> index < n
      decreases |rest|
    {
      if index: int :| index in rest {
        if index >= n {
          n := index + 1;
        }
        rest := rest - {index};
      } else {
        return;
      }
    }
  }

  function Merged(toolCalls: map<int, CallState>, delta: Delta): CallState
    requires delta.ToolDelta?
  {
    var state := if delta.index in toolCalls then toolCalls[delta.index] else CallState("", "", []);
    CallState(if delta.id != "" then delta.id else state.id, if delta.name != "" then delta.name else state.name,
              state.arguments + [delta.arguments])
  }

  function CallOf(state: CallState): ToolCall { ToolCall(state.id, state.name, Joined(state.arguments)) }

  // ---------------------------------------------------------------- how the calls follow the stream

  lemma {:induction false} NothingSaid(deltas: seq<Delta>, index: int)
    requires !Mentions(deltas, index)
    ensures CallIs(deltas, index, CallOf(CallState("", "", [])))
  {
    NoArguments(deltas, index);
  }

  lemma MentionsLater(deltas: seq<Delta>, n: nat, index: int)
    requires n <= |deltas|
    ensures Mentions(deltas[..n], index) ==> Mentions(deltas, index)
  {
    if Mentions(deltas[..n], index) {
      var i :| 0 <= i < n && About(deltas[..n][i], index);
      assert About(deltas[i], index);
    }
  }

  lemma {:induction false} NoArguments(deltas: seq<Delta>, index: int)
    requires !Mentions(deltas, index)
    ensures ArgumentsOf(deltas, index) == ""
  {
    if deltas != [] {
      MentionsLater(deltas, |deltas| - 1, index);
      NoArguments(deltas[..|deltas| - 1], index);
      assert !About(deltas[|deltas| - 1], index);
    }
  }

  lemma CallStays(deltas: seq<Delta>, delta: Delta, index: int, call: ToolCall)
    requires CallIs(deltas, index, call) && !About(delta, index)
    ensures CallIs(deltas + [delta], index, call)
  {
    Added(deltas, delta);
  }

  lemma CallMerges(deltas: seq<Delta>, delta: Delta, state: CallState)
    requires delta.ToolDelta? && CallIs(deltas, delta.index, CallOf(state))
    ensures var merged := CallState(if delta.id != "" then delta.id else state.id,
        if delta.name != "" then delta.name else state.name, state.arguments + [delta.arguments]);
      CallIs(deltas + [delta], delta.index, CallOf(merged))
  {
    Added(deltas, delta);
    JoinedNext(state.arguments, delta.arguments);
  }

  lemma CallsFollow(deltas: seq<Delta>, delta: Delta, before: map<int, CallState>, after: map<int, CallState>)
    requires forall index :: index in before <==> Mentions(deltas, index)
    requires forall index :: index in before ==> CallIs(deltas, index, CallOf(before[index]))
    requires after == if delta.ToolDelta? then before[delta.index := Merged(before, delta)] else before
    ensures forall index :: index in after ==> CallIs(deltas + [delta], index, CallOf(after[index]))
  {
    forall index | index in after ensures CallIs(deltas + [delta], index, CallOf(after[index])) {
      if About(delta, index) {
        if index !in before {
          NothingSaid(deltas, index);
        }
        CallMerges(deltas, delta, if index in before then before[index] else CallState("", "", []));
      } else {
        CallStays(deltas, delta, index, CallOf(after[index]));
      }
    }
  }

  ghost predicate TextsFollow(deltas: seq<Delta>, text: seq<string>, reasoning: seq<string>) {
    Joined(text) == TextOf(deltas) && Joined(reasoning) == ReasoningOf(deltas)
  }

  ghost predicate ToolsFollow(deltas: seq<Delta>, toolCalls: map<int, CallState>, ids: map<string, int>) {
    && (forall index :: index in toolCalls <==> Mentions(deltas, index))
    && (forall index :: index in toolCalls ==> CallIs(deltas, index, CallOf(toolCalls[index])))
    && (forall id :: id in ids ==> id != "" && Names(deltas, ids[id], id))
    && (forall index, id :: Names(deltas, index, id) ==> id in ids)
  }

  ghost predicate EndFollows(deltas: seq<Delta>, finished: bool, finishReason: string, usage: string) {
    && finished == Ended(deltas)
    && (finished ==> finishReason == deltas[|deltas| - 1].finishReason && usage == deltas[|deltas| - 1].usage)
  }

  lemma EndFollowsNext(deltas: seq<Delta>, delta: Delta, finished: bool, finishReason: string, usage: string)
    ensures EndFollows(deltas + [delta], delta.MessageEnd?, if delta.MessageEnd? then delta.finishReason else finishReason,
                       if delta.MessageEnd? then delta.usage else usage)
  {
    assert (deltas + [delta])[|deltas|] == delta;
  }

  lemma TextsFollowNext(deltas: seq<Delta>, delta: Delta, text: seq<string>, reasoning: seq<string>)
    requires TextsFollow(deltas, text, reasoning)
    ensures TextsFollow(deltas + [delta],
      if delta.TextDelta? then text + [delta.text] else text, if delta.ReasoningDelta? then reasoning + [delta.text] else reasoning)
  {
    Added(deltas, delta);
    if delta.TextDelta? {
      JoinedNext(text, delta.text);
    }
    if delta.ReasoningDelta? {
      JoinedNext(reasoning, delta.text);
    }
  }

  lemma ToolsFollowNext(deltas: seq<Delta>, delta: Delta, toolCalls: map<int, CallState>, ids: map<string, int>)
    requires ToolsFollow(deltas, toolCalls, ids)
    ensures ToolsFollow(deltas + [delta],
      if delta.ToolDelta? then toolCalls[delta.index := Merged(toolCalls, delta)] else toolCalls,
      if delta.ToolDelta? && delta.id != "" then ids[delta.id := delta.index] else ids)
  {
    CallsFollow(deltas, delta, toolCalls,
      if delta.ToolDelta? then toolCalls[delta.index := Merged(toolCalls, delta)] else toolCalls);
    IdsFollowNext(deltas, delta, ids);
    Added(deltas, delta);
  }

  lemma IdsFollowNext(deltas: seq<Delta>, delta: Delta, ids: map<string, int>)
    requires forall id :: id in ids ==> id != "" && Names(deltas, ids[id], id)
    requires forall index, id :: Names(deltas, index, id) ==> id in ids
    ensures var after := if delta.ToolDelta? && delta.id != "" then ids[delta.id := delta.index] else ids;
      && (forall id :: id in after ==> id != "" && Names(deltas + [delta], after[id], id))
      && (forall index, id :: Names(deltas + [delta], index, id) ==> id in after)
  {
    Added(deltas, delta);
  }
}
