/** The planner's conversation on the native transport (`experiments/planner-probe/native-transport.ts:69-205`): a state
    machine whose client may call anything in any order, and what a released output projects to. */
module Conversation {
  import opened Text

  /** `permitted` is the outcome of parsing the arguments and comparing them with the one file that may be read. */
  datatype ToolCall = ToolCall(id: string, arguments: string, permitted: bool)

  datatype Item =
    | Developer(content: string)
    | User(content: string)
    | Reasoning(blob: string)
    | FunctionCall(callId: string, arguments: string)
    | Message(text: string)
    | FunctionOutput(callId: string, output: string)
    | RepairInstruction

  datatype Completion = Completion(text: string, calls: seq<ToolCall>, requestId: string, continuation: seq<Item>)

  // ---- projection of a released output ----

  /** One item of an output. `wellFormed` is the outcome of the checks of its own shape. */
  datatype Raw =
    | RawReasoning(rawId: Option<string>, wellFormed: bool, blob: string)
    | RawCall(rawId: Option<string>, wellFormed: bool, call: ToolCall)
    | RawMessage(rawId: Option<string>, wellFormed: bool, text: string)

  datatype Projection = Projection(text: string, calls: seq<ToolCall>, continuation: seq<Item>)

  const MAX_ITEMS := 16

  function TextOf(output: seq<Raw>): string {
    if |output| == 0 then ""
    else TextOf(output[..|output| - 1]) + (if output[|output| - 1].RawMessage? then output[|output| - 1].text else "")
  }

  function CallsOf(output: seq<Raw>): seq<ToolCall> {
    if |output| == 0 then []
    else CallsOf(output[..|output| - 1]) + (if output[|output| - 1].RawCall? then [output[|output| - 1].call] else [])
  }

  function Replayed(raw: Raw): Item {
    match raw
    case RawReasoning(_, _, blob) => Reasoning(blob)
    case RawCall(_, _, call) => FunctionCall(call.id, call.arguments)
    case RawMessage(_, _, text) => Message(text)
  }

  function ContinuationOf(output: seq<Raw>): (r: seq<Item>)
    ensures |r| == |output| && forall i | 0 <= i < |r| :: r[i] == Replayed(output[i])
  {
    if |output| == 0 then [] else ContinuationOf(output[..|output| - 1]) + [Replayed(output[|output| - 1])]
  }

  predicate DistinctRawIds(output: seq<Raw>) {
    forall i, k | 0 <= i < k < |output| && output[i].rawId.Some? && output[k].rawId.Some? :: output[i].rawId != output[k].rawId
  }

  /** Well-formed items with distinct ids; at most one call, permitted and only where tools are; and never a call beside text. */
  predicate Acceptable(output: seq<Raw>, toolsAllowed: bool) {
    && |output| <= MAX_ITEMS && DistinctRawIds(output) && (forall i | 0 <= i < |output| :: ItemOk(output[i], toolsAllowed))
    && |CallsOf(output)| <= 1
    && (CallsOf(output) == [] || TextOf(output) == "")
  }

  function Projected(output: seq<Raw>): Projection {
    Projection(TextOf(output), CallsOf(output), ContinuationOf(output))
  }

  predicate ItemOk(item: Raw, toolsAllowed: bool) {
    item.wellFormed && (item.RawCall? ==> toolsAllowed && item.call.permitted)
  }

  /** One item of the loop, its id aside. */
  method AddItem(p: Projection, item: Raw, toolsAllowed: bool) returns (r: Option<Projection>)
    ensures r.Some? <==> ItemOk(item, toolsAllowed) && (item.RawCall? ==> p.calls == [])
    ensures r.Some? ==> r.value == Projection(p.text + (if item.RawMessage? then item.text else ""),
                                              p.calls + (if item.RawCall? then [item.call] else []), p.continuation + [Replayed(item)])
  {
    if !item.wellFormed {
      return None;
    }
    match item {
      case RawReasoning(_, _, blob) =>
        assert p.text + "" == p.text && p.calls + [] == p.calls;
        return Some(p.(continuation := p.continuation + [Reasoning(blob)]));
      case RawCall(_, _, call) =>
        if !toolsAllowed || |p.calls| != 0 || !call.permitted {
          return None;
        }
        assert p.text + "" == p.text;
        return Some(p.(calls := p.calls + [call], continuation := p.continuation + [FunctionCall(call.id, call.arguments)]));
      case RawMessage(_, _, text) =>
        assert p.calls + [] == p.calls;
        return Some(p.(text := p.text + text, continuation := p.continuation + [Message(text)]));
    }
  }

  /** `projectOutput` */
  method ProjectOutput(output: seq<Raw>, toolsAllowed: bool) returns (r: Option<Projection>)
    ensures r == if Acceptable(output, toolsAllowed) then Some(Projected(output)) else None
  {
    hide DistinctRawIds, RawIds, ItemOk, TextOf, CallsOf, ContinuationOf;
    if |output| > MAX_ITEMS {
      return None;
    }
    var p := Projection("", [], []);
    var ids: set<string> := {};
    NothingProjected(output);
    for i := 0 to |output|
      invariant p == Projected(output[..i]) && |p.calls| <= 1
      invariant DistinctRawIds(output[..i]) && ids == RawIds(output[..i])
      invariant forall k | 0 <= k < i :: ItemOk(output[k], toolsAllowed)
    {
      NextId(output, i);
      NextProjected(output, i);
      if output[i].rawId.Some? {
        if output[i].rawId.value in ids {
          return None;
        }
        ids := ids + {output[i].rawId.value};
      }
      var next := AddItem(p, output[i], toolsAllowed);
      if next.None? {
        CallsGrow(output, i + 1);
        return None;
      }
      p := next.value;
    }
    assert output[..|output|] == output;
    if p.calls != [] && p.text != "" {
      return None;
    }
    return Some(p);
  }

  lemma NothingProjected(output: seq<Raw>)
    ensures Projected(output[..0]) == Projection("", [], []) && DistinctRawIds(output[..0]) && RawIds(output[..0]) == {}
  {
  }

  lemma NextProjected(output: seq<Raw>, i: nat)
    requires i < |output|
    ensures var before, item := Projected(output[..i]), output[i];
            Projected(output[..i + 1]) ==
              Projection(before.text + (if item.RawMessage? then item.text else ""),
                         before.calls + (if item.RawCall? then [item.call] else []), before.continuation + [Replayed(item)])
  {
    assert output[..i + 1][..i] == output[..i];
  }

  function RawIds(output: seq<Raw>): set<string> {
    set i | 0 <= i < |output| && output[i].rawId.Some? :: output[i].rawId.value
  }

  lemma NextId(output: seq<Raw>, i: nat)
    requires i < |output| && DistinctRawIds(output[..i])
    ensures var item := output[i];
            && RawIds(output[..i + 1]) == RawIds(output[..i]) + (if item.rawId.Some? then {item.rawId.value} else {})
            && (DistinctRawIds(output[..i + 1]) <==> !(item.rawId.Some? && item.rawId.value in RawIds(output[..i])))
            && (DistinctRawIds(output) ==> DistinctRawIds(output[..i + 1]))
  {
    var before, more, item := output[..i], output[..i + 1], output[i];
    assert forall k | 0 <= k < i :: more[k] == before[k];
    if item.rawId.Some? && item.rawId.value in RawIds(before) {
      var k :| 0 <= k < i && before[k].rawId.Some? && before[k].rawId.value == item.rawId.value;
      assert more[k].rawId == more[i].rawId;
    } else {
      forall k, n | 0 <= k < n < |more| && more[k].rawId.Some? && more[n].rawId.Some? ensures more[k].rawId != more[n].rawId {
        if n == i {
          assert before[k].rawId.value in RawIds(before);
        }
      }
    }
    forall x | x in RawIds(before) + (if item.rawId.Some? then {item.rawId.value} else {}) ensures x in RawIds(more) {
      if x in RawIds(before) {
        var k :| 0 <= k < i && before[k].rawId.Some? && before[k].rawId.value == x;
        assert more[k].rawId.value == x;
      } else {
        assert more[i].rawId.value == x;
      }
    }
  }

  lemma {:induction false} CallsGrow(output: seq<Raw>, n: nat)
    requires n <= |output|
    ensures |CallsOf(output[..n])| <= |CallsOf(output)|
  {
    if n == |output| {
      assert output[..n] == output;
    } else {
      assert output[..|output| - 1][..n] == output[..n];
      CallsGrow(output[..|output| - 1], n);
    }
  }

  // ---- the conversation and its transport ----

  datatype Phase = Assessment | Final | Repairing

  datatype Body = Body(history: seq<Item>, tools: bool)

  /** The fields of the conversation, then those of its transport. `asked` is history: every request body handed out. */
  datatype Talk = Talk(
    input: seq<Item>, phase: Phase, ready: bool, expected: Option<Body>, toolsAllowed: bool, released: Option<Completion>,
    pendingRead: Option<ToolCall>, ended: bool, requestIds: set<string>, asked: seq<Body>)

  function Opened(system: string, user: string): Talk {
    Talk([Developer(system), User(user)], Assessment, true, None, false, None, None, false, {}, [])
  }

  /** What a step does, or None where it is denied. */
  function Ask(t: Talk, tools: bool): Option<Talk> {
    if t.ready && t.expected.None? && (t.phase == Assessment || !tools) then
      Some(t.(toolsAllowed := tools, ready := false, expected := Some(Body(t.input, tools)), asked := t.asked + [Body(t.input, tools)]))
    else None
  }

  /** What the port returned for a request: `sound` is the outcome of the checks of policy, deadline, sizes and response. */
  datatype Release = Release(requestId: string, sound: bool, output: seq<Raw>)

  /** `complete`: any failure ends the transport. The completion comes with the new state. */
  function Complete(t: Talk, body: Body, tools: bool, release: Release): (Talk, Option<Completion>) {
    if t.ended || t.expected != Some(body) || t.toolsAllowed != tools || !release.sound || release.requestId in t.requestIds ||
       !Acceptable(release.output, tools) then (t.(ended := true), None)
    else
      var completion := Completion(TextOf(release.output), CallsOf(release.output), release.requestId, ContinuationOf(release.output));
      (t.(expected := None, released := Some(completion), requestIds := t.requestIds + {release.requestId}), Some(completion))
  }

  function Calls(t: Talk, completion: Completion): Option<Talk> {
    if t.released == Some(completion) && t.phase == Assessment && |completion.calls| == 1 && t.toolsAllowed && completion.text == "" then
      Some(t.(input := t.input + completion.continuation, released := None, pendingRead := Some(completion.calls[0])))
    else None
  }

  /** `small` is the outcome of the size check of the output. */
  function Read(t: Talk, call: ToolCall, output: string, small: bool): Option<Talk> {
    if t.pendingRead == Some(call) && small then
      Some(t.(input := t.input + [FunctionOutput(call.id, output)], pendingRead := None, phase := Final, ready := true))
    else None
  }

  function Repair(t: Talk, completion: Completion): Option<Talk> {
    if t.released == Some(completion) && t.phase != Repairing && completion.calls == [] then
      Some(t.(input := t.input + completion.continuation + [RepairInstruction], released := None, phase := Repairing, ready := true))
    else None
  }

  // ---- every order of calls ----

  datatype Act =
    | DoAsk(tools: bool)
    | DoComplete(body: Body, tools: bool, release: Release)
    | DoCalls(completion: Completion)
    | DoRead(call: ToolCall, output: string, small: bool)
    | DoRepair(completion: Completion)

  function OrSame(t: Talk, next: Option<Talk>): Talk {
    if next.Some? then next.value else t
  }

  function Perform(t: Talk, a: Act): Talk {
    match a
    case DoAsk(tools) => OrSame(t, Ask(t, tools))
    case DoComplete(body, tools, release) => Complete(t, body, tools, release).0
    case DoCalls(completion) => OrSame(t, Calls(t, completion))
    case DoRead(call, output, small) => OrSame(t, Read(t, call, output, small))
    case DoRepair(completion) => OrSame(t, Repair(t, completion))
  }

  function Talked(system: string, user: string, acts: seq<Act>): Talk {
    if |acts| == 0 then Opened(system, user) else Perform(Talked(system, user, acts[..|acts| - 1]), acts[|acts| - 1])
  }

  // ---- counting ----

  function CallCount(h: seq<Item>): nat {
    if |h| == 0 then 0 else CallCount(h[..|h| - 1]) + (if h[|h| - 1].FunctionCall? then 1 else 0)
  }

  function OutputCount(h: seq<Item>): nat {
    if |h| == 0 then 0 else OutputCount(h[..|h| - 1]) + (if h[|h| - 1].FunctionOutput? then 1 else 0)
  }

  function RepairCount(h: seq<Item>): nat {
    if |h| == 0 then 0 else RepairCount(h[..|h| - 1]) + (if h[|h| - 1].RepairInstruction? then 1 else 0)
  }

  lemma {:induction false} CountsAdd(a: seq<Item>, b: seq<Item>)
    ensures CallCount(a + b) == CallCount(a) + CallCount(b) && OutputCount(a + b) == OutputCount(a) + OutputCount(b)
    ensures RepairCount(a + b) == RepairCount(a) + RepairCount(b)
  {
    if |b| == 0 {
      assert a + b == a;
    } else {
      assert (a + b)[..|a + b| - 1] == a + b[..|b| - 1];
      CountsAdd(a, b[..|b| - 1]);
    }
  }

  lemma {:induction false} ReplayCounts(output: seq<Raw>)
    ensures var h := ContinuationOf(output);
            CallCount(h) == |CallsOf(output)| && OutputCount(h) == 0 && RepairCount(h) == 0
  {
    if |output| > 0 {
      var init := output[..|output| - 1];
      ReplayCounts(init);
      assert ContinuationOf(output)[..|output| - 1] == ContinuationOf(init);
    }
  }

  lemma CountOne(i: Item)
    ensures CallCount([i]) == (if i.FunctionCall? then 1 else 0) && OutputCount([i]) == (if i.FunctionOutput? then 1 else 0)
    ensures RepairCount([i]) == (if i.RepairInstruction? then 1 else 0)
  {
    assert [i][..0] == [];
  }

  // ---- the invariant ----

  /** Every call of the history is the one given, or there is none. */
  predicate CallsAre(h: seq<Item>, id: string) {
    forall i | 0 <= i < |h| && h[i].FunctionCall? :: h[i].callId == id
  }

  /** Every call is answered, later, under its own id; there is at most one. */
  predicate Settled(h: seq<Item>) {
    && CallCount(h) == OutputCount(h) <= 1
    && (forall i | 0 <= i < |h| && h[i].FunctionCall? :: AnsweredLater(h, i))
  }

  predicate AnsweredLater(h: seq<Item>, i: nat) {
    exists k :: i < k < |h| && i < |h| && h[i].FunctionCall? && h[k].FunctionOutput? && h[k].callId == h[i].callId
  }

  predicate ReleaseGood(t: Talk, c: Completion) {
    && |c.calls| <= 1 && CallCount(c.continuation) == |c.calls| && OutputCount(c.continuation) == 0 && RepairCount(c.continuation) == 0
    && (|c.calls| == 1 ==> CallsAre(c.continuation, c.calls[0].id) && t.toolsAllowed)
  }

  /** How many requests may have been handed out in a phase. */
  function Allowed(p: Phase): nat {
    match p case Assessment => 1 case Final => 2 case Repairing => 3
  }

  predicate Chain(asked: seq<Body>, input: seq<Item>) {
    && (forall i | 0 <= i < |asked| :: asked[i].history <= input)
    && (forall i, k | 0 <= i < k < |asked| :: asked[i].history <= asked[k].history)
  }

  predicate AskedGood(asked: seq<Body>) {
    && (forall i | 0 <= i < |asked| :: Settled(asked[i].history) && RepairCount(asked[i].history) <= 1)
    && (forall i | 0 < i < |asked| :: !asked[i].tools)
  }

  predicate Waiting(t: Talk) {
    match t.pendingRead
    case Some(call) =>
      && t.phase == Assessment && !t.ready && t.expected.None? && t.released.None?
      && CallCount(t.input) == 1 && OutputCount(t.input) == 0 && CallsAre(t.input, call.id)
    case None => Settled(t.input)
  }

  predicate Good(t: Talk) {
    && Waiting(t) && Chain(t.asked, t.input) && AskedGood(t.asked)
    && RepairCount(t.input) == (if t.phase == Repairing then 1 else 0)
    && (t.phase == Assessment && t.pendingRead.None? ==> CallCount(t.input) == 0)
    && |t.asked| + (if t.ready then 1 else 0) <= Allowed(t.phase)
    && (t.ready ==> t.expected.None? && t.released.None?)
    && (t.expected.Some? ==> t.released.None? && t.expected.value.tools == t.toolsAllowed)
    && (t.phase != Assessment && !t.ready ==> !t.toolsAllowed)
    && (t.released.Some? ==> ReleaseGood(t, t.released.value))
  }
}
