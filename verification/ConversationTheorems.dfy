/** What every order of calls on the native conversation keeps, and the object that makes them. */
module ConversationTheorems {
  import opened Text
  import opened Conversation

  lemma OpenedGood(system: string, user: string)
    ensures Good(Opened(system, user))
  {
    var h := [Developer(system), User(user)];
    assert h[..1] == [Developer(system)];
    CountOne(Developer(system));
  }

  lemma AskKeeps(t: Talk, tools: bool)
    requires Good(t) && Ask(t, tools).Some?
    ensures Good(Ask(t, tools).value)
  {
    hide CallCount, OutputCount, RepairCount, CallsAre, ReleaseGood, AnsweredLater;
    var body := Body(t.input, tools);
    var asked := t.asked + [body];
    assert t.pendingRead.None?;
    forall i, k | 0 <= i < k < |asked| ensures asked[i].history <= asked[k].history {}
  }

  lemma CompleteKeeps(t: Talk, body: Body, tools: bool, release: Release)
    requires Good(t)
    ensures Good(Complete(t, body, tools, release).0)
  {
    hide CallCount, OutputCount, RepairCount, Chain, AskedGood, Settled, DistinctRawIds, TextOf;
    var after := Complete(t, body, tools, release);
    if after.1.Some? {
      ReplayCounts(release.output);
      ReplayCalls(release.output);
      assert ReleaseGood(after.0, after.1.value);
    }
  }

  /** With at most one call, every call of the continuation carries its id. */
  lemma {:induction false} ReplayCalls(output: seq<Raw>)
    ensures |CallsOf(output)| == 1 ==> CallsAre(ContinuationOf(output), CallsOf(output)[0].id)
    ensures |CallsOf(output)| == 0 ==> forall i | 0 <= i < |output| :: !output[i].RawCall?
    ensures |CallsOf(output)| == 1 ==> exists i :: 0 <= i < |output| && output[i].RawCall? && output[i].call == CallsOf(output)[0]
  {
    if |output| > 0 {
      var init := output[..|output| - 1];
      ReplayCalls(init);
      assert forall i | 0 <= i < |init| :: init[i] == output[i];
      if |CallsOf(output)| == 1 && output[|output| - 1].RawCall? {
        assert CallsOf(init) == [];
        assert output[|output| - 1].call == CallsOf(output)[0];
      }
    }
  }

  lemma CallsKeeps(t: Talk, completion: Completion)
    requires Good(t) && Calls(t, completion).Some?
    ensures Good(Calls(t, completion).value)
  {
    hide CallCount, OutputCount, RepairCount, AskedGood;
    CountsAdd(t.input, completion.continuation);
    NoCallsWithin(t.input);
    assert ReleaseGood(t, completion);
    var input := t.input + completion.continuation;
    forall i | 0 <= i < |input| && input[i].FunctionCall? ensures input[i].callId == completion.calls[0].id {
      if i >= |t.input| {
        assert input[i] == completion.continuation[i - |t.input|];
      }
    }
  }

  lemma {:induction false} NoCallsWithin(h: seq<Item>)
    ensures CallCount(h) == 0 ==> forall i | 0 <= i < |h| :: !h[i].FunctionCall?
  {
    if |h| > 0 {
      NoCallsWithin(h[..|h| - 1]);
    }
  }

  lemma ReadKeeps(t: Talk, call: ToolCall, output: string, small: bool)
    requires Good(t) && Read(t, call, output, small).Some?
    ensures Good(Read(t, call, output, small).value)
  {
    hide CallCount, OutputCount, RepairCount, AskedGood;
    var answer := FunctionOutput(call.id, output);
    CountsAdd(t.input, [answer]);
    CountOne(answer);
    var input := t.input + [answer];
    forall i | 0 <= i < |input| && input[i].FunctionCall? ensures AnsweredLater(input, i) {
      assert input[|t.input|] == answer;
    }
  }

  lemma RepairKeeps(t: Talk, completion: Completion)
    requires Good(t) && Repair(t, completion).Some?
    ensures Good(Repair(t, completion).value)
  {
    hide CallCount, OutputCount, RepairCount, AskedGood;
    var more := completion.continuation + [RepairInstruction];
    assert ReleaseGood(t, completion);
    CountsAdd(completion.continuation, [RepairInstruction]);
    CountOne(RepairInstruction);
    CountsAdd(t.input, more);
    assert t.input + completion.continuation + [RepairInstruction] == t.input + more;
    NoCallsWithin(more);
    SettledMore(t.input, more);
  }

  lemma SettledMore(h: seq<Item>, more: seq<Item>)
    requires Settled(h) && CallCount(h + more) == OutputCount(h + more) <= 1 && forall i | 0 <= i < |more| :: !more[i].FunctionCall?
    ensures Settled(h + more)
  {
    hide CallCount, OutputCount;
    var all := h + more;
    assert forall i | |h| <= i < |all| :: !all[i].FunctionCall?;
    forall i | 0 <= i < |h| && h[i].FunctionCall? ensures AnsweredLater(all, i) {
      assert AnsweredLater(h, i);
      var k :| i < k < |h| && h[k].FunctionOutput? && h[k].callId == h[i].callId;
      assert all[k] == h[k];
    }
  }

  lemma {:induction false} TalkedGood(system: string, user: string, acts: seq<Act>)
    ensures Good(Talked(system, user, acts))
  {
    hide Good, Ask, Complete, Calls, Read, Repair;
    if |acts| == 0 {
      OpenedGood(system, user);
    } else {
      var t := Talked(system, user, acts[..|acts| - 1]);
      TalkedGood(system, user, acts[..|acts| - 1]);
      match acts[|acts| - 1]
      case DoAsk(tools) => if Ask(t, tools).Some? { AskKeeps(t, tools); }
      case DoComplete(body, tools, release) => CompleteKeeps(t, body, tools, release);
      case DoCalls(completion) => if Calls(t, completion).Some? { CallsKeeps(t, completion); }
      case DoRead(call, output, small) => if Read(t, call, output, small).Some? { ReadKeeps(t, call, output, small); }
      case DoRepair(completion) => if Repair(t, completion).Some? { RepairKeeps(t, completion); }
    }
  }

  /** Whatever the client does, in whatever order: there are at most three requests, only the first with tools; each
      request's history extends the one before; in every history a request carries, there is at most one call, and it is
      answered under its own id; and there is at most one repair. */
  lemma HistoriesExtend(system: string, user: string, acts: seq<Act>)
    ensures var asked := Talked(system, user, acts).asked;
            && |asked| <= 3
            && (forall i | 0 < i < |asked| :: !asked[i].tools)
            && (forall i, k | 0 <= i < k < |asked| :: asked[i].history <= asked[k].history)
            && (forall i | 0 <= i < |asked| :: Settled(asked[i].history) && RepairCount(asked[i].history) <= 1)
  {
    hide Talked, Settled, RepairCount, Waiting;
    TalkedGood(system, user, acts);
  }

  /** `NativeConversation` and the state of its transport: fields that each call updates. */
  class NativeConversation {
    var input: seq<Item>
    var phase: Phase
    var ready: bool
    var expected: Option<Body>
    var toolsAllowed: bool
    var released: Option<Completion>
    var pendingRead: Option<ToolCall>
    var terminalFailure: bool
    var requestIds: set<string>
    ghost var asked: seq<Body>

    ghost function View(): Talk
      reads this
    {
      Talk(input, phase, ready, expected, toolsAllowed, released, pendingRead, terminalFailure, requestIds, asked)
    }

    constructor (system: string, user: string)
      ensures View() == Opened(system, user)
    {
      input, phase, ready := [Developer(system), User(user)], Assessment, true;
      expected, toolsAllowed, released, pendingRead := None, false, None, None;
      terminalFailure, requestIds, asked := false, {}, [];
    }

    /** Lines 119-126. */
    method Request(tools: bool) returns (body: Option<Body>)
      modifies this
      ensures View() == OrSame(old(View()), Ask(old(View()), tools))
      ensures body == if Ask(old(View()), tools).Some? then Some(Body(old(input), tools)) else None
    {
      if !(ready && expected.None? && (phase == Assessment || !tools)) {
        return None;
      }
      toolsAllowed, ready := tools, false;
      expected := Some(Body(input, tools));
      asked := asked + [Body(input, tools)];
      return expected;
    }

    /** Lines 182-204: checks, projection, acceptance; any failure ends the transport. */
    method Finish(body: Body, tools: bool, release: Release) returns (completion: Option<Completion>)
      modifies this
      ensures (View(), completion) == Complete(old(View()), body, tools, release)
    {
      hide Acceptable, TextOf, CallsOf, ContinuationOf;
      if terminalFailure || expected != Some(body) || toolsAllowed != tools || !release.sound || release.requestId in requestIds {
        terminalFailure := true;
        return None;
      }
      var output := ProjectOutput(release.output, tools);
      if output.None? {
        terminalFailure := true;
        return None;
      }
      completion := Some(Completion(output.value.text, output.value.calls, release.requestId, output.value.continuation));
      requestIds := requestIds + {release.requestId};
      expected, released := None, completion;
    }

    /** Lines 131-135. */
    method TakeCalls(completion: Completion) returns (ok: bool)
      modifies this
      ensures ok == Calls(old(View()), completion).Some? && View() == OrSame(old(View()), Calls(old(View()), completion))
    {
      if !(released == Some(completion) && phase == Assessment && |completion.calls| == 1 && toolsAllowed && completion.text == "") {
        return false;
      }
      input, released := input + completion.continuation, None;
      pendingRead := Some(completion.calls[0]);
      return true;
    }

    /** Lines 136-140. */
    method Answer(call: ToolCall, output: string, small: bool) returns (ok: bool)
      modifies this
      ensures ok == Read(old(View()), call, output, small).Some? && View() == OrSame(old(View()), Read(old(View()), call, output, small))
    {
      if pendingRead != Some(call) || !small {
        return false;
      }
      input := input + [FunctionOutput(call.id, output)];
      pendingRead, phase, ready := None, Final, true;
      return true;
    }

    /** Lines 141-147. */
    method AskRepair(completion: Completion) returns (ok: bool)
      modifies this
      ensures ok == Repair(old(View()), completion).Some? && View() == OrSame(old(View()), Repair(old(View()), completion))
    {
      if released != Some(completion) || phase == Repairing || completion.calls != [] {
        return false;
      }
      input := input + completion.continuation + [RepairInstruction];
      released, phase, ready := None, Repairing, true;
      return true;
    }
  }
}
