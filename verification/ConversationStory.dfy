/** The native conversation told again (`experiments/planner-probe/native-transport.ts:108-148`): a history is the two first
    messages and then whole turns, each the released continuation followed by the file's text or the repair instruction. Every
    order of calls tells such a story, and every part of it comes from the call that was accepted for it. */
module ConversationStory {
  import opened Text
  import opened Conversation

  /** A turn that is over: the file was read, or a repair was asked for. */
  datatype Turn = ReadTurn(continuation: seq<Item>, call: ToolCall, output: string) | RepairTurn(continuation: seq<Item>)

  datatype Stage = Idle | Sent(tools: bool) | Answered(tools: bool, completion: Completion) | Calling(continuation: seq<Item>, call: ToolCall)

  /** `ended` and `ids` are the transport's: whether it failed for good, and the request ids it has seen. */
  datatype Story = Story(turns: seq<Turn>, stage: Stage, ended: bool, ids: set<string>)

  function HistoryOf(system: string, user: string, turns: seq<Turn>): seq<Item> {
    if |turns| == 0 then [Developer(system), User(user)]
    else
      HistoryOf(system, user, turns[..|turns| - 1]) +
      match turns[|turns| - 1]
      case ReadTurn(continuation, call, output) => continuation + [FunctionOutput(call.id, output)]
      case RepairTurn(continuation) => continuation + [RepairInstruction]
  }

  function PhaseOf(turns: seq<Turn>): Phase {
    if |turns| == 0 then Assessment else if turns[|turns| - 1].ReadTurn? then Final else Repairing
  }

  /** The state of the conversation and of its transport at that point of the story. */
  ghost predicate Shows(t: Talk, system: string, user: string, s: Story) {
    && t.input == HistoryOf(system, user, s.turns) + (if s.stage.Calling? then s.stage.continuation else [])
    && t.phase == PhaseOf(s.turns) && (t.ready <==> s.stage == Idle)
    && t.expected == (if s.stage.Sent? then Some(Body(t.input, s.stage.tools)) else None)
    && t.released == (if s.stage.Answered? then Some(s.stage.completion) else None)
    && t.pendingRead == (if s.stage.Calling? then Some(s.stage.call) else None)
    && (s.stage.Sent? || s.stage.Answered? ==> t.toolsAllowed == s.stage.tools)
    && t.ended == s.ended && t.requestIds == s.ids
    && AskedFor(t.asked, system, user, s)
  }

  /** One request for every turn and one more while one is open, each with the history of the turns before it. */
  predicate AskedFor(asked: seq<Body>, system: string, user: string, s: Story) {
    && |asked| == |s.turns| + (if s.stage == Idle then 0 else 1)
    && (forall i | 0 <= i < |asked| :: asked[i].history == HistoryOf(system, user, s.turns[..i]) && (i > 0 ==> !asked[i].tools))
  }

  /** At most one read and then at most one repair; what was answered has one call at most, and never text beside a call. */
  predicate Orderly(s: Story) {
    && |s.turns| <= 2 && (forall i | 0 < i < |s.turns| :: s.turns[i].RepairTurn?) && (|s.turns| == 2 ==> s.turns[0].ReadTurn?)
    && (s.stage.Calling? ==> s.turns == [])
    && ((s.stage.Sent? || s.stage.Answered?) && s.stage.tools ==> s.turns == [])
    && (s.stage.Answered? ==> |s.stage.completion.calls| <= (if s.stage.tools then 1 else 0))
    && (s.stage.Answered? && s.stage.completion.calls != [] ==> s.stage.completion.text == "")
  }

  // ---- what an output says ----

  /** Item by item: reasoning, calls and messages are sent back as they came, without their ids. */
  predicate Replays(raw: Raw, item: Item) {
    match raw
    case RawReasoning(_, _, blob) => item == Reasoning(blob)
    case RawCall(_, _, call) => item == FunctionCall(call.id, call.arguments)
    case RawMessage(_, _, text) => item == Message(text)
  }

  predicate CallAlone(output: seq<Raw>, i: int, call: ToolCall) {
    0 <= i < |output| && output[i].RawCall? && output[i].call == call && forall j | 0 <= j < |output| && output[j].RawCall? :: j == i
  }

  /** The completion that a released output stands for: its text is that of its messages, its call the only one. */
  ghost predicate Projects(output: seq<Raw>, tools: bool, c: Completion) {
    && |output| <= 16 && |c.continuation| == |output| && (forall i | 0 <= i < |output| :: Replays(output[i], c.continuation[i]))
    && (forall i | 0 <= i < |output| :: output[i].wellFormed && (output[i].RawCall? ==> tools && output[i].call.permitted))
    && (forall i, k | 0 <= i < k < |output| && output[i].rawId.Some? :: output[i].rawId != output[k].rawId)
    && Texts(output, c.text)
    && (if c.calls == [] then forall i | 0 <= i < |output| :: !output[i].RawCall?
        else c.text == "" && |c.calls| == 1 && exists i :: CallAlone(output, i, c.calls[0]))
  }

  predicate Texts(output: seq<Raw>, text: string)
    decreases |output|
  {
    if |output| == 0 then text == ""
    else
      var own := if output[0].RawMessage? then output[0].text else "";
      own <= text && Texts(output[1..], text[|own|..])
  }

  lemma {:induction false} TextsMore(output: seq<Raw>, last: Raw, text: string)
    requires Texts(output, text)
    ensures Texts(output + [last], text + if last.RawMessage? then last.text else "")
    decreases |output|
  {
    var more := if last.RawMessage? then last.text else "";
    if |output| == 0 {
      assert (output + [last])[1..] == [] && text + more == more && more[|more|..] == "";
    } else {
      var own := if output[0].RawMessage? then output[0].text else "";
      TextsMore(output[1..], last, text[|own|..]);
      assert (output + [last])[1..] == output[1..] + [last] && (output + [last])[0] == output[0];
      PrefixMore(own, text, more);
    }
  }

  lemma PrefixMore(own: string, text: string, more: string)
    requires own <= text
    ensures own <= text + more && (text + more)[|own|..] == text[|own|..] + more
  {
  }

  lemma {:induction false} TextExact(output: seq<Raw>, text: string)
    ensures Texts(output, text) <==> text == TextOf(output)
  {
    TextIs(output);
    if Texts(output, text) {
      OneText(output, text, TextOf(output));
    }
  }

  lemma {:induction false} TextIs(output: seq<Raw>)
    ensures Texts(output, TextOf(output))
  {
    if |output| > 0 {
      var n := |output| - 1;
      TextIs(output[..n]);
      TextsMore(output[..n], output[n], TextOf(output[..n]));
      assert output[..n] + [output[n]] == output;
    }
  }

  lemma {:induction false} OneText(output: seq<Raw>, a: string, b: string)
    requires Texts(output, a) && Texts(output, b)
    ensures a == b
    decreases |output|
  {
    if |output| > 0 {
      var own := if output[0].RawMessage? then output[0].text else "";
      OneText(output[1..], a[|own|..], b[|own|..]);
      assert a == own + a[|own|..] && b == own + b[|own|..];
    }
  }

  lemma {:induction false} CallsExact(output: seq<Raw>)
    ensures CallsOf(output) == [] <==> forall i | 0 <= i < |output| :: !output[i].RawCall?
    ensures forall call :: CallsOf(output) == [call] <==> exists i :: CallAlone(output, i, call)
  {
    if |output| > 0 {
      var n := |output| - 1;
      var init := output[..n];
      CallsExact(init);
      forall call ensures CallsOf(output) == [call] <==> exists i :: CallAlone(output, i, call) {
        if i :| CallAlone(output, i, call) {
          if i < n {
            assert CallAlone(init, i, call);
          }
        }
        if CallsOf(output) == [call] {
          if output[n].RawCall? {
            assert |CallsOf(output)| == |CallsOf(init)| + 1 && CallsOf(output)[|CallsOf(init)|] == output[n].call;
            assert CallsOf(init) == [] && CallAlone(output, n, call);
          } else {
            var i :| CallAlone(init, i, call);
            assert CallAlone(output, i, call);
          }
        }
      }
    }
  }

  /** An output is accepted exactly when it projects to something, and then to what it says. */
  lemma ProjectionExact(output: seq<Raw>, tools: bool, c: Completion)
    ensures Projects(output, tools, c) <==>
              Acceptable(output, tools) && c.text == TextOf(output) && c.calls == CallsOf(output) && c.continuation == ContinuationOf(output)
  {
    hide Texts, TextOf, CallsOf, CallAlone;
    TextExact(output, c.text);
    CallsExact(output);
    if Projects(output, tools, c) && c.calls != [] {
      assert c.calls == [c.calls[0]];
    }
    if Acceptable(output, tools) && c.calls == CallsOf(output) && c.calls != [] {
      assert CallsOf(output) == [c.calls[0]];
    }
  }

  // ---- the story of one call ----

  /** What the call adds to the story, if it is in its place. */
  ghost predicate Tells(system: string, user: string, s: Story, a: Act, next: Story) {
    match a
    case DoAsk(tools) => s.stage == Idle && (s.turns == [] || !tools) && next == s.(stage := Sent(tools))
    case DoComplete(body, tools, release) =>
      && !s.ended && s.stage == Sent(tools) && body == Body(HistoryOf(system, user, s.turns), tools)
      && release.sound && release.requestId !in s.ids
      && next.stage.Answered? && next.stage.tools == tools && next.stage.completion.requestId == release.requestId
      && Projects(release.output, tools, next.stage.completion)
      && next == s.(stage := next.stage, ids := s.ids + {release.requestId})
    case DoCalls(completion) =>
      && s.stage == Answered(true, completion) && |completion.calls| == 1
      && next == s.(stage := Calling(completion.continuation, completion.calls[0]))
    case DoRead(call, output, small) =>
      && s.stage.Calling? && s.stage.call == call && small
      && next == s.(stage := Idle, turns := s.turns + [ReadTurn(s.stage.continuation, call, output)])
    case DoRepair(completion) =>
      && s.stage.Answered? && s.stage.completion == completion && completion.calls == [] && PhaseOf(s.turns) != Repairing
      && next == s.(stage := Idle, turns := s.turns + [RepairTurn(completion.continuation)])
  }

  /** Out of its place it changes nothing, except that a failed completion ends the transport. */
  function Refused(s: Story, a: Act): Story {
    if a.DoComplete? then s.(ended := true) else s
  }

  lemma HistoryMore(system: string, user: string, turns: seq<Turn>, turn: Turn)
    ensures HistoryOf(system, user, turns + [turn]) ==
            HistoryOf(system, user, turns) +
            match turn
            case ReadTurn(continuation, call, output) => continuation + [FunctionOutput(call.id, output)]
            case RepairTurn(continuation) => continuation + [RepairInstruction]
  {
    assert (turns + [turn])[..|turns|] == turns;
  }

  lemma AskedMore(asked: seq<Body>, system: string, user: string, s: Story, turn: Turn)
    requires AskedFor(asked, system, user, s) && s.stage != Idle
    ensures AskedFor(asked, system, user, s.(stage := Idle, turns := s.turns + [turn]))
  {
    hide HistoryOf;
    forall i | 0 <= i < |asked| ensures asked[i].history == HistoryOf(system, user, (s.turns + [turn])[..i]) {
      assert (s.turns + [turn])[..i] == s.turns[..i];
    }
  }

  lemma AskTold(t: Talk, system: string, user: string, s: Story, tools: bool) returns (next: Story)
    requires Shows(t, system, user, s) && Orderly(s)
    ensures Orderly(next) && Shows(Perform(t, DoAsk(tools)), system, user, next)
    ensures Ask(t, tools).Some? ==> Tells(system, user, s, DoAsk(tools), next)
    ensures Ask(t, tools).None? ==> next == s && forall x :: !Tells(system, user, s, DoAsk(tools), x)
  {
    hide HistoryOf;
    next := if Ask(t, tools).Some? then s.(stage := Sent(tools)) else s;
    assert s.turns[..|s.turns|] == s.turns;
    assert HistoryOf(system, user, s.turns) + [] == HistoryOf(system, user, s.turns);
  }

  lemma CompleteTold(t: Talk, system: string, user: string, s: Story, body: Body, tools: bool, release: Release) returns (next: Story)
    requires Shows(t, system, user, s) && Orderly(s)
    ensures Orderly(next) && Shows(Perform(t, DoComplete(body, tools, release)), system, user, next)
    ensures Complete(t, body, tools, release).1.Some? ==>
              && Tells(system, user, s, DoComplete(body, tools, release), next)
              && next.stage == Answered(tools, Complete(t, body, tools, release).1.value)
    ensures Complete(t, body, tools, release).1.None? ==>
              next == s.(ended := true) && forall x :: !Tells(system, user, s, DoComplete(body, tools, release), x)
  {
    hide HistoryOf, Acceptable, Projects, TextOf, CallsOf, ContinuationOf;
    var done := Complete(t, body, tools, release);
    assert HistoryOf(system, user, s.turns) + [] == HistoryOf(system, user, s.turns);
    if done.1.Some? {
      var c := done.1.value;
      next := s.(stage := Answered(tools, c), ids := s.ids + {release.requestId});
      ProjectionExact(release.output, tools, c);
      CallsWhereAllowed(release.output, tools, c);
    } else {
      next := s.(ended := true);
      forall x ensures !Tells(system, user, s, DoComplete(body, tools, release), x) {
        if Tells(system, user, s, DoComplete(body, tools, release), x) {
          ProjectionExact(release.output, tools, x.stage.completion);
        }
      }
    }
  }

  lemma CallsWhereAllowed(output: seq<Raw>, tools: bool, c: Completion)
    requires Projects(output, tools, c)
    ensures |c.calls| <= (if tools then 1 else 0) && (c.calls != [] ==> c.text == "")
  {
    hide Texts;
  }

  lemma CallsTold(t: Talk, system: string, user: string, s: Story, completion: Completion) returns (next: Story)
    requires Shows(t, system, user, s) && Orderly(s)
    ensures Orderly(next) && Shows(Perform(t, DoCalls(completion)), system, user, next)
    ensures Calls(t, completion).Some? ==> Tells(system, user, s, DoCalls(completion), next)
    ensures Calls(t, completion).None? ==> next == s && forall x :: !Tells(system, user, s, DoCalls(completion), x)
  {
    hide HistoryOf;
    next := if Calls(t, completion).Some? then s.(stage := Calling(completion.continuation, completion.calls[0])) else s;
    assert HistoryOf(system, user, s.turns) + [] == HistoryOf(system, user, s.turns);
  }

  lemma ReadTold(t: Talk, system: string, user: string, s: Story, call: ToolCall, output: string, small: bool) returns (next: Story)
    requires Shows(t, system, user, s) && Orderly(s)
    ensures Orderly(next) && Shows(Perform(t, DoRead(call, output, small)), system, user, next)
    ensures Read(t, call, output, small).Some? ==> Tells(system, user, s, DoRead(call, output, small), next)
    ensures Read(t, call, output, small).None? ==> next == s && forall x :: !Tells(system, user, s, DoRead(call, output, small), x)
  {
    hide HistoryOf;
    next := s;
    if Read(t, call, output, small).Some? {
      var turn := ReadTurn(s.stage.continuation, call, output);
      next := s.(stage := Idle, turns := s.turns + [turn]);
      HistoryMore(system, user, s.turns, turn);
      AskedMore(t.asked, system, user, s, turn);
      var input := Perform(t, DoRead(call, output, small)).input;
      assert input == HistoryOf(system, user, s.turns) + s.stage.continuation + [FunctionOutput(call.id, output)];
      assert input == HistoryOf(system, user, next.turns) + [];
    }
  }

  lemma RepairTold(t: Talk, system: string, user: string, s: Story, completion: Completion) returns (next: Story)
    requires Shows(t, system, user, s) && Orderly(s)
    ensures Orderly(next) && Shows(Perform(t, DoRepair(completion)), system, user, next)
    ensures Repair(t, completion).Some? ==> Tells(system, user, s, DoRepair(completion), next)
    ensures Repair(t, completion).None? ==> next == s && forall x :: !Tells(system, user, s, DoRepair(completion), x)
  {
    hide HistoryOf;
    next := s;
    if Repair(t, completion).Some? {
      var turn := RepairTurn(completion.continuation);
      next := s.(stage := Idle, turns := s.turns + [turn]);
      HistoryMore(system, user, s.turns, turn);
      AskedMore(t.asked, system, user, s, turn);
      assert HistoryOf(system, user, s.turns) + [] == HistoryOf(system, user, s.turns);
      assert Perform(t, DoRepair(completion)).input == HistoryOf(system, user, next.turns) + [];
    }
  }

  /** Each call does what the story says, and is refused exactly when the story has no place for it. */
  lemma ActTold(t: Talk, system: string, user: string, s: Story, a: Act) returns (next: Story)
    requires Shows(t, system, user, s) && Orderly(s)
    ensures Orderly(next) && Shows(Perform(t, a), system, user, next)
    ensures Tells(system, user, s, a, next) || (next == Refused(s, a) && forall x :: !Tells(system, user, s, a, x))
  {
    hide Shows, Tells, Orderly, Ask, Complete, Calls, Read, Repair, Perform;
    match a
    case DoAsk(tools) => next := AskTold(t, system, user, s, tools);
    case DoComplete(body, tools, release) => next := CompleteTold(t, system, user, s, body, tools, release);
    case DoCalls(completion) => next := CallsTold(t, system, user, s, completion);
    case DoRead(call, output, small) => next := ReadTold(t, system, user, s, call, output, small);
    case DoRepair(completion) => next := RepairTold(t, system, user, s, completion);
  }

  // ---- where a turn comes from ----

  /** Some call before n completed with this continuation and these calls. */
  ghost predicate ReleasedBy(acts: seq<Act>, n: int, continuation: seq<Item>, calls: seq<ToolCall>) {
    exists i, c :: 0 <= i < n <= |acts| && CompletedAs(acts[i], c) && c.continuation == continuation && c.calls == calls
  }

  ghost predicate CompletedAs(a: Act, c: Completion) {
    a.DoComplete? && a.release.sound && a.release.requestId == c.requestId && Projects(a.release.output, a.tools, c)
  }

  /** A read turn carries the very output of an accepted read, for the call that a completion made before. */
  ghost predicate TurnFrom(acts: seq<Act>, turn: Turn) {
    match turn
    case ReadTurn(continuation, call, output) =>
      exists k :: 0 <= k < |acts| && acts[k] == DoRead(call, output, true) && ReleasedBy(acts, k, continuation, [call])
    case RepairTurn(continuation) => exists k :: 0 <= k < |acts| && acts[k].DoRepair? && ReleasedBy(acts, k, continuation, [])
  }

  ghost predicate StageFrom(acts: seq<Act>, stage: Stage) {
    match stage
    case Answered(_, completion) => ReleasedBy(acts, |acts|, completion.continuation, completion.calls)
    case Calling(continuation, call) => ReleasedBy(acts, |acts|, continuation, [call])
    case _ => true
  }

  ghost predicate TurnsFrom(acts: seq<Act>, turns: seq<Turn>) { forall i | 0 <= i < |turns| :: TurnFrom(acts, turns[i]) }

  lemma ReleasedMore(acts: seq<Act>, a: Act, n: int, continuation: seq<Item>, calls: seq<ToolCall>)
    requires ReleasedBy(acts, n, continuation, calls)
    ensures ReleasedBy(acts + [a], n, continuation, calls)
    ensures ReleasedBy(acts + [a], |acts|, continuation, calls) && ReleasedBy(acts + [a], |acts| + 1, continuation, calls)
  {
    hide CompletedAs;
    var i, c :| 0 <= i < n <= |acts| && CompletedAs(acts[i], c) && c.continuation == continuation && c.calls == calls;
    assert (acts + [a])[i] == acts[i];
  }

  lemma TurnMore(acts: seq<Act>, a: Act, turn: Turn)
    requires TurnFrom(acts, turn)
    ensures TurnFrom(acts + [a], turn)
  {
    hide ReleasedBy;
    match turn
    case ReadTurn(continuation, call, output) =>
      var k :| 0 <= k < |acts| && acts[k] == DoRead(call, output, true) && ReleasedBy(acts, k, continuation, [call]);
      ReleasedMore(acts, a, k, continuation, [call]);
      assert (acts + [a])[k] == acts[k];
    case RepairTurn(continuation) =>
      var k :| 0 <= k < |acts| && acts[k].DoRepair? && ReleasedBy(acts, k, continuation, []);
      ReleasedMore(acts, a, k, continuation, []);
      assert (acts + [a])[k] == acts[k];
  }

  lemma StageMore(acts: seq<Act>, a: Act, stage: Stage)
    requires StageFrom(acts, stage)
    ensures StageFrom(acts + [a], stage)
  {
    hide ReleasedBy;
    match stage
    case Answered(_, completion) => ReleasedMore(acts, a, |acts|, completion.continuation, completion.calls);
    case Calling(continuation, call) => ReleasedMore(acts, a, |acts|, continuation, [call]);
    case _ =>
  }

  lemma TurnsMore(acts: seq<Act>, a: Act, turns: seq<Turn>)
    requires TurnsFrom(acts, turns)
    ensures TurnsFrom(acts + [a], turns)
  {
    hide TurnFrom;
    forall i | 0 <= i < |turns| ensures TurnFrom(acts + [a], turns[i]) {
      TurnMore(acts, a, turns[i]);
    }
  }

  lemma NewTurn(acts: seq<Act>, s: Story, a: Act, turn: Turn)
    requires StageFrom(acts, s.stage)
    requires match a
             case DoRead(call, output, small) => s.stage.Calling? && s.stage.call == call && small && turn == ReadTurn(s.stage.continuation, call, output)
             case DoRepair(completion) => s.stage.Answered? && completion == s.stage.completion && completion.calls == [] && turn == RepairTurn(completion.continuation)
             case _ => false
    ensures TurnFrom(acts + [a], turn)
  {
    hide ReleasedBy;
    var all := acts + [a];
    assert all[|acts|] == a;
    if a.DoRead? {
      ReleasedMore(acts, a, |acts|, s.stage.continuation, [s.stage.call]);
    } else {
      ReleasedMore(acts, a, |acts|, a.completion.continuation, a.completion.calls);
    }
  }

  lemma TellsFrom(system: string, user: string, acts: seq<Act>, s: Story, a: Act, next: Story)
    requires TurnsFrom(acts, s.turns) && StageFrom(acts, s.stage) && Tells(system, user, s, a, next)
    ensures TurnsFrom(acts + [a], next.turns) && StageFrom(acts + [a], next.stage)
  {
    hide TurnFrom, HistoryOf, Projects;
    TurnsMore(acts, a, s.turns);
    StageMore(acts, a, s.stage);
    match a
    case DoAsk(tools) =>
    case DoComplete(body, tools, release) =>
      assert (acts + [a])[|acts|] == a && CompletedAs(a, next.stage.completion);
    case DoCalls(completion) => assert completion.calls == [completion.calls[0]];
    case DoRead(call, output, small) => NewTurn(acts, s, a, ReadTurn(s.stage.continuation, call, output));
    case DoRepair(completion) => NewTurn(acts, s, a, RepairTurn(completion.continuation));
  }

  lemma NothingTold(system: string, user: string)
    ensures Shows(Opened(system, user), system, user, Story([], Idle, false, {})) && Orderly(Story([], Idle, false, {}))
    ensures TurnsFrom([], [])
  {
    assert HistoryOf(system, user, []) + [] == [Developer(system), User(user)];
  }

  /** Whatever the client does, in whatever order, the state shows a story whose parts come from the calls made. */
  lemma {:induction false} EveryRunIsTold(system: string, user: string, acts: seq<Act>) returns (s: Story)
    ensures Orderly(s) && Shows(Talked(system, user, acts), system, user, s) && TurnsFrom(acts, s.turns) && StageFrom(acts, s.stage)
  {
    hide Shows, Orderly, Perform, TurnsFrom, StageFrom, Tells;
    if |acts| == 0 {
      s := Story([], Idle, false, {});
      NothingTold(system, user);
      assert acts == [];
      FreshStage(acts, s.stage);
    } else {
      var n := |acts| - 1;
      var before := EveryRunIsTold(system, user, acts[..n]);
      s := ActTold(Talked(system, user, acts[..n]), system, user, before, acts[n]);
      assert acts[..n] + [acts[n]] == acts;
      if Tells(system, user, before, acts[n], s) {
        TellsFrom(system, user, acts[..n], before, acts[n], s);
      } else {
        TurnsMore(acts[..n], acts[n], before.turns);
        StageMore(acts[..n], acts[n], before.stage);
      }
    }
  }

  lemma FreshStage(acts: seq<Act>, stage: Stage)
    requires stage == Idle
    ensures StageFrom(acts, stage)
  {
  }

  // ---- what the requests carry ----

  /** Every request's history is the two first messages and then the first turns of one and the same story: released
      continuations in order, each followed by the very output that was read or by the repair instruction. */
  lemma HistoriesAreTold(system: string, user: string, acts: seq<Act>) returns (turns: seq<Turn>)
    ensures TurnsFrom(acts, turns) && |turns| <= 2
    ensures (forall i | 0 < i < |turns| :: turns[i].RepairTurn?) && (|turns| == 2 ==> turns[0].ReadTurn?)
    ensures var asked := Talked(system, user, acts).asked;
            && |turns| <= |asked| <= |turns| + 1
            && forall i | 0 <= i < |asked| :: asked[i].history == HistoryOf(system, user, turns[..i])
  {
    hide HistoryOf, TurnsFrom, Talked, StageFrom;
    var s := EveryRunIsTold(system, user, acts);
    turns := s.turns;
  }

  lemma {:induction false} OutputInTurns(system: string, user: string, turns: seq<Turn>, i: int)
    requires 0 <= i < |HistoryOf(system, user, turns)| && HistoryOf(system, user, turns)[i].FunctionOutput?
    requires forall k | 0 <= k < |turns| :: NoOutput(turns[k].continuation)
    ensures exists k :: 0 <= k < |turns| && turns[k].ReadTurn? &&
              HistoryOf(system, user, turns)[i] == FunctionOutput(turns[k].call.id, turns[k].output)
  {
    if |turns| > 0 {
      var n := |turns| - 1;
      var before := HistoryOf(system, user, turns[..n]);
      if i < |before| {
        OutputInTurns(system, user, turns[..n], i);
        var k :| 0 <= k < n && turns[..n][k].ReadTurn? && before[i] == FunctionOutput(turns[..n][k].call.id, turns[..n][k].output);
        assert turns[k] == turns[..n][k];
      } else {
        assert turns[n].ReadTurn? && HistoryOf(system, user, turns)[i] == FunctionOutput(turns[n].call.id, turns[n].output);
      }
    }
  }

  predicate NoOutput(items: seq<Item>) { forall i | 0 <= i < |items| :: !items[i].FunctionOutput? }

  lemma ContinuationsHaveNoOutput(acts: seq<Act>, turn: Turn)
    requires TurnFrom(acts, turn)
    ensures NoOutput(turn.continuation)
  {
    hide Texts, CallAlone;
  }

  /** Whatever answer to a call a request carries, it is the text of an accepted read of that call. */
  lemma OutputsAreReads(system: string, user: string, acts: seq<Act>, i: int, k: int)
    requires var asked := Talked(system, user, acts).asked;
             0 <= i < |asked| && 0 <= k < |asked[i].history| && asked[i].history[k].FunctionOutput?
    ensures var item := Talked(system, user, acts).asked[i].history[k];
            exists call, n :: 0 <= n < |acts| && acts[n] == DoRead(call, item.output, true) && call.id == item.callId
  {
    hide HistoryOf, Talked, TurnFrom;
    var turns := HistoriesAreTold(system, user, acts);
    forall j | 0 <= j < |turns[..i]| ensures NoOutput(turns[..i][j].continuation) {
      ContinuationsHaveNoOutput(acts, turns[j]);
    }
    OutputInTurns(system, user, turns[..i], k);
    var j :| 0 <= j < i && turns[..i][j].ReadTurn? &&
      HistoryOf(system, user, turns[..i])[k] == FunctionOutput(turns[..i][j].call.id, turns[..i][j].output);
    ReadTurnIsRead(acts, turns[j]);
  }

  lemma ReadTurnIsRead(acts: seq<Act>, turn: Turn)
    requires TurnFrom(acts, turn) && turn.ReadTurn?
    ensures exists n :: 0 <= n < |acts| && acts[n] == DoRead(turn.call, turn.output, true)
  {
    hide ReleasedBy;
  }
}
