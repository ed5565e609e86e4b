/** The planner session (`experiments/planner-probe/planner.ts:19-125`) against any transport: what it may spend, what it may
    ask, what it may propose. The world's answers, clock and sizes are arbitrary functions. */
module Planner {
  import opened Text
  import H = History
  import C = Conversation

  // ---- plans ----

  datatype PlanStep = PlanStep(id: string, criterionIds: seq<string>, refs: seq<string>)

  /** A text that parsed and met the schema. */
  datatype Plan = Plan(revision: string, criteria: seq<string>, steps: seq<PlanStep>, otherRefs: seq<string>, unresolved: nat)

  const FIXTURE := "fixture.txt"

  predicate DistinctNames(names: seq<string>) {
    forall i, k | 0 <= i < k < |names| :: names[i] != names[k]
  }

  predicate DistinctSteps(steps: seq<PlanStep>) {
    forall i, k | 0 <= i < k < |steps| :: steps[i].id != steps[k].id
  }

  /** The checks of `validatePlan` after the schema. */
  predicate ValidPlan(p: Plan, revision: string, fileRead: bool) {
    && p.revision == revision && DistinctNames(p.criteria) && DistinctSteps(p.steps)
    && (forall i | 0 <= i < |p.steps| :: forall k | 0 <= k < |p.steps[i].criterionIds| :: p.steps[i].criterionIds[k] in p.criteria)
    && (fileRead || (FIXTURE !in p.otherRefs && forall i | 0 <= i < |p.steps| :: FIXTURE !in p.steps[i].refs))
  }

  function Elements(names: seq<string>): set<string> { set i | 0 <= i < |names| :: names[i] }

  function StepIds(steps: seq<PlanStep>): (r: seq<string>)
    ensures |r| == |steps| && forall i | 0 <= i < |r| :: r[i] == steps[i].id
  {
    seq(|steps|, i requires 0 <= i < |steps| => steps[i].id)
  }

  lemma ElementsMore(names: seq<string>, last: string)
    ensures Elements(names + [last]) == Elements(names) + {last}
  {
    var all := names + [last];
    forall x | x in Elements(names) + {last} ensures x in Elements(all) {
      if x in Elements(names) {
        var i :| 0 <= i < |names| && names[i] == x;
        assert all[i] == x;
      } else {
        assert all[|names|] == x;
      }
    }
  }

  lemma DistinctMore(names: seq<string>, last: string)
    ensures DistinctNames(names + [last]) <==> DistinctNames(names) && last !in Elements(names)
  {
    var all := names + [last];
    assert forall i | 0 <= i < |names| :: all[i] == names[i];
    if DistinctNames(names) && last !in Elements(names) {
      forall i | 0 <= i < |names| ensures names[i] != last {
        assert names[i] in Elements(names);
      }
    }
    if last in Elements(names) {
      var i :| 0 <= i < |names| && names[i] == last;
      assert all[i] == all[|names|];
    }
  }

  /** As many elements as places means that none repeats. */
  lemma {:induction false} DistinctExact(names: seq<string>)
    ensures |Elements(names)| <= |names|
    ensures |Elements(names)| == |names| <==> DistinctNames(names)
  {
    if |names| > 0 {
      hide Elements, DistinctNames;
      var n := |names| - 1;
      assert names == names[..n] + [names[n]];
      DistinctExact(names[..n]);
      ElementsMore(names[..n], names[n]);
      DistinctMore(names[..n], names[n]);
    }
  }

  /** The plan refers to the file, in a step or elsewhere. */
  predicate Cites(p: Plan) {
    FIXTURE in p.otherRefs || exists step :: step in p.steps && FIXTURE in step.refs
  }

  /** What a valid plan is: for this revision, without repeated criteria or steps, with every step's criteria listed, and citing
      the file only if it was read. */
  lemma PlanExact(p: Plan, revision: string, fileRead: bool)
    ensures ValidPlan(p, revision, fileRead) <==>
              && p.revision == revision && |Elements(p.criteria)| == |p.criteria| && |Elements(StepIds(p.steps))| == |p.steps|
              && (forall step, id | step in p.steps && id in step.criterionIds :: id in p.criteria)
              && (Cites(p) ==> fileRead)
  {
    hide Elements;
    DistinctExact(p.criteria);
    DistinctExact(StepIds(p.steps));
    StepsDistinct(p.steps);
    assert Cites(p) <==> FIXTURE in p.otherRefs || exists i :: 0 <= i < |p.steps| && FIXTURE in p.steps[i].refs;
  }

  lemma StepsDistinct(steps: seq<PlanStep>)
    ensures DistinctSteps(steps) <==> DistinctNames(StepIds(steps))
  {
    var ids := StepIds(steps);
    if DistinctNames(ids) {
      forall i, k | 0 <= i < k < |steps| ensures steps[i].id != steps[k].id {
        assert ids[i] != ids[k];
      }
    }
  }

  // ---- the world ----

  datatype Budget = Budget(assessments: nat, repairs: nat, requests: nat, files: nat, readBytes: nat, requestBytes: nat)

  /** What the constructor accepts: at most the default allowance. */
  predicate Allowed(b: Budget) {
    b.assessments <= 1 && b.repairs <= 1 && b.requests <= 3 && b.files <= 1 && b.readBytes <= 4096 && 1 <= b.requestBytes <= 32768
  }

  datatype Conversation = Chat(messages: seq<H.Message>) | Native(talk: C.Talk)

  datatype Sent = SentChat(messages: seq<H.Message>, tools: bool) | SentNative(body: C.Body)

  /** How the transport answers one request. */
  datatype Answer =
    | Failed(code: string)
    | Streamed(text: string, calls: seq<C.ToolCall>, requestId: string)
    | Released(release: C.Release)

  /** `aborted(n)` is what the signal says the nth time it is looked at; `answer(n)` what comes back for the nth request. */
  datatype World = World(
    aborted: nat -> bool, size: Sent -> nat, answer: nat -> Answer, plan: string -> Option<Plan>,
    timedOut: bool, evidence: string, small: bool)

  datatype Reply<+T> = Good(value: T) | Thrown(code: string)

  datatype Result = Result(outcome: string, proposal: Option<Plan>)

  const REPAIR := "repair"
  const CALL_PREFIX := "call_"

  /** The system and user message, one call with its answer, and the refused text with the repair instruction. */
  const LONGEST := 6

  /** The history check on a chat request, with every call's id and arguments looked at. */
  predicate ChatAccepted(rules: H.Rules, messages: seq<H.Message>) { H.GoodHistory(rules, messages) }

  /** The form the history check asks of a call's id: `^call_[a-zA-Z0-9_-]{1,64}$`, in schema 2 at most 64 long. */
  predicate Named(r: H.Rules, id: string) {
    && CALL_PREFIX <= id && |CALL_PREFIX| < |id| <= (if r.second then 64 else |CALL_PREFIX| + 64)
    && forall i | |CALL_PREFIX| <= i < |id| :: Alphanumeric(id[i]) || id[i] == '_' || id[i] == '-'
  }

  /** Every id that the chat transport gives in its answers has the form of a call id. */
  ghost predicate ParsedIds(r: H.Rules, w: World) {
    forall n: nat, i | w.answer(n).Streamed? && 0 <= i < |w.answer(n).calls| :: Named(r, w.answer(n).calls[i].id)
  }

  function CallRefs(r: H.Rules, calls: seq<C.ToolCall>): seq<H.CallRef> {
    seq(|calls|, i requires 0 <= i < |calls| => H.CallRef(calls[i].id, Named(r, calls[i].id) && calls[i].permitted))
  }

  // ---- conversations ----

  function Asked(cv: Conversation, tools: bool): Option<(Conversation, Sent)> {
    match cv
    case Chat(messages) => Some((cv, SentChat(messages, tools)))
    case Native(talk) =>
      var next := C.Ask(talk, tools);
      if next.None? then None else Some((Native(next.value), SentNative(C.Body(talk.input, tools))))
  }

  /** `transport.complete`: the chat transport passes on what its parser gave, the native one projects what was released. */
  function Finished(cv: Conversation, sent: Sent, tools: bool, answer: Answer): (Conversation, Reply<C.Completion>) {
    match cv
    case Chat(_) =>
      if answer.Streamed? then (cv, Good(C.Completion(answer.text, answer.calls, answer.requestId, [])))
      else (cv, Thrown(if answer.Failed? then answer.code else "route_unavailable"))
    case Native(talk) =>
      if answer.Released? && sent.SentNative? then
        var done := C.Complete(talk, sent.body, tools, answer.release);
        (Native(done.0), if done.1.Some? then Good(done.1.value) else Thrown("native_boundary_denied"))
      else (Native(talk.(ended := true)), Thrown(if answer.Failed? then answer.code else "native_boundary_denied"))
  }

  function TookCalls(r: H.Rules, cv: Conversation, completion: C.Completion): Option<Conversation> {
    match cv
    case Chat(messages) => Some(Chat(messages + [H.Assistant(None, Some(CallRefs(r, completion.calls)))]))
    case Native(talk) =>
      var next := C.Calls(talk, completion);
      if next.None? then None else Some(Native(next.value))
  }

  function TookRead(cv: Conversation, call: C.ToolCall, output: string, small: bool): Option<Conversation> {
    match cv
    case Chat(messages) => Some(Chat(messages + [H.Tool(call.id, output)]))
    case Native(talk) =>
      var next := C.Read(talk, call, output, small);
      if next.None? then None else Some(Native(next.value))
  }

  function TookRepair(cv: Conversation, completion: C.Completion): Option<Conversation> {
    match cv
    case Chat(messages) =>
      Some(Chat(messages + (if H.Blank(completion.text) then [] else [H.Assistant(Some(completion.text), None)]) + [H.User(REPAIR)]))
    case Native(talk) =>
      var next := C.Repair(talk, completion);
      if next.None? then None else Some(Native(next.value))
  }

  // ---- what the requests carry ----

  /** What one completion adds to the messages: the call with the file's evidence as its answer, or the refused text, unless it
      is blank, with the repair instruction. */
  function ChatTurn(r: H.Rules, evidence: string, c: C.Completion): seq<H.Message> {
    if |c.calls| == 1 then
      var call := c.calls[0];
      [H.Assistant(None, Some([H.CallRef(call.id, Named(r, call.id) && call.permitted)])), H.Tool(call.id, evidence)]
    else (if H.Blank(c.text) then [] else [H.Assistant(Some(c.text), None)]) + [H.User(REPAIR)]
  }

  function NativeTurn(evidence: string, c: C.Completion): seq<C.Item> {
    c.continuation + [if |c.calls| == 1 then C.FunctionOutput(c.calls[0].id, evidence) else C.RepairInstruction]
  }

  function ChatHistory(r: H.Rules, system: string, user: string, evidence: string, cs: seq<C.Completion>): seq<H.Message> {
    if |cs| == 0 then [H.System(system), H.User(user)]
    else ChatHistory(r, system, user, evidence, cs[..|cs| - 1]) + ChatTurn(r, evidence, cs[|cs| - 1])
  }

  function NativeHistory(system: string, user: string, evidence: string, cs: seq<C.Completion>): seq<C.Item> {
    if |cs| == 0 then [C.Developer(system), C.User(user)]
    else NativeHistory(system, user, evidence, cs[..|cs| - 1]) + NativeTurn(evidence, cs[|cs| - 1])
  }

  /** The conversation after these completions. */
  predicate Keeps(r: H.Rules, system: string, user: string, evidence: string, cv: Conversation, cs: seq<C.Completion>) {
    match cv
    case Chat(messages) => messages == ChatHistory(r, system, user, evidence, cs)
    case Native(talk) => talk.input == NativeHistory(system, user, evidence, cs)
  }

  predicate Carries(r: H.Rules, system: string, user: string, evidence: string, s: Sent, cs: seq<C.Completion>) {
    match s
    case SentChat(messages, _) => messages == ChatHistory(r, system, user, evidence, cs)
    case SentNative(body) => body.history == NativeHistory(system, user, evidence, cs)
  }

  /** Each request carries the first messages and the turns of all completions before it, in order. */
  predicate SentTold(r: H.Rules, system: string, user: string, evidence: string, sent: seq<Sent>, cs: seq<C.Completion>) {
    |sent| - 1 <= |cs| <= |sent| && forall i | 0 <= i < |sent| :: Carries(r, system, user, evidence, sent[i], cs[..i])
  }

  // ---- what stays true of a conversation ----

  /** Where no call is open: what a request may be made from. The length is bounded whatever ids the transport gives. */
  ghost predicate Sound(rules: H.Rules, w: World, cv: Conversation, files: nat, repairs: nat) {
    match cv
    case Chat(ms) =>
      && 2 <= |ms| <= 2 + 2 * files + 2 * repairs
      && (ParsedIds(rules, w) ==> H.GoodHistory(rules, ms) && (files == 0 ==> H.Called(ms) == {}))
    case Native(talk) => C.Good(talk)
  }

  ghost predicate SentGood(rules: H.Rules, w: World, b: Budget, sent: seq<Sent>) {
    && (forall i | 0 <= i < |sent| :: w.size(sent[i]) <= b.requestBytes)
    && (forall i | 0 <= i < |sent| :: sent[i].SentChat? ==> |sent[i].messages| <= LONGEST)
    && (ParsedIds(rules, w) ==> forall i | 0 <= i < |sent| :: sent[i].SentChat? ==> ChatAccepted(rules, sent[i].messages))
    && (forall i | 0 < i < |sent| :: !ToolsOf(sent[i]))
    && (forall i | 0 <= i < |sent| :: sent[i].SentNative? ==> C.Settled(sent[i].body.history))
  }

  function ToolsOf(s: Sent): bool {
    match s
    case SentChat(_, tools) => tools
    case SentNative(body) => body.tools
  }

  lemma NoCallsCalled(m: H.Message)
    requires !m.Assistant? || m.calls.None?
    ensures H.Ids(H.CallsOf(m)) == {}
  {
  }

  lemma CallRefsAre(r: H.Rules, calls: seq<C.ToolCall>)
    requires |calls| == 1 && Named(r, calls[0].id) && calls[0].permitted
    ensures CallRefs(r, calls) == [H.CallRef(calls[0].id, true)]
  {
  }

  /** One message more: nothing about the earlier ones changes. */
  lemma HistoryGrows(r: H.Rules, ms: seq<H.Message>, m: H.Message)
    requires 2 <= |ms| < H.MAX_MESSAGES
    requires forall i | 0 <= i < |ms| :: H.Formed(r, ms[i], i == 0, |ms|) && H.Follows(r, ms[..i], ms[i])
    requires H.Formed(r, m, false, |ms| + 1) && H.Follows(r, ms, m)
    ensures var all := ms + [m];
            && (forall i | 0 <= i < |all| :: H.Formed(r, all[i], i == 0, |all|) && H.Follows(r, all[..i], all[i]))
            && H.Called(all) == H.Called(ms) + H.Ids(H.CallsOf(m))
            && H.Answered(all) == H.Answered(ms) + (if m.Tool? then {m.id} else {})
  {
    hide H.Follows, H.Called, H.Answered, H.Blank, H.Ids;
    var all := ms + [m];
    assert all[..|ms|] == ms && all[..|all|] == all;
    H.MoreOf(all, |ms|);
    forall i | 0 <= i < |all| ensures H.Formed(r, all[i], i == 0, |all|) && H.Follows(r, all[..i], all[i]) {
      if i < |ms| {
        assert all[..i] == ms[..i];
        FormedMore(r, ms[i], i == 0, |ms|);
      }
    }
  }

  lemma FormedMore(r: H.Rules, m: H.Message, first: bool, total: nat)
    requires H.Formed(r, m, first, total)
    ensures H.Formed(r, m, first, total + 1)
  {
  }

  /** A call and its answer, after a history without calls. */
  lemma CallTurnGood(r: H.Rules, ms: seq<H.Message>, id: string, output: string)
    requires H.GoodHistory(r, ms) && H.Called(ms) == {} && 2 <= |ms| <= H.MAX_MESSAGES - 2
    ensures H.GoodHistory(r, ms + [H.Assistant(None, Some([H.CallRef(id, true)]))] + [H.Tool(id, output)])
  {
    hide H.Called, H.Answered, H.Blank;
    var call := H.Assistant(None, Some([H.CallRef(id, true)]));
    var tool := H.Tool(id, output);
    assert H.Ids(H.CallsOf(call)) == {id} by {
      assert H.CallsOf(call)[0].id == id;
    }
    assert forall x :: x in H.Answered(ms) ==> x != id by {
      if id in H.Answered(ms) {
        assert ms[..|ms|] == ms;
        H.AnsweredAt(ms, |ms|, id);
        var j :| 0 <= j < |ms| && H.IsAnswer(ms, j, id);
        assert H.Follows(r, ms[..j], ms[j]);
        H.CalledGrow(ms, j, |ms|);
      }
    }
    HistoryGrows(r, ms, call);
    NoCallsCalled(tool);
    HistoryGrows(r, ms + [call], tool);
  }

  /** The repair instruction, after the text that was refused if there was any. */
  lemma RepairTurnGood(r: H.Rules, ms: seq<H.Message>, text: string)
    requires H.GoodHistory(r, ms) && 2 <= |ms| <= H.MAX_MESSAGES - 2
    ensures var after := ms + (if H.Blank(text) then [] else [H.Assistant(Some(text), None)]) + [H.User(REPAIR)];
            H.GoodHistory(r, after) && H.Called(after) == H.Called(ms)
  {
    hide H.Called, H.Answered;
    var user := H.User(REPAIR);
    assert !H.Trimmed(REPAIR[0]);
    NoCallsCalled(user);
    if H.Blank(text) {
      assert ms + [] == ms;
      HistoryGrows(r, ms, user);
    } else {
      var said := H.Assistant(Some(text), None);
      NoCallsCalled(said);
      HistoryGrows(r, ms, said);
      HistoryGrows(r, ms + [said], user);
    }
  }
}
