/** The session object: usage counters, one conversation, and the loop that reads, repairs and proposes
    (`experiments/planner-probe/planner.ts:34-125`). Waiting is a step: every look at the abort signal may find it raised. */
module PlannerSessions {
  import opened Text
  import opened Planner
  import H = History
  import C = Conversation
  import T = ConversationTheorems

  /** The plan a completion carries, if its text is one that may be proposed. */
  function PlanIn(w: World, c: C.Completion, revision: string, fileRead: bool): Option<Plan> {
    var plan := w.plan(c.text);
    if plan.Some? && ValidPlan(plan.value, revision, fileRead) then plan else None
  }

  /** Ids that came through the chat transport have the form of call ids if all of its ids have. */
  ghost predicate CallsNamed(r: H.Rules, w: World, chat: bool, calls: seq<C.ToolCall>) {
    chat && ParsedIds(r, w) ==> forall i | 0 <= i < |calls| :: Named(r, calls[i].id)
  }

  /** The transport's own failure, or an answer that is none for its kind. */
  predicate FailsWith(answer: Answer, code: string) {
    if answer.Failed? then code == answer.code else code == "route_unavailable" || code == "native_boundary_denied"
  }

  class PlannerSession {
    const world: World
    const budget: Budget
    const rules: H.Rules
    const revision: string
    const fileBytes: nat
    ghost const system: string
    ghost const user: string
    var assessments: nat
    var repairs: nat
    var requests: nat
    var files: nat
    var readBytes: nat
    var completions: seq<C.Completion>
    var conversation: Conversation
    var looks: nat
    var result: Option<Result>
    ghost var sent: seq<Sent>

    /** Within the allowance; every request charged, whether it succeeded or not. */
    ghost predicate Counted()
      reads this
    {
      && Allowed(budget)
      && assessments <= budget.assessments && repairs <= budget.repairs && requests <= budget.requests
      && files <= budget.files && readBytes <= budget.readBytes && readBytes == files * fileBytes
      && |sent| == requests && |completions| <= requests && SentGood(rules, world, budget, sent)
      && SentTold(rules, system, user, world.evidence, sent, completions)
    }

    /** The conversation has taken in the first n completions, and no request has failed. */
    ghost predicate TookIn(n: int)
      reads this
    {
      |completions| == requests && 0 <= n <= |completions| &&
      Keeps(rules, system, user, world.evidence, conversation, completions[..n])
    }

    /** Why a request was not sent. */
    ghost predicate NotSent(code: string)
      reads this`completions, this`requests, this`looks, this`conversation, this`files, this`readBytes, this`repairs, this`assessments
    {
      && |completions| == requests
      && match code
         case "cancelled" => looks > 0 && world.aborted(looks - 1)
         case "request_budget_exhausted" => requests >= budget.requests || TooLarge()
         case _ => code == "native_history_denied" && conversation.Native?
    }

    /** The next request would be too large. */
    ghost predicate TooLarge()
      reads this`completions, this`requests, this`looks, this`conversation, this`files, this`readBytes, this`repairs, this`assessments
    {
      exists body :: Carries(rules, system, user, world.evidence, body, completions) && world.size(body) > budget.requestBytes
    }

    /** Why the last request sent, which stays charged, gave no completion. */
    ghost predicate InVain(code: string)
      reads this`completions, this`requests, this`looks, this`conversation, this`files, this`readBytes, this`repairs, this`assessments
    {
      && |completions| + 1 == requests
      && ((code == "cancelled_unknown" && looks > 0 && world.aborted(looks - 1)) || FailsWith(world.answer(requests - 1), code))
    }

    ghost predicate Refuses(completion: C.Completion)
      reads this`completions, this`requests, this`looks, this`conversation, this`files, this`readBytes, this`repairs, this`assessments
    {
      completion.calls == [] && PlanIn(world, completion, revision, files > 0) == None
    }

    /** Why an answered request led no further. */
    ghost predicate LedNowhere(code: string)
      reads this`completions, this`requests, this`looks, this`conversation, this`files, this`readBytes, this`repairs, this`assessments
    {
      && |completions| == requests > 0
      && var last := completions[|completions| - 1];
         match code
         case "invalid_plan" => (last.calls != [] && last.text != "") || (Refuses(last) && repairs == 1)
         case "discovery_denied" => last.calls != [] && (repairs == 1 || exists i :: 0 <= i < |last.calls| && !last.calls[i].permitted)
         case "discovery_budget_exhausted" => last.calls != [] && (files >= budget.files || readBytes + fileBytes > budget.readBytes)
         case _ => code == "native_history_denied" && conversation.Native?
    }

    /** A plan is proposed exactly when the last request was answered with one, and it is that plan; everything else says why
        there is none. */
    ghost predicate Concludes(r: Reply<Result>)
      reads this`completions, this`requests, this`looks, this`conversation, this`files, this`readBytes, this`repairs, this`assessments
    {
      var n := |completions|;
      var plan := if n > 0 && n == requests && completions[n - 1].calls == [] then PlanIn(world, completions[n - 1], revision, files > 0) else None;
      match r
      case Thrown(code) => plan == None && (NotSent(code) || InVain(code) || LedNowhere(code))
      case Good(result) =>
        && result.proposal == plan
        && match plan
           case Some(p) => result.outcome == (if p.unresolved > 0 then "clarification_proposed" else "plan_proposed")
           case None =>
             match result.outcome
             case "assessment_budget_exhausted" => budget.assessments == 0 && requests == 0
             case "cancelled" => assessments == 0 && requests == 0 && looks == 1 && world.aborted(0)
             case _ => result.outcome == "invalid_plan" && budget.repairs == 0 && n == requests > 0 && Refuses(completions[n - 1])
    }

    ghost predicate Steady()
      reads this
    {
      Counted() && Sound(rules, world, conversation, files, repairs)
    }

    constructor (world: World, budget: Budget, rules: H.Rules, revision: string, fileBytes: nat, native: bool, system: string, user: string)
      requires Allowed(budget) && !H.Blank(system) && !H.Blank(user)
      ensures Steady() && result.None? && requests == 0 && this.world == world && this.budget == budget
      ensures assessments == 0 && repairs == 0 && looks == 0 && TookIn(0) && this.system == system && this.user == user
    {
      this.system, this.user := system, user;
      this.world, this.budget, this.rules, this.revision, this.fileBytes := world, budget, rules, revision, fileBytes;
      assessments, repairs, requests, files, readBytes := 0, 0, 0, 0, 0;
      completions, looks, result, sent := [], 0, None, [];
      conversation := if native then Native(C.Opened(system, user)) else Chat([H.System(system), H.User(user)]);
      new;
      if native {
        T.OpenedGood(system, user);
      } else {
        FirstGood(rules, world, system, user);
      }
    }

    method Aborted() returns (b: bool)
      modifies this`looks
      ensures looks == old(looks) + 1 && b == world.aborted(old(looks))
    {
      b := world.aborted(looks);
      looks := looks + 1;
    }

    /** Lines 85-89: the request is charged, sent and answered. */
    method Send(body: Sent, tools: bool) returns (r: Reply<C.Completion>)
      requires Counted() && requests < budget.requests && |completions| == requests
      requires SentGood(rules, world, budget, sent + [body])
      requires SentTold(rules, system, user, world.evidence, sent + [body], completions)
      requires Sound(rules, world, conversation, files, repairs) && TookIn(|completions|)
      modifies this`looks, this`requests, this`sent, this`completions, this`conversation
      ensures Counted() && sent == old(sent) + [body] && requests == old(requests) + 1
      ensures r.Thrown? ==> completions == old(completions) && InVain(r.code)
      ensures r.Good? ==> Sound(rules, world, conversation, files, repairs) && completions == old(completions) + [r.value]
      ensures r.Good? ==> TookIn(|completions| - 1) && CallsNamed(rules, world, conversation.Chat?, r.value.calls)
      ensures r.Good? && conversation.Chat? ==>
                && world.answer(requests - 1).Streamed?
                && r.value.calls == world.answer(requests - 1).calls && r.value.text == world.answer(requests - 1).text
    {
      hide Sound, SentGood, SentTold, Keeps, Carries, Asked, Finished, FailsWith, CallsNamed;
      var n := requests;
      requests, sent := requests + 1, sent + [body];
      var finished := Finished(conversation, body, tools, world.answer(n));
      FinishSound(rules, world, conversation, body, tools, world.answer(n), files, repairs);
      FinishKeeps(rules, system, user, world.evidence, conversation, body, tools, world.answer(n), completions);
      FinishedIs(rules, world, conversation, body, tools, n);
      conversation := finished.0;
      if finished.1.Thrown? {
        return Thrown(finished.1.code);
      }
      var stop := Aborted();
      if stop {
        return Thrown("cancelled_unknown");
      }
      OneMore(rules, system, user, world.evidence, sent, completions, finished.1.value);
      ghost var earlier := completions;
      completions := completions + [finished.1.value];
      assert completions[..|completions| - 1] == earlier == earlier[..|earlier|];
      return finished.1;
    }

    /** Lines 80-90. */
    method Complete(tools: bool) returns (r: Reply<C.Completion>)
      requires Steady() && (requests > 0 ==> !tools) && TookIn(|completions|)
      modifies this`looks, this`requests, this`sent, this`completions, this`conversation
      ensures Counted() && requests >= old(requests)
      ensures r.Thrown? ==> completions == old(completions) && ((requests == old(requests) && NotSent(r.code)) || InVain(r.code))
      ensures r.Good? ==> requests == old(requests) + 1
      ensures old(requests) == 0 && requests > 0 ==> ToolsOf(sent[0]) == tools
      ensures old(sent) <= sent
      ensures r.Good? ==> Sound(rules, world, conversation, files, repairs) && completions == old(completions) + [r.value] && requests > 0
      ensures r.Good? ==> TookIn(|completions| - 1) && CallsNamed(rules, world, conversation.Chat?, r.value.calls)
      ensures r.Good? && conversation.Chat? ==>
                && requests > 0 && world.answer(requests - 1).Streamed?
                && r.value.calls == world.answer(requests - 1).calls && r.value.text == world.answer(requests - 1).text
    {
      hide Sound, SentGood, SentTold, Keeps, Carries, Asked, Finished, FailsWith, CallsNamed;
      var stop := Aborted();
      if stop {
        return Thrown("cancelled");
      }
      if requests >= budget.requests {
        return Thrown("request_budget_exhausted");
      }
      var asked := Asked(conversation, tools);
      OnlyNativeDenies(conversation, tools);
      if asked.None? {
        return Thrown("native_history_denied");
      }
      ghost var before := conversation;
      conversation := asked.value.0;
      var body := asked.value.1;
      AskedCarries(rules, system, user, world.evidence, before, tools, completions);
      if world.size(body) > budget.requestBytes {
        return Thrown("request_budget_exhausted");
      }
      AskSound(rules, world, before, tools, files, repairs);
      SendGood(rules, world, budget, sent, body, tools);
      SendTold(rules, system, user, world.evidence, before, tools, sent, completions);
      r := Send(body, tools);
    }

    /** Lines 98-107: one round of calls, each answered in turn. */
    method ReadAll(completion: C.Completion) returns (r: Reply<()>)
      requires Steady() && |completion.calls| > 0
      requires |completions| > 0 && completion == completions[|completions| - 1] && TookIn(|completions| - 1)
      requires CallsNamed(rules, world, conversation.Chat?, completion.calls)
      modifies this`conversation, this`files, this`readBytes
      ensures Counted()
      ensures r.Good? ==> Steady() && files > old(files) && TookIn(|completions|)
      ensures r.Thrown? ==> LedNowhere(r.code)
    {
      hide Sound, H.GoodHistory, C.Good, C.Calls, C.Read, SentGood, ChatHistory, NativeHistory, SentTold, Keeps;
      if completion.text != "" {
        return Thrown("invalid_plan");
      }
      ghost var before := conversation;
      var took := TookCalls(rules, conversation, completion);
      if took.None? {
        return Thrown("native_history_denied");
      }
      conversation := took.value;
      ghost var start := conversation;
      var i := 0;
      while i < |completion.calls|
        invariant 0 <= i <= |completion.calls| && files == old(files) + i && Counted()
        invariant i == 0 ==> conversation == start
        invariant i == 1 ==> completion.calls[0].permitted && TookRead(start, completion.calls[0], world.evidence, world.small) == Some(conversation)
      {
        var call := completion.calls[i];
        if !call.permitted {
          return Thrown("discovery_denied");
        }
        if files >= budget.files || readBytes + fileBytes > budget.readBytes {
          return Thrown("discovery_budget_exhausted");
        }
        files, readBytes := files + 1, readBytes + fileBytes;
        var read := TookRead(conversation, call, world.evidence, world.small);
        if read.None? {
          return Thrown("native_history_denied");
        }
        conversation := read.value;
        i := i + 1;
      }
      ReadSound(rules, world, before, completion, repairs);
      ReadKept(rules, system, user, world.evidence, before, completions, world.small);
      return Good(());
    }

    /** Lines 115-118. */
    method RepairOnce(completion: C.Completion) returns (r: Reply<Plan>)
      requires Steady() && repairs == 0 && budget.repairs > 0 && requests > 0 && completion.calls == []
      requires |completions| > 0 && completion == completions[|completions| - 1] && TookIn(|completions| - 1)
      modifies this`looks, this`requests, this`sent, this`completions, this`conversation, this`repairs
      requires Refuses(completion)
      ensures Counted() && old(sent) <= sent
      ensures r.Thrown? ==>
                && (NotSent(r.code) || InVain(r.code) || LedNowhere(r.code))
                && (|completions| == requests && completions[|completions| - 1].calls == [] ==> Refuses(completions[|completions| - 1]))
      ensures r.Good? ==> |completions| == requests
      ensures r.Good? ==> |completions| > 0 && completions[|completions| - 1].calls == [] &&
                          PlanIn(world, completions[|completions| - 1], revision, files > 0) == Some(r.value)
    {
      hide Sound, H.GoodHistory, C.Good, C.Repair, SentGood, ValidPlan, ChatHistory, NativeHistory, SentTold, Keeps;
      ghost var before := conversation;
      repairs := repairs + 1;
      var took := TookRepair(conversation, completion);
      if took.None? {
        return Thrown("native_history_denied");
      }
      RepairSound(rules, world, before, completion, files);
      RepairKept(rules, system, user, world.evidence, before, completions);
      conversation := took.value;
      var again := Complete(false);
      if again.Thrown? {
        return Thrown(again.code);
      }
      if again.value.calls != [] {
        return Thrown("discovery_denied");
      }
      var plan := PlanIn(world, again.value, revision, files > 0);
      return if plan.Some? then Good(plan.value) else Thrown("invalid_plan");
    }

    /** Lines 97-108: one round of the loop. */
    method ReadOn(completion: C.Completion) returns (r: Reply<C.Completion>)
      requires Steady() && |completion.calls| > 0 && requests > 0
      requires |completions| > 0 && completion == completions[|completions| - 1] && TookIn(|completions| - 1)
      requires CallsNamed(rules, world, conversation.Chat?, completion.calls)
      modifies this`looks, this`requests, this`sent, this`completions, this`conversation, this`files, this`readBytes
      ensures Counted() && old(sent) <= sent
      ensures r.Thrown? ==> requests > 0 && (|completions| == requests ==> completions[|completions| - 1].calls != [])
      ensures r.Thrown? ==> NotSent(r.code) || InVain(r.code) || LedNowhere(r.code)
      ensures r.Good? ==>
                && Steady() && requests > 0 && files > old(files) && |completions| > 0 && r.value == completions[|completions| - 1]
                && TookIn(|completions| - 1) && CallsNamed(rules, world, conversation.Chat?, r.value.calls)
    {
      hide Sound, SentGood, ValidPlan, SentTold, Keeps, CallsNamed;
      var read := ReadAll(completion);
      if read.Thrown? {
        return Thrown(read.code);
      }
      r := Complete(false);
    }

    /** Lines 109-120: the plan of a completion without calls, or of its one repair. */
    method Propose(completion: C.Completion) returns (r: Reply<Result>)
      requires Steady() && repairs == 0 && requests > 0 && completion.calls == []
      requires |completions| > 0 && completion == completions[|completions| - 1] && TookIn(|completions| - 1)
      modifies this`looks, this`requests, this`sent, this`completions, this`conversation, this`repairs
      ensures Counted() && Concludes(r) && old(sent) <= sent
    {
      hide Sound, SentGood, ValidPlan, SentTold, Keeps, CallsNamed;
      var plan := PlanIn(world, completion, revision, files > 0);
      if plan.None? {
        if budget.repairs == 0 {
          return Good(Result("invalid_plan", None));
        }
        var repaired := RepairOnce(completion);
        if repaired.Thrown? {
          return Thrown(repaired.code);
        }
        plan := Some(repaired.value);
      }
      return Good(Result(if plan.value.unresolved > 0 then "clarification_proposed" else "plan_proposed", plan));
    }

    /** The first request offers the file where it may still be read; schema 1 offers it always. */
    predicate FirstTools() {
      rules.second ==> budget.files > 0 && fileBytes <= budget.readBytes
    }

    lemma ThrownConcludes(code: string)
      requires NotSent(code) || InVain(code) || LedNowhere(code)
      requires |completions| == requests > 0 ==> completions[|completions| - 1].calls != [] || Refuses(completions[|completions| - 1])
      ensures Concludes(Thrown(code))
    {
      hide NotSent, InVain, LedNowhere;
    }

    lemma NothingSent(r: Result)
      requires requests == 0 && |completions| == 0 && r.proposal == None
      requires (r.outcome == "assessment_budget_exhausted" && budget.assessments == 0) ||
               (r.outcome == "cancelled" && assessments == 0 && looks == 1 && world.aborted(0))
      ensures Concludes(Good(r))
    {
    }

    /** Lines 91-120, up to what is thrown. */
    method Attempt() returns (r: Reply<Result>)
      requires Steady() && requests == 0 && assessments == 0 && repairs == 0 && looks == 0 && TookIn(0)
      modifies this`looks, this`assessments, this`repairs, this`requests, this`files, this`readBytes, this`sent, this`completions, this`conversation
      ensures Counted() && Concludes(r)
      ensures requests > 0 ==> assessments == 1 && ToolsOf(sent[0]) == FirstTools()
    {
      hide Sound, SentGood, ValidPlan, SentTold, Keeps, CallsNamed, NotSent, InVain, LedNowhere, Concludes, Refuses;
      if budget.assessments == 0 {
        NothingSent(Result("assessment_budget_exhausted", None));
        return Good(Result("assessment_budget_exhausted", None));
      }
      var stop := Aborted();
      if stop {
        NothingSent(Result("cancelled", None));
        return Good(Result("cancelled", None));
      }
      assessments := assessments + 1;
      var done := Complete(!rules.second || (budget.files > 0 && budget.readBytes >= fileBytes));
      if done.Thrown? {
        ThrownConcludes(done.code);
        return Thrown(done.code);
      }
      var completion := done.value;
      while |completion.calls| > 0
        invariant Steady() && repairs == 0 && requests > 0 && |completions| > 0 && completion == completions[|completions| - 1]
        invariant TookIn(|completions| - 1) && assessments == 1 && ToolsOf(sent[0]) == FirstTools()
        invariant CallsNamed(rules, world, conversation.Chat?, completion.calls)
        decreases budget.files - files
      {
        done := ReadOn(completion);
        if done.Thrown? {
          ThrownConcludes(done.code);
          return Thrown(done.code);
        }
        completion := done.value;
      }
      r := Propose(completion);
    }

    /** What was thrown is the outcome, unless the time was up. */
    predicate Reports(attempt: Reply<Result>, r: Result) {
      match attempt
      case Good(value) => r == value
      case Thrown(code) => r == Result(if world.timedOut then "time_budget_exhausted_unknown" else code, None)
    }

    /** `run`: the first call executes, every later one returns the same result and spends nothing. It always ends, within
        every allowance; each request sent was charged and small enough, a chat request has at most six messages and passes the
        history check if the transport gives call ids; and what is proposed is a plan that the last completion carried, for
        this very revision, citing the file only if it was read. */
    method Run() returns (r: Result)
      requires result.None? ==> Steady() && requests == 0 && assessments == 0 && repairs == 0 && looks == 0 && TookIn(0)
      requires result.Some? ==> Counted()
      modifies this
      ensures Counted() && result == Some(r)
      ensures old(result).Some? ==> Some(r) == old(result) && sent == old(sent) && requests == old(requests)
      ensures old(result).None? ==> exists attempt :: Concludes(attempt) && Reports(attempt, r)
      ensures old(result).None? && requests > 0 ==> assessments == 1 && ToolsOf(sent[0]) == FirstTools()
    {
      hide SentGood, ValidPlan, SentTold, Keeps, Concludes, Sound;
      if result.Some? {
        return result.value;
      }
      var attempt := Attempt();
      if attempt.Thrown? {
        r := Result(if world.timedOut then "time_budget_exhausted_unknown" else attempt.code, None);
      } else {
        r := attempt.value;
      }
      result := Some(r);
      assert Concludes(attempt) && Reports(attempt, r);
    }
  }

  lemma FirstGood(r: H.Rules, w: World, system: string, user: string)
    requires !H.Blank(system) && !H.Blank(user)
    ensures Sound(r, w, Chat([H.System(system), H.User(user)]), 0, 0)
  {
    var ms := [H.System(system), H.User(user)];
    assert ms[..1] == [H.System(system)] && ms[..0] == [];
    NoCallsCalled(ms[0]);
    NoCallsCalled(ms[1]);
    H.NothingYet();
    H.MoreOf(ms, 0);
    H.MoreOf(ms, 1);
    assert ms[..2] == ms;
  }

  lemma AskSound(r: H.Rules, w: World, cv: Conversation, tools: bool, files: nat, repairs: nat)
    requires Sound(r, w, cv, files, repairs) && Asked(cv, tools).Some? && files <= 1 && repairs <= 1
    ensures var asked := Asked(cv, tools).value;
            && Sound(r, w, asked.0, files, repairs) && ToolsOf(asked.1) == tools
            && (asked.1.SentChat? ==> |asked.1.messages| <= LONGEST && (ParsedIds(r, w) ==> H.GoodHistory(r, asked.1.messages)))
            && (asked.1.SentNative? ==> C.Settled(asked.1.body.history))
            && (asked.0.Chat? <==> cv.Chat?) && (cv.Chat? ==> asked.0 == cv)
  {
    hide H.GoodHistory, C.Good, C.Settled;
    if cv.Native? {
      T.AskKeeps(cv.talk, tools);
      SettledWhenAsked(cv.talk, tools);
    }
  }

  lemma SettledWhenAsked(t: C.Talk, tools: bool)
    requires C.Good(t) && C.Ask(t, tools).Some?
    ensures C.Settled(t.input)
  {
    hide C.Settled, C.Chain, C.AskedGood, C.CallCount, C.OutputCount, C.RepairCount;
  }

  lemma SendGood(r: H.Rules, w: World, b: Budget, sent: seq<Sent>, body: Sent, tools: bool)
    requires SentGood(r, w, b, sent) && w.size(body) <= b.requestBytes && ToolsOf(body) == tools && (|sent| > 0 ==> !tools)
    requires body.SentChat? ==> |body.messages| <= LONGEST && (ParsedIds(r, w) ==> H.GoodHistory(r, body.messages))
    requires body.SentNative? ==> C.Settled(body.body.history)
    ensures SentGood(r, w, b, sent + [body])
  {
    hide H.GoodHistory, C.Settled;
  }

  lemma FinishSound(r: H.Rules, w: World, cv: Conversation, body: Sent, tools: bool, answer: Answer, files: nat, repairs: nat)
    requires Sound(r, w, cv, files, repairs)
    ensures Sound(r, w, Finished(cv, body, tools, answer).0, files, repairs)
    ensures Finished(cv, body, tools, answer).0.Chat? == cv.Chat?
  {
    hide H.GoodHistory, C.Good, C.Complete;
    if cv.Native? {
      if answer.Released? && body.SentNative? {
        T.CompleteKeeps(cv.talk, body.body, tools, answer.release);
      } else {
        EndedGood(cv.talk);
      }
    }
  }

  lemma EndedGood(t: C.Talk)
    requires C.Good(t)
    ensures C.Good(t.(ended := true))
  {
    hide C.Settled, C.Chain, C.AskedGood, C.CallCount, C.OutputCount, C.RepairCount;
  }

  lemma ReadSound(r: H.Rules, w: World, cv: Conversation, completion: C.Completion, repairs: nat)
    requires Sound(r, w, cv, 0, repairs) && |completion.calls| == 1 && completion.calls[0].permitted && repairs <= 1
    requires cv.Chat? && ParsedIds(r, w) ==> Named(r, completion.calls[0].id)
    requires TookCalls(r, cv, completion).Some?
    requires TookRead(TookCalls(r, cv, completion).value, completion.calls[0], w.evidence, w.small).Some?
    ensures Sound(r, w, TookRead(TookCalls(r, cv, completion).value, completion.calls[0], w.evidence, w.small).value, 1, repairs)
  {
    hide H.GoodHistory, C.Good, C.Calls, C.Read, H.Called;
    match cv
    case Chat(ms) =>
      if ParsedIds(r, w) {
        CallRefsAre(r, completion.calls);
        CallTurnGood(r, ms, completion.calls[0].id, w.evidence);
      }
    case Native(talk) =>
      T.CallsKeeps(talk, completion);
      T.ReadKeeps(C.Calls(talk, completion).value, completion.calls[0], w.evidence, w.small);
  }

  lemma RepairSound(r: H.Rules, w: World, cv: Conversation, completion: C.Completion, files: nat)
    requires Sound(r, w, cv, files, 0) && files <= 1 && TookRepair(cv, completion).Some?
    ensures Sound(r, w, TookRepair(cv, completion).value, files, 1)
  {
    match cv
    case Chat(ms) =>
      if ParsedIds(r, w) {
        RepairTurnGood(r, ms, completion.text);
      }
    case Native(talk) => T.RepairKeeps(talk, completion);
  }

  // ---- what the requests carry ----

  lemma SendTold(r: H.Rules, system: string, user: string, evidence: string, cv: Conversation, tools: bool, sent: seq<Sent>, cs: seq<C.Completion>)
    requires Keeps(r, system, user, evidence, cv, cs[..|cs|]) && |cs| == |sent| && Asked(cv, tools).Some?
    requires SentTold(r, system, user, evidence, sent, cs)
    ensures SentTold(r, system, user, evidence, sent + [Asked(cv, tools).value.1], cs)
    ensures Keeps(r, system, user, evidence, Asked(cv, tools).value.0, cs[..|cs|])
  {
    hide ChatHistory, NativeHistory;
    assert cs[..|cs|] == cs;
  }

  lemma FinishedIs(r: H.Rules, w: World, cv: Conversation, sent: Sent, tools: bool, n: nat)
    ensures var done := Finished(cv, sent, tools, w.answer(n));
            && (done.1.Thrown? ==> FailsWith(w.answer(n), done.1.code))
            && (done.1.Good? ==> CallsNamed(r, w, cv.Chat?, done.1.value.calls))
            && (done.1.Good? && cv.Chat? ==>
                  w.answer(n).Streamed? && done.1.value.calls == w.answer(n).calls && done.1.value.text == w.answer(n).text)
  {
    hide C.Complete, Named;
  }

  lemma OnlyNativeDenies(cv: Conversation, tools: bool)
    ensures Asked(cv, tools).None? ==> cv.Native?
  {
  }

  lemma AskedCarries(r: H.Rules, system: string, user: string, evidence: string, cv: Conversation, tools: bool, cs: seq<C.Completion>)
    requires Keeps(r, system, user, evidence, cv, cs[..|cs|]) && Asked(cv, tools).Some?
    ensures Carries(r, system, user, evidence, Asked(cv, tools).value.1, cs)
  {
    hide ChatHistory, NativeHistory;
    assert cs[..|cs|] == cs;
  }

  lemma FinishKeeps(r: H.Rules, system: string, user: string, evidence: string, cv: Conversation, sent: Sent, tools: bool, answer: Answer,
      cs: seq<C.Completion>)
    requires Keeps(r, system, user, evidence, cv, cs[..|cs|])
    ensures Keeps(r, system, user, evidence, Finished(cv, sent, tools, answer).0, cs[..|cs|])
  {
    hide ChatHistory, NativeHistory, C.Acceptable;
  }

  lemma OneMore(r: H.Rules, system: string, user: string, evidence: string, sent: seq<Sent>, cs: seq<C.Completion>, c: C.Completion)
    requires SentTold(r, system, user, evidence, sent, cs) && |sent| == |cs| + 1
    ensures SentTold(r, system, user, evidence, sent, cs + [c])
  {
    hide Carries;
    forall i | 0 <= i < |sent| ensures Carries(r, system, user, evidence, sent[i], (cs + [c])[..i]) {
      assert (cs + [c])[..i] == cs[..i];
    }
  }

  lemma ReadKept(r: H.Rules, system: string, user: string, evidence: string, cv: Conversation, cs: seq<C.Completion>, small: bool)
    requires |cs| > 0 && Keeps(r, system, user, evidence, cv, cs[..|cs| - 1]) && |cs[|cs| - 1].calls| == 1
    requires TookCalls(r, cv, cs[|cs| - 1]).Some?
    requires TookRead(TookCalls(r, cv, cs[|cs| - 1]).value, cs[|cs| - 1].calls[0], evidence, small).Some?
    ensures var after := TookRead(TookCalls(r, cv, cs[|cs| - 1]).value, cs[|cs| - 1].calls[0], evidence, small).value;
            Keeps(r, system, user, evidence, after, cs[..|cs|])
  {
    hide Named, H.Blank;
    assert cs[..|cs|] == cs;
    var c := cs[|cs| - 1];
    match cv
    case Chat(ms) =>
      assert CallRefs(r, c.calls) == [H.CallRef(c.calls[0].id, Named(r, c.calls[0].id) && c.calls[0].permitted)];
      var said, tool := H.Assistant(None, Some(CallRefs(r, c.calls))), H.Tool(c.calls[0].id, evidence);
      assert ms + [said] + [tool] == ms + [said, tool];
    case Native(talk) =>
      var output := C.FunctionOutput(c.calls[0].id, evidence);
      assert talk.input + c.continuation + [output] == talk.input + (c.continuation + [output]);
  }

  lemma RepairKept(r: H.Rules, system: string, user: string, evidence: string, cv: Conversation, cs: seq<C.Completion>)
    requires |cs| > 0 && Keeps(r, system, user, evidence, cv, cs[..|cs| - 1]) && cs[|cs| - 1].calls == []
    requires TookRepair(cv, cs[|cs| - 1]).Some?
    ensures Keeps(r, system, user, evidence, TookRepair(cv, cs[|cs| - 1]).value, cs[..|cs|])
  {
    hide H.Blank;
    assert cs[..|cs|] == cs;
    var c := cs[|cs| - 1];
    match cv
    case Chat(ms) =>
      var said := if H.Blank(c.text) then [] else [H.Assistant(Some(c.text), None)];
      assert ms + said + [H.User(REPAIR)] == ms + (said + [H.User(REPAIR)]);
    case Native(talk) =>
      assert talk.input + c.continuation + [C.RepairInstruction] == talk.input + (c.continuation + [C.RepairInstruction]);
  }
}
