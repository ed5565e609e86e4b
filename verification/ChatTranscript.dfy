/** Which payloads a stream accepts, and what it then holds, shows and completes with
    (`experiments/inference-boundary/protocol.ts:117-183`), said of the whole list of payloads: messages of which only the last
    has a finish reason, then a usage frame where the profile has one, then the end mark, then its one repetition. */
module ChatTranscript {
  import opened Text
  import opened Json
  import opened ChatModel
  import opened ChatParts

  /** One message as it was sent; no content and empty content are the same. */
  datatype Message = Message(content: Chars, parts: seq<Part>, finish: Option<Finish>)

  /** `tools` are the calls the messages add up to, `ends` counts the end marks. */
  datatype Transcript = Transcript(messages: seq<Message>, tools: map<int, Call>, usage: Option<Usage>, ends: nat)

  const NOTHING := Transcript([], map[], None, 0)

  // ---- one payload ----

  predicate Falsy(c: Config, v: Option<Json>) {
    v == None || v == Some(Null) || v == Some(Bool(false)) || v == Some(Str([])) || IsWhole(c, v, 0)
  }

  predicate ContentSays(v: Option<Json>, content: Chars) {
    if v == None || v == Some(Null) then content == [] else v == Some(Str(content))
  }

  /** Everything of a choice up to its content. */
  predicate OpeningSays(c: Config, choice: Json, content: Chars) {
    && IsWhole(c, Field(choice, INDEX), 0)
    && Field(choice, DELTA).Some? && DeltaSays(Field(choice, DELTA).value, content)
  }

  predicate DeltaSays(delta: Json, content: Chars) {
    && delta.Obj? && (forall m | m in delta.members :: m.key == ROLE || m.key == CONTENT || m.key == TOOL_CALLS)
    && (Field(delta, ROLE) == None || Field(delta, ROLE) == Some(Str(ASSISTANT)))
    && ContentSays(Field(delta, CONTENT), content)
  }

  predicate CallsSay(c: Config, v: Option<Json>, parts: seq<Part>) {
    if v == None then parts == []
    else c.toolsAllowed && v.value.Arr? && |v.value.items| <= 8 && PartsSay(c, v.value.items, parts)
  }

  predicate FinishSays(v: Option<Json>, finish: Option<Finish>) {
    match finish
    case None => v == None || v == Some(Null)
    case Some(Stop) => v == Some(Str(STOP))
    case Some(ToolCalls) => v == Some(Str(TOOL_CALLS))
  }

  predicate OneChoice(c: Config, v: Json) {
    && v.Obj? && Falsy(c, Field(v, ERROR))
    && Field(v, CHOICES).Some? && Field(v, CHOICES).value.Arr? && |Field(v, CHOICES).value.items| == 1
  }

  predicate MessageSays(c: Config, v: Json, m: Message) {
    && OneChoice(c, v)
    && var choice := Field(v, CHOICES).value.items[0];
       && OpeningSays(c, choice, m.content)
       && CallsSay(c, Field(Field(choice, DELTA).value, TOOL_CALLS), m.parts)
       && FinishSays(Field(choice, FINISH_REASON), m.finish)
  }

  predicate CountSays(c: Config, v: Option<Json>, n: int) { IsWhole(c, v, n) && 0 <= n <= 10000000 }

  predicate UsageSays(c: Config, v: Json, u: Usage) {
    && v.Obj? && Falsy(c, Field(v, ERROR)) && Field(v, CHOICES) == Some(Arr([]))
    && Field(v, USAGE).Some? && CountsSay(c, Field(v, USAGE).value, u)
  }

  predicate CountsSay(c: Config, w: Json, u: Usage) {
    && w.Obj? && (forall m | m in w.members :: m.key == PROMPT_TOKENS || m.key == COMPLETION_TOKENS || m.key == TOTAL_TOKENS)
    && CountSays(c, Field(w, PROMPT_TOKENS), u.prompt) && CountSays(c, Field(w, COMPLETION_TOKENS), u.completion)
    && CountSays(c, Field(w, TOTAL_TOKENS), u.total) && u.total == u.prompt + u.completion
  }

  function Parsed(c: Config, text: Chars): Option<Json> { Parse(text, Strict(false, c.finite)) }

  predicate MessageText(c: Config, text: Chars, m: Message) {
    text != DONE && Parsed(c, text).Some? && MessageSays(c, Parsed(c, text).value, m)
  }

  predicate UsageText(c: Config, text: Chars, u: Usage) {
    text != DONE && Parsed(c, text).Some? && UsageSays(c, Parsed(c, text).value, u)
  }

  // ---- all payloads ----

  function AllParts(ms: seq<Message>): seq<Part> {
    if |ms| == 0 then [] else AllParts(ms[..|ms| - 1]) + ms[|ms| - 1].parts
  }

  function LastFinish(ms: seq<Message>): Option<Finish> {
    if |ms| == 0 then None else ms[|ms| - 1].finish
  }

  /** Positions 0 to n-1, with distinct ids of the right form and acceptable arguments; and none at all after a stop. */
  predicate Finishable(c: Config, f: Option<Finish>, tools: map<int, Call>) {
    match f
    case None => false
    case Some(Stop) => tools == map[]
    case Some(ToolCalls) =>
      && |tools| > 0 && (forall i | i in tools :: 0 <= i < |tools|)
      && (forall i | i in tools :: CallId(tools[i].id) && c.argumentsOk(tools[i].name, tools[i].arguments))
      && (forall i, k | i in tools && k in tools && tools[i].id == tools[k].id :: i == k)
  }

  /** The payloads are those of the transcript, in its order. */
  ghost predicate Accepts(c: Config, ps: seq<Chars>, tr: Transcript) {
    var n := |tr.messages|;
    var u := if tr.usage.Some? then 1 else 0;
    && |ps| == n + u + tr.ends && tr.ends <= (if c.terminal == RouterDone then 2 else 1)
    && (forall k | 0 <= k < n :: MessageText(c, ps[k], tr.messages[k]))
    && (forall k | 0 <= k < n - 1 :: tr.messages[k].finish == None)
    && AllInPlace(map[], AllParts(tr.messages)) && Collects(map[], AllParts(tr.messages), tr.tools)
    && (u + tr.ends > 0 ==> LastFinish(tr.messages).Some?)
    && (tr.usage.Some? ==> c.usageFrame && UsageText(c, ps[n], tr.usage.value))
    && (forall k | n + u <= k < |ps| :: ps[k] == DONE)
    && (tr.ends > 0 ==> Finishable(c, LastFinish(tr.messages), tr.tools))
  }

  /** A frame for every content that is not empty. */
  function ContentsOf(c: Config, ms: seq<Message>): Frames {
    if |ms| == 0 then []
    else
      var last := ms[|ms| - 1];
      ContentsOf(c, ms[..|ms| - 1]) + if last.content == [] then [] else [Chunk(c, ContentDelta(last.content), Null)]
  }

  predicate Means(m: Message) { m.content != [] || Meant(m.parts) }

  predicate SomeMeaning(ms: seq<Message>) { exists k :: 0 <= k < |ms| && Means(ms[k]) }

  function CompletionOf(c: Config, f: Finish, tools: map<int, Call>, usage: Option<Usage>): Frames
    requires Finishable(c, Some(f), tools)
    requires usage.Some? ==> usage.value.prompt >= 0 && usage.value.completion >= 0 && usage.value.total >= 0
  {
    (if f == ToolCalls then
       [Chunk(c, Obj([Member(TOOL_CALLS, Arr(seq(|tools|, i requires 0 <= i < |tools| => CallAt(c, tools, i))))]), Null)]
     else [])
    + [Chunk(c, Obj([]), ReasonOf(f))]
    + (if usage.Some? then [DataFrame(Print(UsageJson(c, usage.value)))] else [])
    + [DataFrame(DONE)]
  }

  function CallAt(c: Config, tools: map<int, Call>, i: nat): Json {
    if i in tools then CallJson(c, i, tools[i]) else Null
  }

  /** The state after the payloads of the transcript. */
  ghost predicate Describes(c: Config, tr: Transcript, s: Core) {
    && s.finish == LastFinish(tr.messages) && s.tools == tr.tools && s.usage == tr.usage
    && s.terminal == (tr.ends > 0) && s.duplicateDone == (tr.ends > 1) && s.semantic == SomeMeaning(tr.messages)
    && (if tr.ends == 0 then s.completion == []
        else UsageGood(tr.usage) && Finishable(c, LastFinish(tr.messages), tr.tools) &&
             s.completion == CompletionOf(c, LastFinish(tr.messages).value, tr.tools, tr.usage))
  }

  predicate UsageGood(u: Option<Usage>) {
    u.Some? ==> u.value.prompt >= 0 && u.value.completion >= 0 && u.value.total >= 0
  }

  /** The payloads one after the other, until one is refused. */
  function Run(c: Config, s: Core, ps: seq<Chars>): Step<Core> {
    if |ps| == 0 then Next(s, [], false)
    else
      match Run(c, s, ps[..|ps| - 1])
      case Denied(why, output, semantic) => Denied(why, output, semantic)
      case Next(s', output, semantic) => Then(output, semantic, Payload(c, s', ps[|ps| - 1]))
  }

  // ---- one step ----

  predicate Open(tr: Transcript) { tr.ends == 0 && LastFinish(tr.messages) == None }

  predicate Closed(tr: Transcript) { tr.ends == 0 && LastFinish(tr.messages).Some? }

  ghost predicate AddsMessage(c: Config, tr: Transcript, text: Chars, m: Message, tools: map<int, Call>) {
    && Open(tr) && MessageText(c, text, m)
    && AllInPlace(map[], AllParts(tr.messages) + m.parts) && Collects(map[], AllParts(tr.messages) + m.parts, tools)
  }

  predicate AddsUsage(c: Config, tr: Transcript, text: Chars, u: Usage) {
    c.usageFrame && Closed(tr) && tr.usage == None && UsageText(c, text, u)
  }

  predicate AddsEnd(c: Config, tr: Transcript, text: Chars) {
    Closed(tr) && text == DONE && Finishable(c, LastFinish(tr.messages), tr.tools)
  }

  predicate AddsAgain(c: Config, tr: Transcript, text: Chars) {
    c.terminal == RouterDone && tr.ends == 1 && text == DONE
  }

  lemma NamedOnly(delta: Json, w: Json)
    ensures OnlyKeys(delta, {ROLE, CONTENT, TOOL_CALLS}) <==>
              delta.Obj? && forall m | m in delta.members :: m.key == ROLE || m.key == CONTENT || m.key == TOOL_CALLS
    ensures OnlyKeys(w, {PROMPT_TOKENS, COMPLETION_TOKENS, TOTAL_TOKENS}) <==>
              w.Obj? && forall m | m in w.members :: m.key == PROMPT_TOKENS || m.key == COMPLETION_TOKENS || m.key == TOTAL_TOKENS
  {
    hide ROLE, CONTENT, TOOL_CALLS, PROMPT_TOKENS, COMPLETION_TOKENS, TOTAL_TOKENS;
  }

  lemma TruthyExact(c: Config, v: Option<Json>)
    ensures Truthy(c, v) <==> !Falsy(c, v)
  {
  }

  lemma OpeningExact(c: Config, choice: Json, content: Chars)
    ensures OpeningSays(c, choice, content) <==>
              && ChoiceShape(c, choice)
              && var v := Field(Field(choice, DELTA).value, CONTENT);
                 ContentShape(v) && content == if v.Some? && v.value.Str? then v.value.s else []
  {
    hide Field, OnlyKeys;
    NamedOnly(if Field(choice, DELTA).Some? then Field(choice, DELTA).value else Null, Null);
  }

  lemma FinishExact(kept: Option<Finish>, v: Option<Json>, finish: Option<Finish>)
    ensures FinishSays(v, finish) ==> FinishOf(kept, v) == Some(if finish.Some? then finish else kept)
    ensures FinishOf(kept, v).Some? ==> exists f :: FinishSays(v, f)
  {
    if FinishOf(kept, v).Some? {
      var f := if v == None || v == Some(Null) then None else if v == Some(Str(STOP)) then Some(Stop) else Some(ToolCalls);
      assert FinishSays(v, f);
    }
  }

  /** A payload that says a message, on an open transcript. */
  lemma DeltaAccepts(c: Config, tr: Transcript, s: Core, choice: Json, m: Message)
    requires Describes(c, tr, s) && Open(tr)
    requires AllInPlace(map[], AllParts(tr.messages)) && Collects(map[], AllParts(tr.messages), tr.tools)
    requires OpeningSays(c, choice, m.content) && ChoiceShape(c, choice)
    requires CallsSay(c, Field(Field(choice, DELTA).value, TOOL_CALLS), m.parts)
    requires FinishSays(Field(choice, FINISH_REASON), m.finish)
    ensures var step := Delta(c, s, choice);
            && (step.Next? <==> AllInPlace(map[], AllParts(tr.messages) + m.parts))
            && (step.Next? ==>
                  && Collects(map[], AllParts(tr.messages) + m.parts, step.value.tools)
                  && step.value == s.(tools := step.value.tools, semantic := s.semantic || Means(m), finish := m.finish)
                  && step.output == (if m.content == [] then [] else [Chunk(c, ContentDelta(m.content), Null)])
                  && step.semantic == Means(m))
  {
    hide Field, AllInPlace, Collects, PartSays, AddParts, Chunk, ContentDelta, Meant, OnlyKeys, OpeningSays;
    OpeningExact(c, choice, m.content);
    FinishExact(s.finish, Field(choice, FINISH_REASON), m.finish);
    var calls := Field(Field(choice, DELTA).value, TOOL_CALLS);
    var items := if calls.Some? then calls.value.items else [];
    PartsCollect(c, map[], AllParts(tr.messages), Parts(s.tools, m.content != [], true), items, m.parts);
  }

  lemma DeltaIsSaid(c: Config, s: Core, choice: Json) returns (m: Message)
    requires ChoiceShape(c, choice) && Delta(c, s, choice).Next?
    ensures OpeningSays(c, choice, m.content)
    ensures CallsSay(c, Field(Field(choice, DELTA).value, TOOL_CALLS), m.parts)
    ensures FinishSays(Field(choice, FINISH_REASON), m.finish)
  {
    hide Field, PartsSay, AddParts, Chunk, ContentDelta, OnlyKeys, OpeningSays, FinishOf, FinishSays;
    var delta := Field(choice, DELTA).value;
    var content, calls := Field(delta, CONTENT), Field(delta, TOOL_CALLS);
    var shown := if content.Some? && content.value.Str? then content.value.s else [];
    OpeningExact(c, choice, shown);
    FinishExact(s.finish, Field(choice, FINISH_REASON), None);
    var f :| FinishSays(Field(choice, FINISH_REASON), f);
    var parts: seq<Part> := [];
    if calls.Some? {
      parts := OnlyGoodParts(c, Parts(s.tools, Shown(content), true), calls.value.items);
    }
    m := Message(shown, parts, f);
  }

  lemma ReadUsageExact(c: Config, w: Json, u: Usage)
    ensures CountsSay(c, w, u) <==> ReadUsage(c, w) == Some(u)
  {
    hide Field;
    NamedOnly(Null, w);
  }

  ghost predicate Sound(c: Config, tr: Transcript, s: Core) {
    && Describes(c, tr, s) && AllInPlace(map[], AllParts(tr.messages)) && Collects(map[], AllParts(tr.messages), tr.tools)
    && (tr.usage.Some? || tr.ends > 0 ==> LastFinish(tr.messages).Some?) && UsageGood(tr.usage)
  }

  function After(tr: Transcript, m: Message, tools: map<int, Call>): Transcript {
    tr.(messages := tr.messages + [m], tools := tools)
  }

  lemma AfterMessage(tr: Transcript, m: Message, tools: map<int, Call>)
    ensures var after := After(tr, m, tools);
            && AllParts(after.messages) == AllParts(tr.messages) + m.parts && LastFinish(after.messages) == m.finish
            && (SomeMeaning(after.messages) <==> SomeMeaning(tr.messages) || Means(m))
  {
    hide Means;
    var more := tr.messages + [m];
    assert more[..|tr.messages|] == tr.messages && more[|tr.messages|] == m;
    if SomeMeaning(tr.messages) {
      var k :| 0 <= k < |tr.messages| && Means(tr.messages[k]);
      assert Means(more[k]);
    }
  }

  lemma MessageAccepted(c: Config, tr: Transcript, s: Core, text: Chars, m: Message)
    requires Sound(c, tr, s) && Open(tr) && MessageText(c, text, m)
    ensures var step := Payload(c, s, text);
            && (step.Next? <==> AllInPlace(map[], AllParts(tr.messages) + m.parts))
            && (step.Next? ==>
                  && Collects(map[], AllParts(tr.messages) + m.parts, step.value.tools)
                  && step.value == s.(tools := step.value.tools, semantic := s.semantic || Means(m), finish := m.finish)
                  && step.output == (if m.content == [] then [] else [Chunk(c, ContentDelta(m.content), Null)])
                  && step.semantic == Means(m))
  {
    hide Field, AllInPlace, Collects, PartsSay, Chunk, ContentDelta, Means, Delta, Parse, CallsSay, FinishSays, OpeningSays, Truthy, Falsy,
         ChoiceShape;
    var v := Parsed(c, text).value;
    var choice := Field(v, CHOICES).value.items[0];
    TruthyExact(c, Field(v, ERROR));
    OpeningExact(c, choice, m.content);
    DeltaAccepts(c, tr, s, choice, m);
  }

  /** A message accepted on a sound state leads to a sound state. */
  lemma MessageSound(c: Config, tr: Transcript, s: Core, text: Chars, m: Message)
    requires Sound(c, tr, s) && Open(tr) && MessageText(c, text, m) && Payload(c, s, text).Next?
    ensures Sound(c, After(tr, m, Payload(c, s, text).value.tools), Payload(c, s, text).value)
  {
    hide AllInPlace, Collects, Chunk, ContentDelta, Means, Payload, MessageText, AllParts, SomeMeaning;
    MessageAccepted(c, tr, s, text, m);
    AfterMessage(tr, m, Payload(c, s, text).value.tools);
  }

  lemma UsageAccepted(c: Config, tr: Transcript, s: Core, text: Chars, u: Usage)
    requires Sound(c, tr, s) && AddsUsage(c, tr, text, u)
    ensures Payload(c, s, text) == Next(s.(usage := Some(u)), [], false)
    ensures Sound(c, tr.(usage := Some(u)), Payload(c, s, text).value)
  {
    hide Field, AllInPlace, Collects, Parse, CountsSay, ReadUsage, Truthy, Falsy;
    var v := Parsed(c, text).value;
    TruthyExact(c, Field(v, ERROR));
    ReadUsageExact(c, Field(v, USAGE).value, u);
    assert CountsSay(c, Field(v, USAGE).value, u);
    UsageIsGood(c, Field(v, USAGE).value, u);
  }

  lemma UsageIsGood(c: Config, w: Json, u: Usage)
    requires CountsSay(c, w, u)
    ensures UsageGood(Some(u))
  {
  }

  lemma {:induction false} CallsAt(c: Config, tools: map<int, Call>, n: nat)
    requires forall i | 0 <= i < n :: i in tools
    ensures CallsJson(c, tools, n) == seq(n, i requires 0 <= i < n => CallAt(c, tools, i))
  {
    hide CallJson;
    if n > 0 {
      CallsAt(c, tools, n - 1);
    }
  }

  lemma Positions(tools: map<int, Call>)
    requires forall i | i in tools :: 0 <= i < |tools|
    ensures forall i | 0 <= i < |tools| :: i in tools
  {
    SameSize(tools.Keys, UpTo(|tools|));
  }

  lemma SameSize(a: set<int>, b: set<int>)
    requires a <= b && |a| == |b|
    ensures a == b
  {
    assert |b - a| == |b| - |a|;
  }

  function UpTo(n: nat): (r: set<int>)
    ensures |r| == n && forall i :: i in r <==> 0 <= i < n
  {
    if n == 0 then {} else UpTo(n - 1) + {n - 1}
  }

  lemma FinishableExact(c: Config, s: Core)
    requires s.finish.Some?
    ensures Finished(c, s).Next? <==> Finishable(c, s.finish, s.tools)
    ensures Finished(c, s).Denied? ==> Finished(c, s) == Denied(InvalidStream, [], s.semantic)
  {
    hide Chunk, CallId, DataFrame, UsageFrames;
    if s.finish == Some(ToolCalls) && Finishable(c, s.finish, s.tools) {
      Positions(s.tools);
    }
    if s.finish == Some(ToolCalls) && Finished(c, s).Next? {
      assert forall i | i in s.tools :: 0 <= i < |s.tools|;
    }
  }

  lemma FinishedFrames(c: Config, s: Core)
    requires s.finish.Some? && Finished(c, s).Next? && UsageGood(s.usage) && s.completion == [] && Finishable(c, s.finish, s.tools)
    ensures Finished(c, s) ==
            Next(s.(completion := CompletionOf(c, s.finish.value, s.tools, s.usage), terminal := true), [], false)
  {
    hide Chunk, CallId, DataFrame, CallJson;
    var last, usage := [Chunk(c, Obj([]), ReasonOf(s.finish.value))], UsageFrames(c, s.usage);
    assert s.usage == None ==> usage == [];
    if s.finish == Some(ToolCalls) {
      Positions(s.tools);
      CallsAt(c, s.tools, |s.tools|);
      var first := [Chunk(c, CallsDelta(c, s.tools), Null)];
      assert [] + first + last + usage + [DataFrame(DONE)] == first + last + usage + [DataFrame(DONE)];
    } else {
      assert [] + [] + last + usage + [DataFrame(DONE)] == [] + last + usage + [DataFrame(DONE)];
    }
  }

  lemma EndAccepted(c: Config, tr: Transcript, s: Core, text: Chars)
    requires Sound(c, tr, s) && Closed(tr) && text == DONE
    ensures Payload(c, s, text).Next? <==> AddsEnd(c, tr, text)
    ensures Payload(c, s, text).Next? ==>
              && Payload(c, s, text) == Finished(c, s) && Finished(c, s).output == [] && !Finished(c, s).semantic
              && Sound(c, tr.(ends := 1), Payload(c, s, text).value)
    ensures Payload(c, s, text).Denied? ==> Payload(c, s, text) == Denied(InvalidStream, [], s.semantic)
  {
    hide AllInPlace, Collects, Finishable, Finished, CompletionOf;
    FinishableExact(c, s);
    if Finished(c, s).Next? {
      FinishedFrames(c, s);
    }
  }

  lemma AgainAccepted(c: Config, tr: Transcript, s: Core, text: Chars)
    requires Sound(c, tr, s) && 0 < tr.ends <= 2
    ensures Payload(c, s, text).Next? <==> AddsAgain(c, tr, text)
    ensures Payload(c, s, text).Next? ==>
              && Payload(c, s, text) == Next(s.(duplicateDone := true), [], false)
              && Sound(c, tr.(ends := 2), Payload(c, s, text).value)
    ensures Payload(c, s, text).Denied? ==> Payload(c, s, text) == Denied(InvalidStream, [], s.semantic)
  {
    hide AllInPlace, Collects, Finishable, CompletionOf, Body, Finished;
  }

  /** The transcript after one more accepted payload. */
  ghost predicate Extends(c: Config, tr: Transcript, text: Chars, next: Transcript) {
    || (exists m, tools :: AddsMessage(c, tr, text, m, tools) && next == After(tr, m, tools))
    || (exists u :: AddsUsage(c, tr, text, u) && next == tr.(usage := Some(u)))
    || (AddsEnd(c, tr, text) && next == tr.(ends := 1))
    || (AddsAgain(c, tr, text) && next == tr.(ends := 2))
  }

  lemma FieldOfObject(v: Json, key: Chars)
    ensures Field(v, key).Some? ==> v.Obj?
  {
  }

  lemma OpenBody(c: Config, s: Core, v: Json) returns (m: Message)
    requires s.finish == None && Body(c, s, v).Next?
    ensures MessageSays(c, v, m)
  {
    hide Field, Delta, Truthy, Falsy, OpeningSays, ChoiceShape, CallsSay, FinishSays;
    TruthyExact(c, Field(v, ERROR));
    FieldOfObject(v, CHOICES);
    m := DeltaIsSaid(c, s, Field(v, CHOICES).value.items[0]);
  }

  lemma ClosedBody(c: Config, s: Core, v: Json) returns (u: Usage)
    requires s.finish.Some? && Body(c, s, v).Next?
    ensures c.usageFrame && s.usage == None && UsageSays(c, v, u)
  {
    hide Field, Delta, Truthy, Falsy, ReadUsage, CountsSay, ChoiceShape;
    TruthyExact(c, Field(v, ERROR));
    FieldOfObject(v, CHOICES);
    var w := Field(v, USAGE).value;
    u := ReadUsage(c, w).value;
    ReadUsageExact(c, w, u);
    assert Field(v, CHOICES).value.items == [];
  }

  lemma PayloadSound(c: Config, tr: Transcript, s: Core, text: Chars) returns (next: Transcript)
    requires Sound(c, tr, s) && tr.ends <= 2 && Payload(c, s, text).Next?
    ensures Extends(c, tr, text, next)
  {
    hide AllInPlace, Collects, Body, Parse, MessageSays, UsageSays, Finishable, CompletionOf, Finished;
    if tr.ends > 0 {
      AgainAccepted(c, tr, s, text);
      next := tr.(ends := 2);
    } else if text == DONE {
      EndAccepted(c, tr, s, text);
      next := tr.(ends := 1);
    } else if Open(tr) {
      var m := OpenBody(c, s, Parsed(c, text).value);
      MessageAccepted(c, tr, s, text, m);
      next := After(tr, m, Payload(c, s, text).value.tools);
      assert AddsMessage(c, tr, text, m, Payload(c, s, text).value.tools);
    } else {
      var u := ClosedBody(c, s, Parsed(c, text).value);
      next := tr.(usage := Some(u));
      assert AddsUsage(c, tr, text, u);
    }
  }

  function NewFrames(c: Config, tr: Transcript, next: Transcript): Frames {
    if |next.messages| == 0 || next.messages == tr.messages || LastContent(next) == [] then []
    else [Chunk(c, ContentDelta(LastContent(next)), Null)]
  }

  function LastContent(tr: Transcript): Chars
    requires |tr.messages| > 0
  {
    tr.messages[|tr.messages| - 1].content
  }

  predicate NewMeaning(tr: Transcript, next: Transcript) {
    next.messages != tr.messages && |next.messages| > 0 && Means(next.messages[|next.messages| - 1])
  }

  lemma PayloadComplete(c: Config, tr: Transcript, s: Core, text: Chars, next: Transcript)
    requires Sound(c, tr, s) && Extends(c, tr, text, next)
    ensures Payload(c, s, text).Next? && Sound(c, next, Payload(c, s, text).value)
    ensures Payload(c, s, text).output == NewFrames(c, tr, next) && Payload(c, s, text).semantic == NewMeaning(tr, next)
  {
    hide AllInPlace, Collects, Payload, MessageText, UsageText, Finishable, CompletionOf, Finished, Sound, Means, Chunk, ContentDelta;
    if m, tools :| AddsMessage(c, tr, text, m, tools) && next == After(tr, m, tools) {
      MessageAccepted(c, tr, s, text, m);
      MessageSound(c, tr, s, text, m);
      SameCollected(map[], AllParts(tr.messages) + m.parts, tools, Payload(c, s, text).value.tools);
      assert next.messages[|tr.messages|] == m && |next.messages| == |tr.messages| + 1;
    } else if u :| AddsUsage(c, tr, text, u) && next == tr.(usage := Some(u)) {
      UsageAccepted(c, tr, s, text, u);
    } else if AddsEnd(c, tr, text) && next == tr.(ends := 1) {
      EndAccepted(c, tr, s, text);
    } else {
      AgainAccepted(c, tr, s, text);
    }
  }

  /** The parts leave no choice in what they add up to. */
  lemma SameCollected(before: map<int, Call>, parts: seq<Part>, a: map<int, Call>, b: map<int, Call>)
    requires Collects(before, parts, a) && Collects(before, parts, b)
    ensures a == b
  {
    hide TextAt, NamesCall, Mentions;
    assert forall i :: i in a <==> i in b;
    forall i | i in a ensures a[i] == b[i] {
      if i !in before {
        var k := FirstOf(parts, i);
      }
    }
  }

  lemma {:induction false} FirstOf(parts: seq<Part>, i: int) returns (k: int)
    requires Mentions(parts, i)
    ensures FirstPart(parts, k) && parts[k].index == i
  {
    var n := |parts| - 1;
    assert parts == parts[..n] + [parts[n]];
    MentionsMore(parts[..n], parts[n], i);
    if Mentions(parts[..n], i) {
      k := FirstOf(parts[..n], i);
      assert parts[..n][..k] == parts[..k];
    } else {
      k := n;
    }
  }

  // ---- the whole list ----

  lemma ExtendsIsSound(c: Config, ps: seq<Chars>, tr: Transcript, text: Chars, next: Transcript)
    requires Accepts(c, ps, tr) && Extends(c, tr, text, next)
    ensures Accepts(c, ps + [text], next)
  {
    hide AllInPlace, Collects, MessageText, UsageText, Finishable, AllParts;
    var all := ps + [text];
    assert forall k | 0 <= k < |ps| :: all[k] == ps[k];
    if m, tools :| AddsMessage(c, tr, text, m, tools) && next == After(tr, m, tools) {
      AfterMessage(tr, m, tools);
      assert |ps| == |tr.messages|;
      assert forall k | 0 <= k < |tr.messages| :: next.messages[k] == tr.messages[k];
    }
  }

  /** What was accepted before the last payload. */
  lemma BeforeLast(c: Config, ps: seq<Chars>, next: Transcript) returns (tr: Transcript)
    requires |ps| > 0 && Accepts(c, ps, next)
    ensures Accepts(c, ps[..|ps| - 1], tr) && Extends(c, tr, ps[|ps| - 1], next)
  {
    hide AllInPlace, Collects, MessageText, UsageText, Finishable;
    var n := |next.messages|;
    if next.ends > 0 {
      tr := next.(ends := next.ends - 1);
    } else if next.usage.Some? {
      tr := next.(usage := None);
    } else {
      tr := BeforeMessage(c, ps, next);
    }
  }

  lemma BeforeMessage(c: Config, ps: seq<Chars>, next: Transcript) returns (tr: Transcript)
    requires |ps| > 0 && Accepts(c, ps, next) && next.ends == 0 && next.usage == None
    ensures Accepts(c, ps[..|ps| - 1], tr) && Extends(c, tr, ps[|ps| - 1], next)
  {
    hide AllInPlace, Collects, MessageText, UsageText, Finishable;
    var n := |next.messages| - 1;
    var earlier, m := next.messages[..n], next.messages[n];
    assert next.messages == earlier + [m];
    var tools := PartsSplit(AllParts(earlier), m.parts);
    tr := Transcript(earlier, tools, None, 0);
    assert LastFinish(earlier) == None;
    assert AddsMessage(c, tr, ps[n], m, next.tools);
    assert After(tr, m, next.tools) == next;
  }

  /** The first parts alone add up to something. */
  lemma {:induction false} PartsSplit(a: seq<Part>, b: seq<Part>) returns (tools: map<int, Call>)
    requires AllInPlace(map[], a + b)
    ensures AllInPlace(map[], a) && Collects(map[], a, tools)
    decreases |a|
  {
    hide Mentions, InPlace, TextAt, Collects;
    assert forall k | 0 <= k < |a| :: (a + b)[k] == a[k] && (a + b)[..k] == a[..k];
    forall k | 0 <= k < |a| ensures InPlace(Mentions(a[..k], a[k].index), a[k]) {
      assert (a + b)[k] == a[k] && (a + b)[..k] == a[..k];
    }
    if |a| == 0 {
      tools := map[];
      CollectsNothing(map[]);
      assert a == [];
    } else {
      var n := |a| - 1;
      assert a == a[..n] + [a[n]] && a[..n] + [a[n]] == a;
      var before := PartsSplit(a[..n], [a[n]]);
      assert InPlace(Mentions(a[..n], a[n].index), a[n]);
      tools := OneMore(a[..n], before, a[n]);
    }
  }

  lemma OneMore(parts: seq<Part>, held: map<int, Call>, part: Part) returns (after: map<int, Call>)
    requires Collects(map[], parts, held) && InPlace(Mentions(parts, part.index), part)
    ensures Collects(map[], parts + [part], after)
  {
    hide TextAt;
    var call := if part.index in held then held[part.index] else Call(part.id.value.s, part.name.value.s, []);
    after := held[part.index := call.(arguments := call.arguments + part.text)];
    CollectsMore(map[], parts, held, part, after);
  }

  lemma SoundStart(c: Config)
    ensures Sound(c, NOTHING, START) && Accepts(c, [], NOTHING)
  {
    CollectsNothing(map[]);
  }

  /** Whatever is accepted has a transcript. */
  lemma {:induction false} AcceptedHasTranscript(c: Config, ps: seq<Chars>) returns (tr: Transcript)
    requires Run(c, START, ps).Next?
    ensures Accepts(c, ps, tr)
  {
    hide Payload, Accepts, Sound, Extends;
    if |ps| == 0 {
      SoundStart(c);
      tr := NOTHING;
      assert ps == [];
    } else {
      var n := |ps| - 1;
      var before := AcceptedHasTranscript(c, ps[..n]);
      TranscriptIsAccepted(c, ps[..n], before);
      AtMostTwo(c, ps[..n], before);
      tr := PayloadSound(c, before, Run(c, START, ps[..n]).value, ps[n]);
      ExtendsIsSound(c, ps[..n], before, ps[n], tr);
      assert ps[..n] + [ps[n]] == ps;
    }
  }

  lemma AtMostTwo(c: Config, ps: seq<Chars>, tr: Transcript)
    requires Accepts(c, ps, tr)
    ensures tr.ends <= 2
  {
  }

  lemma ShownMore(c: Config, ms: seq<Message>, m: Message)
    ensures ContentsOf(c, ms + [m]) == ContentsOf(c, ms) + if m.content == [] then [] else [Chunk(c, ContentDelta(m.content), Null)]
  {
    assert (ms + [m])[..|ms|] == ms;
  }

  /** Whatever has a transcript is accepted, and leads to the state that the transcript describes. */
  lemma {:induction false} TranscriptIsAccepted(c: Config, ps: seq<Chars>, tr: Transcript)
    requires Accepts(c, ps, tr)
    ensures Run(c, START, ps).Next? && Sound(c, tr, Run(c, START, ps).value)
    ensures Run(c, START, ps).output == ContentsOf(c, tr.messages) && Run(c, START, ps).semantic == SomeMeaning(tr.messages)
    decreases |ps|
  {
    hide Payload, Accepts, Sound, Extends, Means, SomeMeaning, Chunk, ContentDelta, ContentsOf;
    if |ps| == 0 {
      NothingSent(c, ps, tr);
    } else {
      var n := |ps| - 1;
      var before := BeforeLast(c, ps, tr);
      TranscriptIsAccepted(c, ps[..n], before);
      PayloadComplete(c, before, Run(c, START, ps[..n]).value, ps[n], tr);
      NewlyShown(c, before, ps[n], tr);
    }
  }

  lemma NothingSent(c: Config, ps: seq<Chars>, tr: Transcript)
    requires Accepts(c, ps, tr) && |ps| == 0
    ensures tr == NOTHING && ps == [] && Sound(c, NOTHING, START)
    ensures ContentsOf(c, tr.messages) == [] && !SomeMeaning(tr.messages)
  {
    hide AllInPlace, TextAt;
    SoundStart(c);
    SameCollected(map[], [], tr.tools, map[]) by {
      CollectsNothing(map[]);
    }
  }

  lemma NewlyShown(c: Config, tr: Transcript, text: Chars, next: Transcript)
    requires Extends(c, tr, text, next)
    ensures ContentsOf(c, next.messages) == ContentsOf(c, tr.messages) + NewFrames(c, tr, next)
    ensures SomeMeaning(next.messages) == (SomeMeaning(tr.messages) || NewMeaning(tr, next))
  {
    hide Means, SomeMeaning, Chunk, ContentDelta, ContentsOf, AddsMessage;
    if m, tools :| AddsMessage(c, tr, text, m, tools) && next == After(tr, m, tools) {
      ShownMore(c, tr.messages, m);
      AfterMessage(tr, m, tools);
      assert next.messages[|tr.messages|] == m && |next.messages| == |tr.messages| + 1;
    } else {
      assert next.messages == tr.messages;
      assert ContentsOf(c, tr.messages) + [] == ContentsOf(c, tr.messages);
    }
  }

  // ---- what is refused ----

  /** A choice that is good up to its content. */
  predicate Opens(c: Config, text: Chars, content: Chars) {
    && text != DONE && Parsed(c, text).Some? && OneChoice(c, Parsed(c, text).value)
    && OpeningSays(c, Field(Parsed(c, text).value, CHOICES).value.items[0], content)
  }

  predicate SaysError(c: Config, text: Chars) {
    text != DONE && Parsed(c, text).Some? && Parsed(c, text).value.Obj? && !Falsy(c, Field(Parsed(c, text).value, ERROR))
  }

  /** A refused payload is a failure of the upstream exactly when it says so before the end; its content has been shown exactly
      when everything before the content was in order. */
  lemma RefusalExact(c: Config, tr: Transcript, s: Core, text: Chars, content: Chars)
    requires Sound(c, tr, s) && tr.ends <= 2 && Payload(c, s, text).Denied?
    ensures Payload(c, s, text).why == UpstreamFailure <==> tr.ends == 0 && SaysError(c, text)
    ensures Open(tr) && Opens(c, text, content) ==>
              Payload(c, s, text).output == if content == [] then [] else [Chunk(c, ContentDelta(content), Null)]
    ensures !Open(tr) || (forall x :: !Opens(c, text, x)) ==> Payload(c, s, text).output == []
  {
    hide AllInPlace, Collects, Body, Parse, Finishable, CompletionOf, Finished, Falsy, Field, OpeningSays, Chunk, ContentDelta;
    if tr.ends > 0 {
      AgainAccepted(c, tr, s, text);
    } else if text == DONE {
      if Closed(tr) {
        EndAccepted(c, tr, s, text);
      }
    } else if Parsed(c, text).Some? && Parsed(c, text).value.Obj? {
      BodyRefusal(c, s, Parsed(c, text).value, content);
      if Open(tr) && Payload(c, s, text).output != [] {
        var x := BodyShown(c, s, Parsed(c, text).value);
        assert Opens(c, text, x);
      }
    }
  }

  lemma BodyRefusal(c: Config, s: Core, v: Json, content: Chars)
    requires v.Obj? && Body(c, s, v).Denied?
    ensures Body(c, s, v).why == UpstreamFailure <==> !Falsy(c, Field(v, ERROR))
    ensures s.finish.Some? ==> Body(c, s, v).output == []
    ensures s.finish == None && OneChoice(c, v) && OpeningSays(c, Field(v, CHOICES).value.items[0], content) ==>
              Body(c, s, v).output == if content == [] then [] else [Chunk(c, ContentDelta(content), Null)]
  {
    hide Field, Falsy, Truthy, OpeningSays, Chunk, ContentDelta, OnlyKeys, AddParts, ReadUsage;
    TruthyExact(c, Field(v, ERROR));
    if OneChoice(c, v) {
      OpeningExact(c, Field(v, CHOICES).value.items[0], content);
    }
  }

  lemma BodyShown(c: Config, s: Core, v: Json) returns (content: Chars)
    requires v.Obj? && Body(c, s, v).Denied? && Body(c, s, v).output != []
    ensures OneChoice(c, v) && OpeningSays(c, Field(v, CHOICES).value.items[0], content)
  {
    hide Field, Falsy, Truthy, OpeningSays, Chunk, ContentDelta, OnlyKeys, AddParts, ReadUsage;
    TruthyExact(c, Field(v, ERROR));
    var choice := Field(v, CHOICES).value.items[0];
    var shown := Field(Field(choice, DELTA).value, CONTENT);
    content := shown.value.s;
    OpeningExact(c, choice, content);
  }
}
