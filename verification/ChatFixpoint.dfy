/** What a stream shows is a fixed point: another parser of the same kind shows exactly the same frames again, so the
    planner behind the boundary recovers the text and the tool calls that the boundary accepted
    (`experiments/inference-boundary/protocol.ts:87-137`, `experiments/planner-probe/transport.ts:72-105`). */
module ChatFixpoint {
  import opened Text
  import opened Json
  import opened JsonRoundTrip
  import opened JsonTheorems
  import opened ChatModel
  import opened ChatFrames

  predicate GoodId(id: Chars) {
    1 <= |id| <= 62 && (forall i | 0 <= i < |id| :: CallUnit(id[i]))
  }

  predicate GoodNumbers(whole: Chars -> Option<int>, finite: Chars -> bool) {
    forall k | 0 <= k <= 7 :: whole([48 + k]) == Some(k) && finite([48 + k])
  }

  /** The request id fits into a call id; the numbers 0 to 7 read as themselves; and the profile has no usage frame. */
  predicate GoodConfig(c: Config) {
    GoodId(c.requestId) && !c.usageFrame && GoodNumbers(c.whole, c.finite)
  }

  function Reader(c: Config): Mode { Strict(false, c.finite) }

  /** The parser of the planner's transport: it ends with a plain end mark. */
  function Second(c: Config): Config { c.(terminal := PlainDone) }

  // ---- the frames parse ----

  lemma SmallNumber(c: Config, k: nat, depth: nat)
    requires GoodConfig(c) && k <= 7 && depth <= 32
    ensures Decimal(k) == [48 + k] && c.whole(Decimal(k)) == Some(k)
    ensures Fits(Num(Decimal(k)), depth, Reader(c)) && PlainNumbers(Num(Decimal(k)))
  {
    var t: Chars := [48 + k];
    assert t[0..] == t && t[1..] == [];
    assert WholePart(t) == Some(1);
    assert FractionPart([]) == 0 && ExponentPart([]) == 0;
    assert MatchNumber(t) == Some(1);
  }

  lemma ScalarFits(v: Json, depth: nat, m: Mode)
    requires (v.Str? || v.Null?) && depth <= m.limit
    ensures Fits(v, depth, m) && PlainNumbers(v)
  {
  }

  function Choice(delta: Json, reason: Json): Json {
    Obj([Member(INDEX, Num([48])), Member(DELTA, delta), Member(FINISH_REASON, reason)])
  }

  lemma ChoiceFits(c: Config, delta: Json, reason: Json)
    requires GoodConfig(c) && Fits(delta, 3, Reader(c)) && Fits(reason, 3, Reader(c)) && PlainNumbers(delta) && PlainNumbers(reason)
    ensures Fits(Arr([Choice(delta, reason)]), 1, Reader(c)) && PlainNumbers(Arr([Choice(delta, reason)]))
  {
    hide Fits, PlainNumbers, RESERVED, INDEX, DELTA, FINISH_REASON;
    Names();
    SmallNumber(c, 0, 3);
    var members := [Member(INDEX, Num([48])), Member(DELTA, delta), Member(FINISH_REASON, reason)];
    ObjectFits(members, 2, Reader(c));
    ArrayFits([Obj(members)], 1, Reader(c));
    PlainObject(members);
    PlainArray([Obj(members)]);
  }

  lemma PlainObject(members: seq<Member>)
    requires forall i | 0 <= i < |members| :: PlainNumbers(members[i].value)
    ensures PlainNumbers(Obj(members))
  {
  }

  lemma PlainArray(items: seq<Json>)
    requires forall i | 0 <= i < |items| :: PlainNumbers(items[i])
    ensures PlainNumbers(Arr(items))
  {
  }

  lemma ChunkFits(c: Config, delta: Json, reason: Json)
    requires GoodConfig(c) && Fits(delta, 3, Reader(c)) && Fits(reason, 3, Reader(c)) && PlainNumbers(delta) && PlainNumbers(reason)
    ensures Fits(ChunkJson(c, delta, reason), 0, Reader(c)) && PlainNumbers(ChunkJson(c, delta, reason))
  {
    hide Fits, PlainNumbers, RESERVED, ID, OBJECT, MODEL, CHOICES;
    Names();
    ChoiceFits(c, delta, reason);
    ScalarFits(Str(c.requestId), 1, Reader(c));
    ScalarFits(Str(CHUNK), 1, Reader(c));
    ScalarFits(Str(c.model), 1, Reader(c));
    var members := [Member(ID, Str(c.requestId)), Member(OBJECT, Str(CHUNK)), Member(MODEL, Str(c.model)),
                    Member(CHOICES, Arr([Choice(delta, reason)]))];
    DistinctTop(c, delta, reason);
    ObjectFits(members, 0, Reader(c));
    PlainObject(members);
  }

  lemma DistinctTop(c: Config, delta: Json, reason: Json)
    ensures DistinctNames(ChunkJson(c, delta, reason).members) && DistinctNames(Choice(delta, reason).members)
    ensures forall i | 0 <= i < 4 :: ChunkJson(c, delta, reason).members[i].key != ERROR
  {
    hide ID, OBJECT, MODEL, CHOICES, INDEX, DELTA, FINISH_REASON, ERROR;
    Names();
    var known := [Member(ID, Null), Member(OBJECT, Null), Member(MODEL, Null), Member(CHOICES, Null)];
    assert forall i | 0 <= i < 4 :: ChunkJson(c, delta, reason).members[i].key == known[i].key;
  }

  lemma ChunkFields(c: Config, delta: Json, reason: Json)
    ensures var v := ChunkJson(c, delta, reason);
            Field(v, ERROR) == None && Field(v, CHOICES) == Some(Arr([Choice(delta, reason)]))
    ensures var choice := Choice(delta, reason);
            && Field(choice, INDEX) == Some(Num([48])) && Field(choice, DELTA) == Some(delta)
            && Field(choice, FINISH_REASON) == Some(reason)
  {
    hide Lookup, ID, OBJECT, MODEL, CHOICES, INDEX, DELTA, FINISH_REASON, ERROR;
    DistinctTop(c, delta, reason);
    var top, choice := ChunkJson(c, delta, reason).members, Choice(delta, reason).members;
    LookupMissing(top, ERROR);
    LookupAt(top, 3);
    LookupAt(choice, 0);
    LookupAt(choice, 1);
    LookupAt(choice, 2);
  }

  predicate Working(s: Core) { !s.terminal && s.finish.None? }

  lemma PayloadOfChunk(c: Config, s: Core, delta: Json, reason: Json)
    requires GoodConfig(c) && Fits(delta, 3, Reader(c)) && Fits(reason, 3, Reader(c)) && PlainNumbers(delta) && PlainNumbers(reason)
    requires Working(s) && ChoiceShape(c, Choice(delta, reason))
    ensures Unbroken(Print(ChunkJson(c, delta, reason)))
    ensures Payload(c, s, Print(ChunkJson(c, delta, reason))) == Delta(c, s, Choice(delta, reason))
  {
    hide Fits, PlainNumbers, Parse, Delta, Finished, ChoiceShape, PrintMembers, Field;
    var v := ChunkJson(c, delta, reason);
    ChunkFits(c, delta, reason);
    RoundTrip(v, Reader(c));
    PrintUnbroken(v);
    ChunkFields(c, delta, reason);
    assert Print(v)[0] == OPEN_OBJECT && DONE[0] == OPEN_ARRAY;
  }

  // ---- content frames ----

  ghost predicate ContentFrame(c: Config, f: Chars) {
    exists x: Chars :: |x| > 0 && f == Chunk(c, ContentDelta(x), Null)
  }

  lemma OneEntry(key: Chars, value: Json, other: Chars)
    ensures Field(Obj([Member(key, value)]), key) == Some(value)
    ensures other != key ==> Field(Obj([Member(key, value)]), other) == None
  {
    if other != key {
      LookupMissing([Member(key, value)], other);
    }
  }

  lemma ContentFits(c: Config, x: Chars)
    requires GoodConfig(c)
    ensures Fits(ContentDelta(x), 3, Reader(c)) && PlainNumbers(ContentDelta(x))
    ensures Field(ContentDelta(x), CONTENT) == Some(Str(x))
    ensures Field(ContentDelta(x), ROLE) == None && Field(ContentDelta(x), TOOL_CALLS) == None
    ensures OnlyKeys(ContentDelta(x), {ROLE, CONTENT, TOOL_CALLS})
  {
    hide RESERVED, CONTENT, ROLE, TOOL_CALLS;
    Names();
    var members := [Member(CONTENT, Str(x))];
    ScalarFits(Str(x), 4, Reader(c));
    OneEntry(CONTENT, Str(x), ROLE);
    OneEntry(CONTENT, Str(x), TOOL_CALLS);
    hide Fits;
    ObjectFits(members, 3, Reader(c));
  }

  lemma ContentAgain(c: Config, s: Core, x: Chars, more: Chars)
    requires GoodConfig(c) && Working(s) && |x| > 0
    ensures Drain(c, s, Chunk(c, ContentDelta(x), Null) + more) ==
            Then([Chunk(c, ContentDelta(x), Null)], true, Drain(c, s.(semantic := true), more))
  {
    hide Fits, PlainNumbers, Payload, ChunkJson, Field, OnlyKeys, RESERVED, CONTENT, ROLE, TOOL_CALLS, INDEX, DELTA, FINISH_REASON,
         Drain, DataFrame;
    ContentFits(c, x);
    ScalarFits(Null, 3, Reader(c));
    SmallNumber(c, 0, 3);
    ChunkFields(c, ContentDelta(x), Null);
    PayloadOfChunk(c, s, ContentDelta(x), Null);
    FrameReads(c, s, Print(ChunkJson(c, ContentDelta(x), Null)), more);
  }

  lemma FrameAgain(c: Config, s: Core, frame: Chars, more: Chars)
    requires GoodConfig(c) && Working(s) && ContentFrame(c, frame)
    ensures Drain(c, s, frame + more) == Then([frame], true, Drain(c, s.(semantic := true), more))
  {
    hide Drain, Chunk, GoodConfig;
    var x: Chars :| |x| > 0 && frame == Chunk(c, ContentDelta(x), Null);
    ContentAgain(c, s, x, more);
  }

  lemma {:induction false} ContentsAgain(c: Config, s: Core, frames: Frames, more: Chars)
    requires GoodConfig(c) && Working(s) && forall i | 0 <= i < |frames| :: ContentFrame(c, frames[i])
    ensures Drain(c, s, Concat(frames) + more) ==
            Then(frames, |frames| > 0, Drain(c, s.(semantic := s.semantic || |frames| > 0), more))
    decreases |frames|
  {
    hide Drain, ContentFrame, GoodConfig, Then;
    if |frames| == 0 {
      assert [] + more == more;
      ThenNothing(Drain(c, s, more));
      assert frames == [];
    } else {
      assert Concat(frames) + more == frames[0] + (Concat(frames[1..]) + more);
      FrameAgain(c, s, frames[0], Concat(frames[1..]) + more);
      var next := s.(semantic := true);
      ContentsAgain(c, next, frames[1..], more);
      ThenThen([frames[0]], frames[1..], |frames[1..]| > 0, Drain(c, next, more));
      assert [frames[0]] + frames[1..] == frames;
    }
  }

  lemma ThenNothing(later: Step<Stream>)
    ensures Then([], false, later) == later
  {
    assert [] + later.output == later.output;
  }

  lemma ThenThen(a: Frames, b: Frames, semantic: bool, later: Step<Stream>)
    ensures Then(a, true, Then(b, semantic, later)) == Then(a + b, true, later)
  {
    assert a + (b + later.output) == a + b + later.output;
  }

  // ---- the finish frame and the end mark ----

  lemma FinishAgain(c: Config, s: Core, f: Finish, more: Chars)
    requires GoodConfig(c) && Working(s)
    ensures Drain(c, s, Chunk(c, Obj([]), ReasonOf(f)) + more) == Drain(c, s.(finish := Some(f)), more)
  {
    hide Fits, PlainNumbers, Payload, ChunkJson, RESERVED, ROLE, CONTENT, TOOL_CALLS, STOP, INDEX, DELTA, FINISH_REASON, Drain, DataFrame;
    Names();
    EmptyFits(c);
    ScalarFits(ReasonOf(f), 3, Reader(c));
    SmallNumber(c, 0, 3);
    ChunkFields(c, Obj([]), ReasonOf(f));
    PayloadOfChunk(c, s, Obj([]), ReasonOf(f));
    FrameReads(c, s, Print(ChunkJson(c, Obj([]), ReasonOf(f))), more);
    ThenNothing(Drain(c, s.(finish := Some(f)), more));
  }

  lemma EmptyFits(c: Config)
    ensures Fits(Obj([]), 3, Reader(c)) && PlainNumbers(Obj([]))
  {
  }

  lemma DoneUnbroken()
    ensures Unbroken(DONE)
  {
    assert DONE[0] == 91 && DONE[1] == 68 && DONE[2] == 79 && DONE[3] == 78 && DONE[4] == 69 && DONE[5] == 93;
  }

  lemma DoneAgain(c: Config, s: Core)
    requires !s.terminal && s.finish.Some? && Finished(c, s).Next?
    ensures Drain(c, s, DataFrame(DONE)) == Next(Stream([], Finished(c, s).value), [], false)
  {
    hide DONE, Finished, DataFrame, Drain, Unbroken;
    DoneUnbroken();
    assert DataFrame(DONE) + [] == DataFrame(DONE);
    FrameReads(c, s, DONE, []);
    var after := Finished(c, s).value;
    FinishedShowsNothing(c, s);
    DrainEmpty(c, after);
    ThenNothing(Drain(c, after, []));
  }

  lemma FinishedShowsNothing(c: Config, s: Core)
    requires s.finish.Some? && Finished(c, s).Next?
    ensures Finished(c, s).output == [] && !Finished(c, s).semantic
  {
  }

  lemma DrainEmpty(c: Config, s: Core)
    ensures Drain(c, s, []) == Next(Stream([], s), [], false)
  {
  }

  // ---- tool calls ----

  /** The calls as they are shown: with local ids. */
  function Localized(c: Config, tools: map<int, Call>, n: nat): (r: map<int, Call>)
    requires forall i | 0 <= i < n :: i in tools
    ensures |r| == n && forall i :: i in r <==> 0 <= i < n
    ensures forall i | 0 <= i < n :: r[i] == Call(LocalId(c, i), tools[i].name, tools[i].arguments)
  {
    if n == 0 then map[]
    else Localized(c, tools, n - 1)[n - 1 := Call(LocalId(c, n - 1), tools[n - 1].name, tools[n - 1].arguments)]
  }

  lemma LocalIds(c: Config, i: nat)
    requires GoodConfig(c) && i <= 7
    ensures CallId(LocalId(c, i)) && LocalId(c, i)[|LocalId(c, i)| - 1] == 48 + i
  {
    SmallNumber(c, i, 0);
    assert |CALL_PREFIX| == 5;
    var id := LocalId(c, i);
    assert id == CALL_PREFIX + (c.requestId + [95] + Decimal(i));
    assert id[..5] == CALL_PREFIX;
  }

  function CallFn(call: Call): Json { Obj([Member(NAME, Str(call.name)), Member(ARGUMENTS, Str(call.arguments))]) }

  lemma CallFields(c: Config, i: nat, call: Call)
    ensures var v := CallJson(c, i, call);
            && Field(v, INDEX) == Some(Num(Decimal(i))) && Field(v, ID) == Some(Str(LocalId(c, i)))
            && Field(v, TYPE) == Some(Str(FUNCTION)) && Field(v, FUNCTION) == Some(CallFn(call))
            && OnlyKeys(v, {INDEX, ID, TYPE, FUNCTION}) && DistinctNames(v.members)
    ensures Field(CallFn(call), NAME) == Some(Str(call.name)) && Field(CallFn(call), ARGUMENTS) == Some(Str(call.arguments))
    ensures OnlyKeys(CallFn(call), {NAME, ARGUMENTS}) && DistinctNames(CallFn(call).members)
  {
    hide Lookup, INDEX, ID, TYPE, FUNCTION, NAME, ARGUMENTS, LocalId, Decimal;
    Names();
    var members := CallJson(c, i, call).members;
    LookupAt(members, 0);
    LookupAt(members, 1);
    LookupAt(members, 2);
    LookupAt(members, 3);
    LookupAt(CallFn(call).members, 0);
    LookupAt(CallFn(call).members, 1);
  }

  lemma CallFits(c: Config, i: nat, call: Call)
    requires GoodConfig(c) && i <= 7
    ensures Fits(CallJson(c, i, call), 5, Reader(c)) && PlainNumbers(CallJson(c, i, call))
  {
    hide Fits, PlainNumbers, INDEX, ID, TYPE, FUNCTION, NAME, ARGUMENTS, RESERVED, LocalId, Decimal;
    Names();
    SmallNumber(c, i, 6);
    CallFields(c, i, call);
    ScalarFits(Str(LocalId(c, i)), 6, Reader(c));
    ScalarFits(Str(FUNCTION), 6, Reader(c));
    ScalarFits(Str(call.name), 7, Reader(c));
    ScalarFits(Str(call.arguments), 7, Reader(c));
    ObjectFits(CallFn(call).members, 6, Reader(c));
    ObjectFits(CallJson(c, i, call).members, 5, Reader(c));
    PlainObject(CallFn(call).members);
    PlainObject(CallJson(c, i, call).members);
  }

  lemma {:induction false} CallsAre(c: Config, tools: map<int, Call>, n: nat)
    requires forall i | 0 <= i < n :: i in tools
    ensures |CallsJson(c, tools, n)| == n
    ensures forall i | 0 <= i < n :: CallsJson(c, tools, n)[i] == CallJson(c, i, tools[i])
  {
    hide CallJson;
    if n > 0 {
      CallsAre(c, tools, n - 1);
    }
  }

  lemma CallsFit(c: Config, tools: map<int, Call>)
    requires GoodConfig(c) && Consecutive(tools, c) && 1 <= |tools| <= 8
    ensures Fits(CallsDelta(c, tools), 3, Reader(c)) && PlainNumbers(CallsDelta(c, tools))
    ensures Field(CallsDelta(c, tools), TOOL_CALLS) == Some(Arr(CallsJson(c, tools, |tools|)))
    ensures Field(CallsDelta(c, tools), ROLE) == None && Field(CallsDelta(c, tools), CONTENT) == None
    ensures OnlyKeys(CallsDelta(c, tools), {ROLE, CONTENT, TOOL_CALLS})
  {
    hide Fits, PlainNumbers, CallJson, TOOL_CALLS, ROLE, CONTENT, RESERVED;
    Names();
    var n := |tools|;
    var items := CallsJson(c, tools, n);
    CallsAre(c, tools, n);
    OneEntry(TOOL_CALLS, Arr(items), ROLE);
    OneEntry(TOOL_CALLS, Arr(items), CONTENT);
    forall i | 0 <= i < n ensures Fits(items[i], 5, Reader(c)) && PlainNumbers(items[i]) {
      CallFits(c, i, tools[i]);
    }
    ArrayFits(items, 4, Reader(c));
    PlainArray(items);
    ObjectFits([Member(TOOL_CALLS, Arr(items))], 3, Reader(c));
    PlainObject([Member(TOOL_CALLS, Arr(items))]);
  }

  lemma PartAgain(c: Config, p: Parts, i: nat, call: Call)
    requires GoodConfig(c) && i <= 7 && p.ok && i !in p.tools
    ensures var after := AddPart(c, p, CallJson(c, i, call));
            after.ok && after.tools == p.tools[i := Call(LocalId(c, i), call.name, call.arguments)]
  {
    hide CallJson, LocalId, CallId, Field, OnlyKeys, Decimal;
    SmallNumber(c, i, 0);
    LocalIds(c, i);
    CallFields(c, i, call);
    assert [] + call.arguments == call.arguments;
  }

  lemma {:induction false} PartsAgain(c: Config, s: bool, tools: map<int, Call>, n: nat)
    requires GoodConfig(c) && n <= 8 && forall i | 0 <= i < n :: i in tools
    ensures var after := AddParts(c, Parts(map[], s, true), CallsJson(c, tools, n));
            after.ok && after.tools == Localized(c, tools, n)
  {
    hide AddPart, CallJson, LocalId, GoodConfig;
    if n > 0 {
      PartsAgain(c, s, tools, n - 1);
      var items := CallsJson(c, tools, n - 1);
      assert (items + [CallJson(c, n - 1, tools[n - 1])])[..|items|] == items;
      PartAgain(c, AddParts(c, Parts(map[], s, true), items), n - 1, tools[n - 1]);
    }
  }

  lemma CallsAgain(c: Config, s: Core, tools: map<int, Call>, more: Chars) returns (semantic: bool)
    requires GoodConfig(c) && Consecutive(tools, c) && 1 <= |tools| <= 8 && c.toolsAllowed
    requires Working(s) && s.tools == map[]
    ensures Drain(c, s, Chunk(c, CallsDelta(c, tools), Null) + more) ==
            Then([], semantic, Drain(c, s.(tools := Localized(c, tools, |tools|), semantic := s.semantic || semantic), more))
  {
    hide Fits, PlainNumbers, Payload, ChunkJson, Field, OnlyKeys, AddParts, RESERVED, ROLE, CONTENT, TOOL_CALLS, INDEX, DELTA,
         FINISH_REASON, Drain, DataFrame, CallsDelta, CallsJson, Localized, Consecutive;
    AllThere(c, tools);
    CallsFit(c, tools);
    ScalarFits(Null, 3, Reader(c));
    SmallNumber(c, 0, 3);
    CallsAre(c, tools, |tools|);
    ChunkFields(c, CallsDelta(c, tools), Null);
    PartsAgain(c, false, tools, |tools|);
    PayloadOfChunk(c, s, CallsDelta(c, tools), Null);
    FrameReads(c, s, Print(ChunkJson(c, CallsDelta(c, tools), Null)), more);
    semantic := AddParts(c, Parts(map[], false, true), CallsJson(c, tools, |tools|)).semantic;
  }

  lemma AllThere(c: Config, tools: map<int, Call>)
    requires Consecutive(tools, c)
    ensures forall i | 0 <= i < |tools| :: i in tools
  {
  }

  lemma LocalizedFinishes(c: Config, tools: map<int, Call>)
    requires GoodConfig(c) && Consecutive(tools, c) && 1 <= |tools| <= 8
    ensures var local := Localized(c, tools, |tools|);
            DistinctIds(local) && Consecutive(local, c) && CallsDelta(c, local) == CallsDelta(c, tools)
  {
    hide LocalId, CallId, GoodConfig, Localized, CallsJson;
    LocalizedDistinct(c, tools);
    LocalizedConsecutive(c, tools);
    SameCalls(c, Localized(c, tools, |tools|), tools, |tools|);
  }

  lemma LocalizedDistinct(c: Config, tools: map<int, Call>)
    requires GoodConfig(c) && Consecutive(tools, c) && 1 <= |tools| <= 8
    ensures DistinctIds(Localized(c, tools, |tools|))
  {
    hide LocalId, CallId, GoodConfig, Localized;
    var local := Localized(c, tools, |tools|);
    forall i, k | i in local && k in local && i != k ensures local[i].id != local[k].id {
      LocalIds(c, i);
      LocalIds(c, k);
    }
  }

  lemma LocalizedConsecutive(c: Config, tools: map<int, Call>)
    requires GoodConfig(c) && Consecutive(tools, c) && 1 <= |tools| <= 8
    ensures Consecutive(Localized(c, tools, |tools|), c)
  {
    hide LocalId, CallId, GoodConfig, Localized;
    forall i | 0 <= i < |tools| ensures CallId(LocalId(c, i)) {
      LocalIds(c, i);
    }
  }

  lemma {:induction false} SameCalls(c: Config, a: map<int, Call>, b: map<int, Call>, n: nat)
    requires forall i | 0 <= i < n :: i in a && i in b && a[i].name == b[i].name && a[i].arguments == b[i].arguments
    ensures CallsJson(c, a, n) == CallsJson(c, b, n)
  {
    hide LocalId, Decimal;
    if n > 0 {
      SameCalls(c, a, b, n - 1);
    }
  }

  // ---- what an accepted stream has shown ----

  predicate Complete(c: Config, f: Finish, tools: map<int, Call>, frames: Frames) {
    if f == ToolCalls then
      && Consecutive(tools, c) && |tools| > 0
      && frames == [Chunk(c, CallsDelta(c, tools), Null), Chunk(c, Obj([]), ReasonOf(f)), DataFrame(DONE)]
    else frames == [Chunk(c, Obj([]), ReasonOf(f)), DataFrame(DONE)]
  }

  predicate Sane(c: Config, s: Core) {
    && (|s.tools| > 0 ==> c.toolsAllowed) && (forall i | i in s.tools :: 0 <= i <= 7) && s.usage.None?
    && if s.terminal then s.finish.Some? && Complete(c, s.finish.value, s.tools, s.completion) else s.completion == []
  }

  lemma {:induction false} PartsKeep(c: Config, p: Parts, parts: seq<Json>)
    requires forall i | i in p.tools :: 0 <= i <= 7
    ensures forall i | i in AddParts(c, p, parts).tools :: 0 <= i <= 7
  {
    hide PartShape, PartIntroduces;
    if |parts| > 0 {
      PartsKeep(c, p, parts[..|parts| - 1]);
      PartKeeps(c, AddParts(c, p, parts[..|parts| - 1]), parts[|parts| - 1]);
    }
  }

  lemma PartKeeps(c: Config, p: Parts, part: Json)
    requires forall i | i in p.tools :: 0 <= i <= 7
    ensures forall i | i in AddPart(c, p, part).tools :: 0 <= i <= 7
  {
    hide PartIntroduces, OnlyKeys, Field;
  }

  lemma NoParts(c: Config, p: Parts)
    ensures AddParts(c, p, []) == p
  {
  }

  lemma DeltaKeeps(c: Config, s: Core, choice: Json)
    requires Sane(c, s) && Working(s) && ChoiceShape(c, choice) && Delta(c, s, choice).Next?
    ensures Sane(c, Delta(c, s, choice).value)
    ensures forall f | f in Delta(c, s, choice).output :: ContentFrame(c, f)
  {
    hide AddParts, Complete, Field, OnlyKeys, Chunk, ContentDelta, FinishOf;
    var delta := Field(choice, DELTA).value;
    var content, calls := Field(delta, CONTENT), Field(delta, TOOL_CALLS);
    var shown := content.Some? && content.value.Str? && |content.value.s| > 0;
    if shown {
      assert ContentFrame(c, Chunk(c, ContentDelta(content.value.s), Null));
    }
    PartsKeep(c, Parts(s.tools, shown, true), if calls.Some? && calls.value.Arr? then calls.value.items else []);
    NoParts(c, Parts(s.tools, shown, true));
  }

  lemma FinishedKeeps(c: Config, s: Core)
    requires Sane(c, s) && !s.terminal && s.finish.Some? && Finished(c, s).Next?
    ensures Sane(c, Finished(c, s).value)
  {
    hide Consecutive, Chunk, CallsDelta, DataFrame, DistinctIds;
    assert UsageFrames(c, s.usage) == [];
  }

  lemma PayloadKeeps(c: Config, s: Core, text: Chars)
    requires Sane(c, s) && !c.usageFrame && Payload(c, s, text).Next?
    ensures Sane(c, Payload(c, s, text).value)
    ensures forall f | f in Payload(c, s, text).output :: ContentFrame(c, f)
  {
    hide Sane, Finished, Delta, Parse, Field, ChoiceShape, Truthy;
    if s.terminal {
      DuplicateKeeps(c, s);
    } else if text == DONE {
      FinishedKeeps(c, s);
      FinishedShowsNothing(c, s);
    } else {
      DeltaKeeps(c, s, Field(Parse(text, Reader(c)).value, CHOICES).value.items[0]);
    }
  }

  lemma DuplicateKeeps(c: Config, s: Core)
    requires Sane(c, s)
    ensures Sane(c, s.(duplicateDone := true))
  {
  }

  ghost predicate AllContent(c: Config, frames: Frames) { forall i | 0 <= i < |frames| :: ContentFrame(c, frames[i]) }

  lemma {:induction false} DrainKeeps(c: Config, s: Core, t: Chars)
    requires Sane(c, s) && !c.usageFrame && Drain(c, s, t).Next?
    ensures Sane(c, Drain(c, s, t).value.core) && AllContent(c, Drain(c, s, t).output)
    decreases |t|
  {
    hide Sane, Payload, ContentFrame, ReadLines, SplitLines, JoinLines, FindBlank;
    var end := FindBlank(t);
    if end.Some? {
      var fields := ReadLines(SplitLines(t[..end.value]));
      if fields.Some? && |fields.value.data| > 0 {
        PayloadKeeps(c, s, JoinLines(fields.value.data));
      }
      DrainKeeps(c, Block(c, s, t[..end.value]).value, t[end.value + 2..]);
    }
  }

  lemma {:induction false} FeedKeeps(c: Config, s: Stream, chunks: seq<Chars>)
    requires Sane(c, s.core) && !c.usageFrame && Feed(c, s, chunks).Next?
    ensures Sane(c, Feed(c, s, chunks).value.core) && AllContent(c, Feed(c, s, chunks).output)
    decreases |chunks|
  {
    hide Sane, Drain, ContentFrame;
    if |chunks| > 0 {
      DrainKeeps(c, s.core, Normalize(s.buffer + chunks[0]));
      FeedKeeps(c, Push(c, s, chunks[0]).value, chunks[1..]);
    }
  }

  lemma EndKeeps(c: Config, s: Stream)
    requires Sane(c, s.core) && !c.usageFrame && End(c, s).Completed?
    ensures exists after: Core :: Sane(c, after) && after.terminal && after.completion == End(c, s).frames
  {
    hide Sane, Drain, AllBlank;
    if c.terminal == ReceiptGatedEof && !s.core.terminal && s.core.finish.Some? && AllBlank(s.buffer) {
      DrainKeeps(c, s.core, Normalize(s.buffer + DataFrame(DONE)));
    }
  }

  // ---- the theorem ----

  lemma FewTools(c: Config, s: Core)
    requires Sane(c, s) && Consecutive(s.tools, c)
    ensures |s.tools| <= 8
  {
    if |s.tools| > 0 {
      assert |s.tools| - 1 in s.tools;
    }
  }

  /** The completion frames of an accepted stream, read by another parser that has seen only content. */
  lemma CompletionAgain(c: Config, first: Core, s: Core) returns (semantic: bool, after: Core)
    requires GoodConfig(c) && Sane(c, first) && first.terminal
    requires Working(s) && s.tools == map[] && s.completion == [] && s.usage.None?
    ensures Drain(c, s, Concat(first.completion)) == Next(Stream([], after), [], semantic)
    ensures after.terminal && after.completion == first.completion
  {
    hide GoodConfig, Drain, Chunk, DataFrame, CallsDelta, Consecutive, Localized, DistinctIds, UsageFrames;
    var f := first.finish.value;
    var finish, done := Chunk(c, Obj([]), ReasonOf(f)), DataFrame(DONE);
    assert UsageFrames(c, None) == [] by {
      NoUsage(c);
    }
    if f == Stop {
      assert Concat(first.completion) == finish + done by {
        ConcatTwo(finish, done);
      }
      FinishAgain(c, s, f, done);
      var s' := s.(finish := Some(f));
      DoneAgain(c, s');
      return false, Finished(c, s').value;
    } else {
      FewTools(c, first);
      var calls := Chunk(c, CallsDelta(c, first.tools), Null);
      assert Concat(first.completion) == calls + (finish + done) by {
        ConcatThree(calls, finish, done);
      }
      ToolsAllowed(c, first);
      AllThere(c, first.tools);
      semantic := CallsAgain(c, s, first.tools, finish + done);
      var local := s.(tools := Localized(c, first.tools, |first.tools|), semantic := s.semantic || semantic);
      LocalSize(c, first.tools);
      LocalizedFinishes(c, first.tools);
      FinishAgain(c, local, f, done);
      var local' := local.(finish := Some(f));
      DoneAgain(c, local');
      return semantic, Finished(c, local').value;
    }
  }

  lemma LocalSize(c: Config, tools: map<int, Call>)
    requires Consecutive(tools, c)
    ensures |Localized(c, tools, |tools|)| == |tools|
  {
  }

  lemma ToolsAllowed(c: Config, s: Core)
    requires Sane(c, s) && |s.tools| > 0
    ensures c.toolsAllowed
  {
  }

  lemma NoUsage(c: Config)
    ensures UsageFrames(c, None) == []
  {
  }

  lemma ConcatTwo(a: Chars, b: Chars)
    ensures Concat([a, b]) == a + b
  {
    assert [a, b][1..] == [b] && [b][1..] == [];
    assert Concat([b]) == b + [] == b;
  }

  lemma ConcatThree(a: Chars, b: Chars, d: Chars)
    ensures Concat([a, b, d]) == a + (b + d)
  {
    assert [a, b, d][1..] == [b, d];
    ConcatTwo(b, d);
  }

  lemma {:induction false} ConcatParts(a: Frames, b: Frames)
    ensures Concat(a + b) == Concat(a) + Concat(b)
  {
    if |a| == 0 {
      assert a + b == b && [] + Concat(b) == Concat(b);
    } else {
      assert (a + b)[1..] == a[1..] + b;
      ConcatParts(a[1..], b);
      assert a[0] + (Concat(a[1..]) + Concat(b)) == a[0] + Concat(a[1..]) + Concat(b);
    }
  }
}
