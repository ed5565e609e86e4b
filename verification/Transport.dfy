/** How the planner's transport collects a completion from the frames its stream parser shows
    (`experiments/planner-probe/transport.ts:67-105`): it parses each printed frame again, adds up the text and gathers the
    calls. What it hands to the session is exactly what the stream held. */
module Transport {
  import opened Text
  import opened Json
  import opened JsonRoundTrip
  import opened JsonTheorems
  import opened ChatModel
  import opened ChatFrames
  import opened ChatFixpoint
  import L = ChatLines
  import S = ChatContents
  import T = ChatTheorems
  import X = ChatTranscript
  import H = History
  import C = Conversation
  import P = Planner

  datatype Collected = Collected(text: Chars, calls: seq<Call>)

  const NOTHING := Collected([], [])

  /** The parser of the transport: the request id comes from a header and is checked to be 32 hexadecimal digits, of which only
      length and form matter here; the terminal is the plain end mark, and the profile has no usage frame. */
  predicate Transported(c: Config) {
    GoodConfig(c) && c.terminal == PlainDone && |c.requestId| == 32
  }

  // ---- consume ----

  function TrimStart(t: Chars): Chars {
    if |t| > 0 && Blank(t[0]) then TrimStart(t[1..]) else t
  }

  function TrimEnd(t: Chars): Chars {
    if |t| > 0 && Blank(t[|t| - 1]) then TrimEnd(t[..|t| - 1]) else t
  }

  /** `value.choices[0].delta`, if there is one. */
  function DeltaOf(v: Json): Option<Json> {
    var choices := Field(v, CHOICES);
    if choices.Some? && choices.value.Arr? && |choices.value.items| > 0 then Field(choices.value.items[0], DELTA) else None
  }

  /** One entry of `tool_calls`, without its index. */
  function CallOf(v: Json): Option<Call> {
    var id, fn := Field(v, ID), Field(v, FUNCTION);
    if id.None? || !id.value.Str? || fn.None? then None
    else
      var name, arguments := Field(fn.value, NAME), Field(fn.value, ARGUMENTS);
      if name.None? || !name.value.Str? || arguments.None? || !arguments.value.Str? then None
      else Some(Call(id.value.s, name.value.s, arguments.value.s))
  }

  function CallsOf(items: seq<Json>): Option<seq<Call>> {
    if |items| == 0 then Some([])
    else
      var earlier, last := CallsOf(items[..|items| - 1]), CallOf(items[|items| - 1]);
      if earlier.None? || last.None? then None else Some(earlier.value + [last.value])
  }

  /** The calls of a delta; an absent or null list holds none. */
  function DeltaCalls(delta: Json): Option<seq<Call>> {
    match Field(delta, TOOL_CALLS)
    case None => Some([])
    case Some(Null) => Some([])
    case Some(Arr(items)) => CallsOf(items)
    case _ => None
  }

  function DeltaText(delta: Json): Option<Chars> {
    match Field(delta, CONTENT)
    case None => Some([])
    case Some(Null) => Some([])
    case Some(Str(s)) => Some(s)
    case _ => None
  }

  /** None where the code throws or would add what is no text. */
  function ConsumeFrame(c: Config, got: Collected, frame: Chars): Option<Collected> {
    if frame == DataFrame(DONE) then Some(got)
    else if |frame| < 6 then None
    else
      var value := Parse(TrimEnd(TrimStart(frame[6..])), Reader(c));
      var delta := if value.Some? then DeltaOf(value.value) else None;
      if delta.None? then None
      else
        var text, calls := DeltaText(delta.value), DeltaCalls(delta.value);
        if text.None? || calls.None? then None
        else Some(Collected(got.text + text.value, got.calls + calls.value))
  }

  function Consume(c: Config, got: Collected, frames: Frames): Option<Collected>
    decreases |frames|
  {
    if |frames| == 0 then Some(got)
    else
      var next := ConsumeFrame(c, got, frames[0]);
      if next.None? then None else Consume(c, next.value, frames[1..])
  }

  // ---- the frames read ----

  lemma {:induction false} TrimTail(payload: Chars, tail: Chars)
    requires |payload| > 0 && !Blank(payload[|payload| - 1]) && AllBlank(tail)
    ensures TrimEnd(payload + tail) == payload
    decreases |tail|
  {
    if |tail| > 0 {
      assert (payload + tail)[..|payload + tail| - 1] == payload + tail[..|tail| - 1];
      TrimTail(payload, tail[..|tail| - 1]);
    } else {
      assert payload + tail == payload;
    }
  }

  lemma FrameTrimmed(payload: Chars)
    requires |payload| > 0 && !Blank(payload[0]) && !Blank(payload[|payload| - 1])
    ensures var frame := DataFrame(payload); |frame| >= 6 && TrimEnd(TrimStart(frame[6..])) == payload
  {
    hide TrimEnd;
    assert |DATA| == 4;
    assert DataFrame(payload)[6..] == payload + [NEWLINE, NEWLINE];
    TrimTail(payload, [NEWLINE, NEWLINE]);
  }

  lemma ObjectPrint(members: seq<Member>)
    requires |members| > 0
    ensures var t := Print(Obj(members)); |t| >= 2 && t[0] == OPEN_OBJECT && t[|t| - 1] == CLOSE_OBJECT
  {
    hide PrintMembers;
  }

  lemma ChunkRead(c: Config, got: Collected, delta: Json, reason: Json)
    requires GoodConfig(c) && Fits(delta, 3, Reader(c)) && Fits(reason, 3, Reader(c)) && PlainNumbers(delta) && PlainNumbers(reason)
    requires DeltaText(delta).Some? && DeltaCalls(delta).Some?
    ensures ConsumeFrame(c, got, Chunk(c, delta, reason)) ==
            Some(Collected(got.text + DeltaText(delta).value, got.calls + DeltaCalls(delta).value))
  {
    hide Fits, PlainNumbers, Parse, GoodConfig, Field, DeltaText, DeltaCalls, Print, TrimStart, TrimEnd;
    var v := ChunkJson(c, delta, reason);
    var payload := Print(v);
    ChunkFits(c, delta, reason);
    RoundTrip(v, Reader(c));
    ChunkFields(c, delta, reason);
    ObjectPrint(v.members);
    FrameTrimmed(payload);
    assert DataFrame(payload)[6] == OPEN_OBJECT && DataFrame(DONE)[6] == OPEN_ARRAY by {
      assert |DATA| == 4;
      assert DataFrame(payload)[6..] == payload + [NEWLINE, NEWLINE];
      assert DataFrame(DONE)[6..] == DONE + [NEWLINE, NEWLINE];
    }
  }

  lemma ContentRead(c: Config, got: Collected, x: Chars)
    requires GoodConfig(c)
    ensures ConsumeFrame(c, got, Chunk(c, ContentDelta(x), Null)) == Some(got.(text := got.text + x))
  {
    hide Fits, PlainNumbers, GoodConfig, Chunk, Field, ContentDelta, ConsumeFrame;
    ContentFits(c, x);
    ScalarFits(Null, 3, Reader(c));
    ChunkRead(c, got, ContentDelta(x), Null);
    assert got.calls + [] == got.calls;
  }

  lemma FinishRead(c: Config, got: Collected, f: Finish)
    requires GoodConfig(c)
    ensures ConsumeFrame(c, got, Chunk(c, Obj([]), ReasonOf(f))) == Some(got)
  {
    hide Fits, PlainNumbers, GoodConfig, Chunk, ConsumeFrame;
    EmptyFits(c);
    ScalarFits(ReasonOf(f), 3, Reader(c));
    assert Field(Obj([]), CONTENT) == None && Field(Obj([]), TOOL_CALLS) == None;
    ChunkRead(c, got, Obj([]), ReasonOf(f));
    assert got.text + [] == got.text && got.calls + [] == got.calls;
  }

  /** The first n calls, with the ids under which they are shown. */
  function Shown(c: Config, tools: map<int, Call>, n: nat): (r: seq<Call>)
    requires forall i | 0 <= i < n :: i in tools
    ensures |r| == n && forall i | 0 <= i < n :: r[i] == Call(LocalId(c, i), tools[i].name, tools[i].arguments)
  {
    if n == 0 then [] else Shown(c, tools, n - 1) + [Call(LocalId(c, n - 1), tools[n - 1].name, tools[n - 1].arguments)]
  }

  lemma CallRead(c: Config, i: nat, call: Call)
    ensures CallOf(CallJson(c, i, call)) == Some(Call(LocalId(c, i), call.name, call.arguments))
  {
    hide CallJson, LocalId, Field, OnlyKeys, CallFn;
    CallFields(c, i, call);
  }

  lemma {:induction false} CallsRead(c: Config, tools: map<int, Call>, n: nat)
    requires forall i | 0 <= i < n :: i in tools
    ensures CallsOf(CallsJson(c, tools, n)) == Some(Shown(c, tools, n))
  {
    hide CallJson, LocalId, CallOf;
    if n > 0 {
      CallsRead(c, tools, n - 1);
      CallRead(c, n - 1, tools[n - 1]);
      var items := CallsJson(c, tools, n);
      assert items[..n - 1] == CallsJson(c, tools, n - 1) && |items| == n by {
        CallsAre(c, tools, n - 1);
      }
    }
  }

  lemma CallFrameRead(c: Config, got: Collected, tools: map<int, Call>)
    requires GoodConfig(c) && Consecutive(tools, c) && 1 <= |tools| <= 8
    ensures ConsumeFrame(c, got, Chunk(c, CallsDelta(c, tools), Null)) == Some(got.(calls := got.calls + Shown(c, tools, |tools|)))
  {
    hide Fits, PlainNumbers, GoodConfig, Chunk, Field, CallsDelta, ConsumeFrame, CallsOf, CallsJson, CallId, OnlyKeys, Shown;
    CallsFit(c, tools);
    CallsRead(c, tools, |tools|);
    ScalarFits(Null, 3, Reader(c));
    ChunkRead(c, got, CallsDelta(c, tools), Null);
    assert got.text + [] == got.text;
  }

  // ---- a whole stream ----

  /** The content frames and the text they carry. */
  function ContentFrames(c: Config, texts: seq<Chars>): Frames {
    seq(|texts|, i requires 0 <= i < |texts| => Chunk(c, ContentDelta(texts[i]), Null))
  }

  lemma {:induction false} TextsOf(c: Config, frames: Frames) returns (texts: seq<Chars>)
    requires AllContent(c, frames)
    ensures frames == ContentFrames(c, texts) && forall i | 0 <= i < |texts| :: |texts[i]| > 0
  {
    hide Chunk, ContentDelta;
    texts := [];
    if |frames| > 0 {
      assert AllContent(c, frames[1..]) by {
        assert forall i | 0 <= i < |frames| - 1 :: frames[1..][i] == frames[i + 1];
      }
      var rest := TextsOf(c, frames[1..]);
      assert ContentFrame(c, frames[0]);
      var x: Chars :| |x| > 0 && frames[0] == Chunk(c, ContentDelta(x), Null);
      texts := [x] + rest;
      assert frames == [frames[0]] + frames[1..];
    }
  }

  lemma {:induction false} TextsRead(c: Config, got: Collected, texts: seq<Chars>, more: Frames)
    requires GoodConfig(c)
    ensures Consume(c, got, ContentFrames(c, texts) + more) == Consume(c, got.(text := got.text + Concat(texts)), more)
    decreases |texts|
  {
    hide GoodConfig, Chunk, ConsumeFrame, ContentDelta;
    var frames := ContentFrames(c, texts) + more;
    if |texts| == 0 {
      assert frames == more && got.text + [] == got.text;
    } else {
      ContentRead(c, got, texts[0]);
      assert frames[1..] == ContentFrames(c, texts[1..]) + more;
      var next := got.(text := got.text + texts[0]);
      TextsRead(c, next, texts[1..], more);
      assert next.text + Concat(texts[1..]) == got.text + Concat(texts);
    }
  }

  lemma FinishedRead(c: Config, got: Collected, f: Finish)
    requires GoodConfig(c)
    ensures Consume(c, got, [Chunk(c, Obj([]), ReasonOf(f)), DataFrame(DONE)]) == Some(got)
  {
    hide GoodConfig, Chunk, DataFrame;
    FinishRead(c, got, f);
    var frames := [Chunk(c, Obj([]), ReasonOf(f)), DataFrame(DONE)];
    assert frames[1..] == [DataFrame(DONE)] && |frames| == 2;
    hide ConsumeFrame;
    assert ConsumeFrame(c, got, DataFrame(DONE)) == Some(got) by {
      DoneRead(c, got);
    }
    assert Consume(c, got, []) == Some(got);
    assert Consume(c, got, frames[1..]) == Some(got);
  }

  lemma DoneRead(c: Config, got: Collected)
    ensures ConsumeFrame(c, got, DataFrame(DONE)) == Some(got)
  {
  }

  /** The calls a completed stream held. */
  function Held(last: Core): map<int, Call> {
    if last.finish == Some(ToolCalls) then last.tools else map[]
  }

  lemma CompletionRead(c: Config, got: Collected, last: Core)
    requires GoodConfig(c) && Sane(c, last) && last.terminal
    ensures Consecutive(Held(last), c) && |Held(last)| <= 8
    ensures Consume(c, got, last.completion) == Some(got.(calls := got.calls + Shown(c, Held(last), |Held(last)|)))
  {
    hide GoodConfig, Chunk, DataFrame, ConsumeFrame, CallsDelta, CallId, Shown;
    var f := last.finish.value;
    FinishedRead(c, got, f);
    if f == ToolCalls {
      FewTools(c, last);
      CallFrameRead(c, got, last.tools);
      var frames := last.completion;
      assert frames[1..] == [Chunk(c, Obj([]), ReasonOf(f)), DataFrame(DONE)];
      FinishedRead(c, got.(calls := got.calls + Shown(c, last.tools, |last.tools|)), f);
    } else {
      assert got.calls + [] == got.calls;
      assert Shown(c, map[], 0) == [];
    }
  }

  // ---- what reaches the session ----

  /** Fit to be sent back as calls: distinct ids of the form of call ids, short enough, with acceptable arguments. */
  predicate FitCalls(c: Config, calls: seq<Call>) {
    && |calls| <= 8
    && (forall i | 0 <= i < |calls| :: CallId(calls[i].id) && |calls[i].id| <= 64 && c.argumentsOk(calls[i].name, calls[i].arguments))
    && (forall i, k | 0 <= i < k < |calls| :: calls[i].id != calls[k].id)
  }

  lemma ShownFit(c: Config, tools: map<int, Call>)
    requires Transported(c) && Consecutive(tools, c) && |tools| <= 8
    ensures FitCalls(c, Shown(c, tools, |tools|))
  {
    hide GoodConfig, CallId, LocalId;
    var calls := Shown(c, tools, |tools|);
    forall i | 0 <= i < |tools| ensures CallId(LocalId(c, i)) && |LocalId(c, i)| <= 64 {
      LocalIds(c, i);
      LocalLength(c, i);
    }
    forall i, k | 0 <= i < k < |calls| ensures calls[i].id != calls[k].id {
      LocalLength(c, i);
      LocalLength(c, k);
      LocalIds(c, i);
      LocalIds(c, k);
    }
  }

  lemma LocalLength(c: Config, i: nat)
    requires Transported(c) && i <= 7
    ensures |LocalId(c, i)| == 39
  {
    SmallNumber(c, i, 0);
    assert |CALL_PREFIX| == 5;
  }

  /** However the input is cut: from an accepted stream the transport collects the text of every content frame in order, and
      the calls that the stream held under ids of its own, all of them fit to be sent back. */
  lemma CollectsExactly(c: Config, chunks: seq<Chars>) returns (texts: seq<Chars>, tools: map<int, Call>)
    requires Transported(c) && Feed(c, T.NEW, chunks).Next? && End(c, Feed(c, T.NEW, chunks).value).Completed?
    ensures var fed := Feed(c, T.NEW, chunks);
            && fed.output == ContentFrames(c, texts) && tools == Held(fed.value.core) && Consecutive(tools, c)
            && Consume(c, NOTHING, fed.output + End(c, fed.value).frames) ==
                 Some(Collected(Concat(texts), Shown(c, tools, |tools|)))
            && FitCalls(c, Shown(c, tools, |tools|))
  {
    hide Feed, GoodConfig, Sane, AllContent, Consume, Held, FitCalls, Consecutive, ContentFrames;
    var fed := Feed(c, T.NEW, chunks);
    T.NewIsSane(c);
    T.EmptyFromGood(c);
    FeedKeeps(c, T.NEW, chunks);
    var last := fed.value.core;
    tools := Held(last);
    texts := TextsOf(c, fed.output);
    TextsRead(c, NOTHING, texts, last.completion);
    assert [] + Concat(texts) == Concat(texts);
    CompletionRead(c, Collected(Concat(texts), []), last);
    HeldThere(c, tools);
    assert [] + Shown(c, tools, |tools|) == Shown(c, tools, |tools|);
    ShownFit(c, tools);
  }

  lemma HeldThere(c: Config, tools: map<int, Call>)
    requires Consecutive(tools, c)
    ensures forall i | 0 <= i < |tools| :: i in tools
  {
  }

  function TextOf(ms: seq<X.Message>): Chars {
    if |ms| == 0 then [] else TextOf(ms[..|ms| - 1]) + ms[|ms| - 1].content
  }

  lemma {:induction false} ContentsRead(c: Config, ms: seq<X.Message>) returns (texts: seq<Chars>)
    ensures X.ContentsOf(c, ms) == ContentFrames(c, texts) && Concat(texts) == TextOf(ms)
  {
    hide Chunk, ContentDelta;
    texts := [];
    if |ms| > 0 {
      var n := |ms| - 1;
      texts := ContentsRead(c, ms[..n]);
      if ms[n].content != [] {
        ConcatParts(texts, [ms[n].content]);
        assert Concat([ms[n].content]) == ms[n].content + [] == ms[n].content;
        texts := texts + [ms[n].content];
      } else {
        assert TextOf(ms) == TextOf(ms[..n]) + [];
      }
    }
  }

  /** What the transport collects is what its input sent: the contents of the messages in order, and the calls that their parts
      add up to, under ids of its own. */
  lemma CollectsTheInput(c: Config, chunks: seq<Chars>, sheets: seq<seq<L.Line>>, tr: X.Transcript)
    requires Transported(c) && S.Sent(c, chunks, sheets, tr) && tr.ends > 0 && AllBlank(S.RestOf([], chunks))
    ensures Feed(c, T.NEW, chunks).Next? && End(c, Feed(c, T.NEW, chunks).value).Completed?
    ensures forall i | 0 <= i < |tr.tools| :: i in tr.tools
    ensures var fed := Feed(c, T.NEW, chunks);
            Consume(c, NOTHING, fed.output + End(c, fed.value).frames) ==
              Some(Collected(TextOf(tr.messages), Shown(c, tr.tools, |tr.tools|)))
  {
    hide Feed, GoodConfig, Sane, AllContent, Consume, FitCalls, Consecutive, ContentFrames, S.Sent, X.CompletionOf, AllBlank, X.Finishable,
         X.ContentsOf, X.SomeMeaning;
    S.StreamHolds(c, chunks, sheets, tr);
    S.EndExact(c, chunks, sheets, tr);
    var fed := Feed(c, T.NEW, chunks);
    T.NewIsSane(c);
    T.EmptyFromGood(c);
    FeedKeeps(c, T.NEW, chunks);
    var last := fed.value.core;
    var texts := ContentsRead(c, tr.messages);
    TextsRead(c, NOTHING, texts, last.completion);
    assert [] + Concat(texts) == Concat(texts);
    CompletionRead(c, Collected(Concat(texts), []), last);
    HeldIsSent(c, tr, last);
    HeldThere(c, tr.tools);
    assert [] + Shown(c, tr.tools, |tr.tools|) == Shown(c, tr.tools, |tr.tools|);
  }

  /** After a stop nothing is held. */
  lemma HeldIsSent(c: Config, tr: X.Transcript, last: Core)
    requires last.finish == X.LastFinish(tr.messages) && last.tools == tr.tools && X.Finishable(c, last.finish, tr.tools)
    ensures Held(last) == tr.tools
  {
  }

  // ---- the session over this transport ----

  /** A string of the session and the text units of the stream that spell it. */
  predicate Spells(s: string, t: Chars) {
    |s| == |t| && forall i | 0 <= i < |s| :: s[i] as int == t[i]
  }

  predicate SpellsIds(calls: seq<C.ToolCall>, read: seq<Call>) {
    |calls| == |read| && forall i | 0 <= i < |calls| :: Spells(calls[i].id, read[i].id)
  }

  /** The calls were collected from some accepted stream. */
  ghost predicate Collectable(calls: seq<C.ToolCall>) {
    exists c: Config, chunks: seq<Chars> ::
      && Transported(c) && Feed(c, T.NEW, chunks).Next? && End(c, Feed(c, T.NEW, chunks).value).Completed?
      && CollectedBy(c, chunks, calls)
  }

  ghost predicate CollectedBy(c: Config, chunks: seq<Chars>, calls: seq<C.ToolCall>)
    requires Feed(c, T.NEW, chunks).Next? && End(c, Feed(c, T.NEW, chunks).value).Completed?
  {
    var fed := Feed(c, T.NEW, chunks);
    var got := Consume(c, NOTHING, fed.output + End(c, fed.value).frames);
    got.Some? && SpellsIds(calls, got.value.calls)
  }

  /** Every answer of the chat transport comes from a stream. */
  ghost predicate FromStreams(w: P.World) {
    forall n: nat | w.answer(n).Streamed? :: Collectable(w.answer(n).calls)
  }

  lemma SpelledIsNamed(r: H.Rules, s: string, t: Chars)
    requires CallId(t) && |t| <= 64 && Spells(s, t)
    ensures P.Named(r, s)
  {
    assert |CALL_PREFIX| == 5;
    assert CALL_PREFIX == [99, 97, 108, 108, 95];
    forall i | 0 <= i < 5 ensures s[i] == P.CALL_PREFIX[i] {
      assert t[i] == CALL_PREFIX[i];
    }
    assert s[..5] == P.CALL_PREFIX;
    forall i | 5 <= i < |s| ensures Alphanumeric(s[i]) || s[i] == '_' || s[i] == '-' {
      assert CallUnit(t[i]);
    }
  }

  /** Over the stream parser the ids are always acceptable, so the session's chat requests always pass the history check. */
  lemma StreamsGiveCallIds(r: H.Rules, w: P.World)
    requires FromStreams(w)
    ensures P.ParsedIds(r, w)
  {
    hide Feed, End, Consume, Transported, P.Named, ContentFrames, Shown, CallId, Spells;
    forall n: nat, i | w.answer(n).Streamed? && 0 <= i < |w.answer(n).calls| ensures P.Named(r, w.answer(n).calls[i].id) {
      var calls := w.answer(n).calls;
      assert Collectable(calls);
      var c: Config, chunks: seq<Chars> :|
        && Transported(c) && Feed(c, T.NEW, chunks).Next? && End(c, Feed(c, T.NEW, chunks).value).Completed?
        && CollectedBy(c, chunks, calls);
      var texts, tools := CollectsExactly(c, chunks);
      HeldThere(c, tools);
      SpelledIsNamed(r, calls[i].id, Shown(c, tools, |tools|)[i].id);
    }
  }

  /** So every chat request such a session sent, in any run, is one that the check before sending lets through. */
  lemma SentPasses(r: H.Rules, w: P.World, b: P.Budget, sent: seq<P.Sent>)
    requires P.SentGood(r, w, b, sent) && FromStreams(w)
    ensures forall i | 0 <= i < |sent| :: sent[i].SentChat? ==> P.ChatAccepted(r, sent[i].messages)
  {
    hide FromStreams, P.ChatAccepted, P.ParsedIds;
    StreamsGiveCallIds(r, w);
  }
}
