/** The two laws of the chat stream, end to end. */
module ChatTheorems {
  import opened Text
  import opened Json
  import opened ChatModel
  import opened ChatFrames
  import opened ChatChunks
  import opened ChatFixpoint

  // ---- shown frames contain no carriage return ----

  predicate NoReturn(t: Chars) { forall i | 0 <= i < |t| :: t[i] != RETURN }

  lemma NoReturnNoTrap(t: Chars)
    requires NoReturn(t)
    ensures NoTrap(t) && NoCrlf(t)
  {
  }

  lemma FrameNoReturn(payload: Chars)
    requires Unbroken(payload)
    ensures NoReturn(DataFrame(payload))
  {
    DataIsData();
  }

  lemma ChunkNoReturn(c: Config, delta: Json, reason: Json)
    requires GoodConfig(c) && PlainNumbers(delta) && PlainNumbers(reason)
    ensures NoReturn(Chunk(c, delta, reason))
  {
    hide NoReturn, PlainNumbers, DataFrame;
    PlainChunk(c, delta, reason);
    PrintUnbroken(ChunkJson(c, delta, reason));
    FrameNoReturn(Print(ChunkJson(c, delta, reason)));
  }

  lemma PlainChunk(c: Config, delta: Json, reason: Json)
    requires PlainNumbers(delta) && PlainNumbers(reason)
    ensures PlainNumbers(ChunkJson(c, delta, reason))
  {
    hide ID, OBJECT, MODEL, CHOICES, INDEX, DELTA, FINISH_REASON;
    PlainObject(Choice(delta, reason).members);
    PlainArray([Choice(delta, reason)]);
    PlainObject(ChunkJson(c, delta, reason).members);
  }

  lemma {:induction false} ContentsNoReturn(c: Config, frames: Frames)
    requires GoodConfig(c) && AllContent(c, frames)
    ensures NoReturn(Concat(frames))
  {
    hide Chunk, GoodConfig, ContentDelta;
    if |frames| > 0 {
      assert ContentFrame(c, frames[0]);
      var x: Chars :| |x| > 0 && frames[0] == Chunk(c, ContentDelta(x), Null);
      ContentFits(c, x);
      PlainNull();
      ChunkNoReturn(c, ContentDelta(x), Null);
      ContentsNoReturn(c, frames[1..]);
    }
  }

  lemma PlainNull()
    ensures PlainNumbers(Null) && PlainNumbers(Obj([])) && PlainNumbers(Str(STOP)) && PlainNumbers(Str(TOOL_CALLS))
  {
  }

  lemma CompletionNoReturn(c: Config, s: Core)
    requires GoodConfig(c) && Sane(c, s) && s.terminal
    ensures NoReturn(Concat(s.completion))
  {
    hide Chunk, GoodConfig, NoReturn, Consecutive, DataFrame, CallsDelta, Concat;
    var f := s.finish.value;
    var finish, done := Chunk(c, Obj([]), ReasonOf(f)), DataFrame(DONE);
    PlainNull();
    ChunkNoReturn(c, Obj([]), ReasonOf(f));
    DoneUnbroken();
    FrameNoReturn(DONE);
    JoinNoReturn(finish, done);
    ConcatTwo(finish, done);
    if f == ToolCalls {
      FewTools(c, s);
      var calls := Chunk(c, CallsDelta(c, s.tools), Null);
      CallsFit(c, s.tools);
      ChunkNoReturn(c, CallsDelta(c, s.tools), Null);
      JoinNoReturn(calls, finish + done);
      ConcatThree(calls, finish, done);
    }
  }

  lemma JoinNoReturn(a: Chars, b: Chars)
    requires NoReturn(a) && NoReturn(b)
    ensures NoReturn(a + b)
  {
  }

  // ---- the fixed point ----

  const NEW := Stream([], START)

  lemma NewIsSane(c: Config)
    ensures Sane(c, NEW.core) && Settled(NEW) && Working(START)
  {
  }

  /** A stream that was accepted, however its input was cut: every frame it showed, then the completion frames, form an
      input on which a second parser, however that input is cut, shows the same frames and completes with the same ones. */
  lemma OutputIsFixpoint(c: Config, chunks: seq<Chars>, again: seq<Chars>)
    requires GoodConfig(c) && Feed(c, NEW, chunks).Next? && End(c, Feed(c, NEW, chunks).value).Completed?
    requires Concat(again) == Concat(Feed(c, NEW, chunks).output + End(c, Feed(c, NEW, chunks).value).frames)
    ensures var first, second := Feed(c, NEW, chunks), Feed(Second(c), NEW, again);
            && second.Next? && second.output == first.output
            && End(Second(c), second.value) == End(c, first.value)
  {
    hide Feed, Drain, Sane, GoodConfig, Settled, NoTrap, End, AllContent, NoReturn, NoCrlf;
    var first := Feed(c, NEW, chunks);
    var shown, done := first.output, End(c, first.value).frames;
    NewIsSane(c);
    EmptyFromGood(c);
    FeedKeeps(c, NEW, chunks);
    EndKeeps(c, first.value);
    var last: Core :| Sane(c, last) && last.terminal && last.completion == done;
    ContentsNoReturn(c, shown);
    CompletionNoReturn(c, last);
    JoinNoReturn(Concat(shown), Concat(done));
    ConcatParts(shown, done);
    NoReturnNoTrap(Concat(again));
    assert NEW.buffer + Concat(again) == Concat(again);
    FeedIsPush(Second(c), NEW, again);
    NormalizeNothing(Concat(again));
    SecondReads(c, last, shown, done);
  }

  lemma EmptyFromGood(c: Config)
    requires GoodConfig(c)
    ensures !c.usageFrame && GoodConfig(Second(c))
  {
    hide GoodNumbers, GoodId;
  }

  lemma SecondReads(c: Config, last: Core, shown: Frames, done: Frames)
    requires GoodConfig(c) && Sane(c, last) && last.terminal && last.completion == done && AllContent(c, shown)
    ensures var second := Drain(Second(c), START, Concat(shown) + Concat(done));
            && second.Next? && second.output == shown && End(Second(c), second.value) == Completed(done)
  {
    hide Drain, GoodConfig, Chunk, ContentDelta;
    var d := Second(c);
    EmptyFromGood(c);
    SecondIsSane(c, last);
    forall i | 0 <= i < |shown| ensures ContentFrame(d, shown[i]) {
      SameFrame(c, shown[i]);
    }
    ContentsAgain(d, START, shown, Concat(done));
    var s := START.(semantic := START.semantic || |shown| > 0);
    var semantic, after := CompletionAgain(d, last, s);
    assert shown + [] == shown;
  }

  lemma SameFrame(c: Config, f: Chars)
    requires ContentFrame(c, f)
    ensures ContentFrame(Second(c), f)
  {
    hide DataFrame, Print;
    var x: Chars :| |x| > 0 && f == Chunk(c, ContentDelta(x), Null);
    assert ChunkJson(Second(c), ContentDelta(x), Null) == ChunkJson(c, ContentDelta(x), Null);
    assert f == Chunk(Second(c), ContentDelta(x), Null);
  }

  lemma SecondIsSane(c: Config, s: Core)
    requires Sane(c, s)
    ensures Sane(Second(c), s)
  {
    hide DataFrame, Print, CallId;
    if s.terminal && s.finish == Some(ToolCalls) {
      SameCallsJson(c, s.tools, |s.tools|);
    }
    if s.terminal {
      assert ChunkJson(Second(c), Obj([]), ReasonOf(s.finish.value)) == ChunkJson(c, Obj([]), ReasonOf(s.finish.value));
    }
  }

  lemma {:induction false} SameCallsJson(c: Config, tools: map<int, Call>, n: nat)
    requires forall i | 0 <= i < n :: i in tools
    ensures CallsJson(Second(c), tools, n) == CallsJson(c, tools, n)
  {
    if n > 0 {
      SameCallsJson(c, tools, n - 1);
    }
  }

  // ---- where splitting does show ----

  const EVENT_FIELD: Chars := EVENT + [COLON]
  const DATA_LINE: Chars := DATA + [COLON, 120]

  /** One block with a carriage return before the CRLF that ends its first line. */
  const TRAPPED: Chars := EVENT_FIELD + ([RETURN, RETURN, NEWLINE] + (DATA_LINE + [NEWLINE, NEWLINE]))

  /** In one chunk the event is named by a carriage return and refused as a failure of the upstream; cut after the CRLF it has
      no name, and the payload is refused instead. */
  lemma SplittingShows(c: Config)
    ensures Feed(c, NEW, [TRAPPED]) == Denied(UpstreamFailure, [], false)
    ensures Feed(c, NEW, [EVENT_FIELD + [RETURN, RETURN, NEWLINE], DATA_LINE + [NEWLINE, NEWLINE]]) == Denied(InvalidStream, [], false)
    ensures EVENT_FIELD + [RETURN, RETURN, NEWLINE] + (DATA_LINE + [NEWLINE, NEWLINE]) == TRAPPED && TrapAt(TRAPPED, |EVENT_FIELD|)
  {
    hide Feed, Push, TRAPPED, EVENT_FIELD, DATA_LINE;
    WholeRefused(c);
    CutRefused(c);
    FeedOne(c, NEW, TRAPPED);
    FeedTwo(c, NEW, EVENT_FIELD + [RETURN, RETURN, NEWLINE], DATA_LINE + [NEWLINE, NEWLINE]);
    TrappedParts();
  }

  lemma TrappedParts()
    ensures EVENT_FIELD + [RETURN, RETURN, NEWLINE] + (DATA_LINE + [NEWLINE, NEWLINE]) == TRAPPED && TrapAt(TRAPPED, |EVENT_FIELD|)
  {
    hide EVENT_FIELD, DATA_LINE;
    var x, t := EVENT_FIELD, TRAPPED;
    assert t[|x|] == RETURN && t[|x| + 1] == RETURN && t[|x| + 2] == NEWLINE;
  }

  lemma WholeRefused(c: Config)
    ensures Push(c, NEW, TRAPPED) == Denied(UpstreamFailure, [], false)
  {
    hide Drain, Normalize, FindBlank, Block, EVENT_FIELD, DATA_LINE, NoCrlf, CleanCut;
    var tail := DATA_LINE + [NEWLINE, NEWLINE];
    Settling();
    Lines(c);
    TrapParts(tail);
    NormalizeNothing(tail);
    NormalizeNothing(EVENT_FIELD);
    NormalizeParts(EVENT_FIELD, [RETURN, RETURN, NEWLINE] + tail);
    var block := EVENT_FIELD + [RETURN, NEWLINE] + DATA_LINE;
    assert EVENT_FIELD + ([RETURN, NEWLINE] + tail) == block + ([NEWLINE, NEWLINE] + []);
    assert NEW.buffer + TRAPPED == TRAPPED;
    OneBlock(c, START, block);
  }

  lemma CutRefused(c: Config)
    ensures var first := Push(c, NEW, EVENT_FIELD + [RETURN, RETURN, NEWLINE]);
            && first == Next(Stream(EVENT_FIELD + [RETURN, NEWLINE], START), [], false)
            && Push(c, first.value, DATA_LINE + [NEWLINE, NEWLINE]) == Denied(InvalidStream, [], false)
  {
    hide Drain, Normalize, FindBlank, Block, EVENT_FIELD, DATA_LINE, NoCrlf, CleanCut;
    var tail := DATA_LINE + [NEWLINE, NEWLINE];
    Settling();
    Lines(c);
    TrapParts(tail);
    NormalizeNothing(tail);
    NormalizeNothing(EVENT_FIELD);
    NormalizeParts(EVENT_FIELD, [RETURN, RETURN, NEWLINE]);
    NormalizeParts(EVENT_FIELD, [RETURN, NEWLINE] + tail);
    var cut, kept := EVENT_FIELD + [RETURN, RETURN, NEWLINE], EVENT_FIELD + [RETURN, NEWLINE];
    assert NEW.buffer + cut == cut;
    NoBlock(c, START, kept);
    assert kept + tail == EVENT_FIELD + ([RETURN, NEWLINE] + tail);
    var block := EVENT_FIELD + [NEWLINE] + DATA_LINE;
    assert EVENT_FIELD + ([NEWLINE] + tail) == block + ([NEWLINE, NEWLINE] + []);
    OneBlock(c, START, block);
  }

  /** The parts are normal as they are, and may be cut from what follows. */
  lemma Settling()
    ensures var tail := DATA_LINE + [NEWLINE, NEWLINE];
            && NoCrlf(tail) && NoCrlf(EVENT_FIELD)
            && CleanCut(EVENT_FIELD, [RETURN, RETURN, NEWLINE] + tail) && CleanCut(EVENT_FIELD, [RETURN, RETURN, NEWLINE])
            && CleanCut(EVENT_FIELD, [RETURN, NEWLINE] + tail)
            && forall i | 0 <= i < |EVENT_FIELD| + 1 :: (EVENT_FIELD + [RETURN, NEWLINE])[i] != NEWLINE
  {
    hide EVENT_FIELD, DATA_LINE;
    FieldNames();
    var tail := DATA_LINE + [NEWLINE, NEWLINE];
    assert forall i | 0 <= i < |tail| :: tail[i] != RETURN;
  }

  lemma FieldNames()
    ensures |EVENT_FIELD| == 6 && |DATA_LINE| == 6
    ensures NoReturn(EVENT_FIELD) && NoReturn(DATA_LINE)
    ensures forall i | 0 <= i < 6 :: EVENT_FIELD[i] != NEWLINE && DATA_LINE[i] != NEWLINE
    ensures forall i | 0 <= i < 5 :: EVENT[i] != COLON
    ensures EVENT != DATA
  {
    assert EVENT[0] == 101 && EVENT[1] == 118 && EVENT[2] == 101 && EVENT[3] == 110 && EVENT[4] == 116;
    DataIsData();
  }

  lemma FeedOne(c: Config, s: Stream, x: Chars)
    requires Push(c, s, x).Denied?
    ensures Feed(c, s, [x]) == Push(c, s, x)
  {
    hide Push;
  }

  lemma FeedTwo(c: Config, s: Stream, x: Chars, y: Chars)
    requires Push(c, s, x).Next? && Push(c, s, x).output == [] && Push(c, Push(c, s, x).value, y).Denied?
    ensures Feed(c, s, [x, y]) == Push(c, Push(c, s, x).value, y)
  {
    hide Push;
    assert [x, y][1..] == [y];
    FeedOne(c, Push(c, s, x).value, y);
    var later := Push(c, Push(c, s, x).value, y);
    assert [] + later.output == later.output;
  }

  lemma OneBlock(c: Config, s: Core, block: Chars)
    requires (forall i: nat :: !BreakAt(block, i)) && Block(c, s, block).Denied?
    ensures var first := Block(c, s, block);
            Drain(c, s, block + ([NEWLINE, NEWLINE] + [])) == Denied(first.why, first.output, first.semantic)
  {
    hide Block, FindBlank;
    FindBlankAt(block, []);
    assert (block + ([NEWLINE, NEWLINE] + []))[..|block|] == block;
  }

  lemma {:induction false} NoBlank(t: Chars)
    requires forall i | 0 <= i < |t| - 1 :: t[i] != NEWLINE
    ensures FindBlank(t) == None
  {
    if |t| >= 2 {
      NoBlank(t[1..]);
    }
  }

  lemma NoBlock(c: Config, s: Core, t: Chars)
    requires forall i | 0 <= i < |t| - 1 :: t[i] != NEWLINE
    ensures Drain(c, s, t) == Next(Stream(t, s), [], false)
  {
    hide FindBlank, Block;
    NoBlank(t);
  }

  /** What the two blocks say: an event named by a carriage return, or an event without a name; and the data `x`. */
  lemma Lines(c: Config)
    ensures var named := EVENT_FIELD + [RETURN, NEWLINE] + DATA_LINE;
            Block(c, START, named) == Denied(UpstreamFailure, [], false) && forall i: nat :: !BreakAt(named, i)
    ensures var unnamed := EVENT_FIELD + [NEWLINE] + DATA_LINE;
            Block(c, START, unnamed) == Denied(InvalidStream, [], false) && forall i: nat :: !BreakAt(unnamed, i)
  {
    hide Payload, AddLine, SplitLines;
    FieldNames();
    assert EVENT_FIELD + [RETURN, NEWLINE] + DATA_LINE == (EVENT_FIELD + [RETURN]) + ([NEWLINE] + DATA_LINE);
    assert EVENT_FIELD + [NEWLINE] + DATA_LINE == EVENT_FIELD + ([NEWLINE] + DATA_LINE);
    TwoLines(EVENT_FIELD + [RETURN], DATA_LINE);
    TwoLines(EVENT_FIELD, DATA_LINE);
    NamedFields();
    NotJson(c);
  }

  lemma NamedFields()
    ensures ReadLines([EVENT_FIELD + [RETURN], DATA_LINE]) == Some(Fields([[120]], [RETURN]))
    ensures ReadLines([EVENT_FIELD, DATA_LINE]) == Some(Fields([[120]], []))
  {
    hide FindUnit, AddLine;
    FieldNames();
    DataIsData();
    var empty := Fields([], []);
    assert EVENT_FIELD + [RETURN] == EVENT + ([COLON] + [RETURN]) && EVENT_FIELD == EVENT + ([COLON] + []);
    assert DATA_LINE == DATA + ([COLON] + [120]);
    FieldLine(empty, EVENT, [RETURN]);
    NamelessLine(empty);
    FieldLine(Fields([], [RETURN]), DATA, [120]);
    FieldLine(empty, DATA, [120]);
    ReadTwo(EVENT_FIELD + [RETURN], DATA_LINE);
    ReadTwo(EVENT_FIELD, DATA_LINE);
    assert [] + [[120]] == [[120]];
  }

  lemma NamelessLine(f: Fields)
    ensures AddLine(f, EVENT_FIELD) == Some(f.(event := []))
  {
    hide FindUnit;
    FieldNames();
    assert EVENT_FIELD == EVENT + ([COLON] + []);
    FindUnitAt(EVENT, COLON, []);
    assert EVENT_FIELD[..5] == EVENT && EVENT_FIELD[6..] == [];
    assert EVENT_FIELD[0] == EVENT[0];
  }

  lemma ReadTwo(x: Chars, y: Chars)
    requires AddLine(Fields([], []), x).Some?
    ensures ReadLines([x, y]) == AddLine(AddLine(Fields([], []), x).value, y)
  {
    hide AddLine;
    assert [x, y][..1] == [x];
    OneField(x);
  }

  lemma NotJson(c: Config)
    ensures Payload(c, START, [120]) == Denied(InvalidStream, [], false)
  {
    var t: Chars := [120];
    assert t[0..] == t;
    assert ParseLiteral(t, Reader(c)) == Bad;
    assert DONE[0] == OPEN_ARRAY;
  }
}
