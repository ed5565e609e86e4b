/** The chat stream against its input (`experiments/inference-boundary/protocol.ts:87-195`): which inputs are accepted, in
    whatever chunks they come, and what an accepted one has shown, holds and completes with. The input is described without the
    parser: blocks of lines, whose data are the payloads of a transcript. */
module ChatContents {
  import opened Text
  import opened Json
  import opened JsonRoundTrip
  import opened JsonTheorems
  import opened ChatModel
  import opened ChatFrames
  import opened ChatChunks
  import opened ChatFixpoint
  import opened ChatLines
  import opened ChatParts
  import X = ChatTranscript

  const NEW := Stream([], START)

  // ---- from chunks to blocks ----

  /** The blocks that end within the chunks; what is kept of one chunk is put in front of the next and normalised with it. */
  function BlocksOf(buffer: Chars, chunks: seq<Chars>): seq<Chars>
    decreases |chunks|
  {
    if |chunks| == 0 then []
    else
      var text := Normalize(buffer + chunks[0]);
      Blocks(text) + BlocksOf(Rest(text), chunks[1..])
  }

  function RestOf(buffer: Chars, chunks: seq<Chars>): Chars
    decreases |chunks|
  {
    if |chunks| == 0 then buffer else RestOf(Rest(Normalize(buffer + chunks[0])), chunks[1..])
  }

  function RunBlocks(c: Config, s: Core, blocks: seq<Chars>): Step<Core>
    decreases |blocks|
  {
    if |blocks| == 0 then Next(s, [], false)
    else
      match Block(c, s, blocks[0])
      case Denied(why, output, semantic) => Denied(why, output, semantic)
      case Next(s', output, semantic) => Then(output, semantic, RunBlocks(c, s', blocks[1..]))
  }

  function WithRest(step: Step<Core>, rest: Chars): Step<Stream> {
    match step
    case Next(s, output, semantic) => Next(Stream(rest, s), output, semantic)
    case Denied(why, output, semantic) => Denied(why, output, semantic)
  }

  lemma {:induction false} DrainRuns(c: Config, s: Core, t: Chars)
    ensures Drain(c, s, t) == WithRest(RunBlocks(c, s, Blocks(t)), Rest(t))
    decreases |t|
  {
    hide Block, FindBlank;
    var end := FindBlank(t);
    if end.Some? {
      var rest := t[end.value + 2..];
      assert Blocks(t)[0] == t[..end.value] && Blocks(t)[1..] == Blocks(rest);
      var first := Block(c, s, t[..end.value]);
      if first.Next? {
        DrainRuns(c, first.value, rest);
      }
    }
  }

  lemma {:induction false} RunBoth(c: Config, s: Core, a: seq<Chars>, b: seq<Chars>)
    ensures RunBlocks(c, s, a + b) ==
            match RunBlocks(c, s, a)
            case Denied(why, output, semantic) => Denied(why, output, semantic)
            case Next(s', output, semantic) => Then(output, semantic, RunBlocks(c, s', b))
    decreases |a|
  {
    hide Block;
    if |a| == 0 {
      assert a + b == b;
      ThenZero(RunBlocks(c, s, b));
    } else {
      assert (a + b)[1..] == a[1..] + b && (a + b)[0] == a[0];
      var first := Block(c, s, a[0]);
      if first.Next? {
        RunBoth(c, first.value, a[1..], b);
        var second := RunBlocks(c, first.value, a[1..]);
        if second.Next? {
          ThenTwice(first.output, first.semantic, second.output, second.semantic, RunBlocks(c, second.value, b));
        }
      }
    }
  }

  lemma ThenZero<T>(later: Step<T>)
    ensures Then([], false, later) == later
  {
    assert [] + later.output == later.output;
  }

  lemma ThenTwice<T>(a: Frames, x: bool, b: Frames, y: bool, later: Step<T>)
    ensures Then(a, x, Then(b, y, later)) == Then(a + b, x || y, later)
  {
    assert a + (b + later.output) == a + b + later.output;
  }

  lemma {:induction false} FeedRuns(c: Config, s: Stream, chunks: seq<Chars>)
    ensures Feed(c, s, chunks) == WithRest(RunBlocks(c, s.core, BlocksOf(s.buffer, chunks)), RestOf(s.buffer, chunks))
    decreases |chunks|
  {
    hide Drain, RunBlocks, Blocks, Rest, Normalize;
    if |chunks| == 0 {
      NoBlocks(c, s.core);
    } else {
      var text := Normalize(s.buffer + chunks[0]);
      DrainRuns(c, s.core, text);
      RunBoth(c, s.core, Blocks(text), BlocksOf(Rest(text), chunks[1..]));
      var first := RunBlocks(c, s.core, Blocks(text));
      if first.Next? {
        FeedRuns(c, Stream(Rest(text), first.value), chunks[1..]);
      }
    }
  }

  lemma NoBlocks(c: Config, s: Core)
    ensures RunBlocks(c, s, []) == Next(s, [], false)
  {
  }

  // ---- from blocks to payloads ----

  predicate Heard(lines: seq<Line>) { DataIn(lines) == [] || EventIn(lines) == [] || EventIn(lines) == MESSAGE }

  ghost predicate SheetSays(block: Chars, lines: seq<Line>) { BlockSays(block, lines) && Heard(lines) }

  /** Each block says its lines, and none of them is an event of another name. */
  ghost predicate SheetsSay(blocks: seq<Chars>, sheets: seq<seq<Line>>) {
    |blocks| == |sheets| && forall k | 0 <= k < |blocks| :: SheetSays(blocks[k], sheets[k])
  }

  /** The payloads: the data lines of each block that has any, put together again. */
  function PayloadsOf(sheets: seq<seq<Line>>): seq<Chars>
    decreases |sheets|
  {
    if |sheets| == 0 then []
    else (if DataIn(sheets[0]) == [] then [] else [JoinLines(DataIn(sheets[0]))]) + PayloadsOf(sheets[1..])
  }

  lemma {:induction false} RunFront(c: Config, s: Core, p: Chars, ps: seq<Chars>)
    ensures X.Run(c, s, [p] + ps) ==
            match Payload(c, s, p)
            case Denied(why, output, semantic) => Denied(why, output, semantic)
            case Next(s', output, semantic) => Then(output, semantic, X.Run(c, s', ps))
    decreases |ps|
  {
    hide Payload;
    var all := [p] + ps;
    if |ps| == 0 {
      assert all[..0] == [] && all[0] == p;
      ThenZero(Payload(c, s, p));
      var step := Payload(c, s, p);
      assert X.Run(c, s, []) == Next(s, [], false);
      if step.Next? {
        assert X.Run(c, step.value, ps) == Next(step.value, [], false);
        assert step.output + [] == step.output;
      }
    } else {
      var n := |ps| - 1;
      assert all[..|all| - 1] == [p] + ps[..n] && all[|all| - 1] == ps[n];
      RunFront(c, s, p, ps[..n]);
      var first := Payload(c, s, p);
      if first.Next? {
        var second := X.Run(c, first.value, ps[..n]);
        if second.Next? {
          ThenTwice(first.output, first.semantic, second.output, second.semantic, Payload(c, second.value, ps[n]));
        }
      }
    }
  }

  lemma BlockIsSilent(c: Config, s: Core, block: Chars, lines: seq<Line>)
    requires SheetSays(block, lines)
    ensures Block(c, s, block) == if DataIn(lines) == [] then Next(s, [], false) else Payload(c, s, JoinLines(DataIn(lines)))
  {
    hide BlockSays, ReadLines, SplitLines, DataIn, EventIn, Payload, JoinLines;
    BlockExact(block);
  }

  lemma {:induction false} SheetsRun(c: Config, s: Core, blocks: seq<Chars>, sheets: seq<seq<Line>>)
    requires SheetsSay(blocks, sheets)
    ensures RunBlocks(c, s, blocks) == X.Run(c, s, PayloadsOf(sheets))
    decreases |blocks|
  {
    hide SheetSays, Block, Payload, DataIn, JoinLines, X.Run;
    if |blocks| == 0 {
      NothingRuns(c, s, PayloadsOf(sheets));
    } else {
      BlockIsSilent(c, s, blocks[0], sheets[0]);
      var rest := PayloadsOf(sheets[1..]);
      assert SheetsSay(blocks[1..], sheets[1..]);
      var first := Block(c, s, blocks[0]);
      if first.Next? {
        SheetsRun(c, first.value, blocks[1..], sheets[1..]);
      }
      if DataIn(sheets[0]) == [] {
        ThenZero(RunBlocks(c, s, blocks[1..]));
        assert [] + rest == rest;
      } else {
        RunFront(c, s, JoinLines(DataIn(sheets[0])), rest);
      }
    }
  }

  lemma NothingRuns(c: Config, s: Core, ps: seq<Chars>)
    requires |ps| == 0
    ensures X.Run(c, s, ps) == Next(s, [], false)
  {
  }

  lemma BlockIsSaid(c: Config, s: Core, block: Chars) returns (lines: seq<Line>)
    requires Block(c, s, block).Next?
    ensures SheetSays(block, lines)
  {
    hide BlockSays, ReadLines, SplitLines, DataIn, EventIn, Payload, JoinLines;
    BlockExact(block);
    lines :| BlockSays(block, lines);
  }

  lemma {:induction false} BlocksAreSaid(c: Config, s: Core, blocks: seq<Chars>) returns (sheets: seq<seq<Line>>)
    requires RunBlocks(c, s, blocks).Next?
    ensures SheetsSay(blocks, sheets)
    decreases |blocks|
  {
    hide SheetSays, Block;
    sheets := [];
    if |blocks| > 0 {
      var lines := BlockIsSaid(c, s, blocks[0]);
      var rest := BlocksAreSaid(c, Block(c, s, blocks[0]).value, blocks[1..]);
      sheets := [lines] + rest;
      forall k | 0 <= k < |blocks| ensures SheetSays(blocks[k], sheets[k]) {
        assert k > 0 ==> blocks[k] == blocks[1..][k - 1] && sheets[k] == rest[k - 1];
      }
    }
  }

  // ---- the theorem ----

  /** The input says the sheets, and their payloads are those of the transcript. */
  ghost predicate Sent(c: Config, chunks: seq<Chars>, sheets: seq<seq<Line>>, tr: X.Transcript) {
    SheetsSay(BlocksOf([], chunks), sheets) && X.Accepts(c, PayloadsOf(sheets), tr)
  }

  /** In whatever chunks it comes, an input is accepted so far exactly when its complete blocks are those of a transcript. */
  lemma StreamExact(c: Config, chunks: seq<Chars>)
    ensures Feed(c, NEW, chunks).Next? <==> exists sheets, tr :: Sent(c, chunks, sheets, tr)
  {
    hide Feed, RunBlocks, SheetsSay, X.Accepts, X.Sound, X.Run, BlocksOf, X.ContentsOf, X.SomeMeaning;
    FeedRuns(c, NEW, chunks);
    if Feed(c, NEW, chunks).Next? {
      var sheets := BlocksAreSaid(c, START, BlocksOf([], chunks));
      SheetsRun(c, START, BlocksOf([], chunks), sheets);
      var tr := X.AcceptedHasTranscript(c, PayloadsOf(sheets));
      assert Sent(c, chunks, sheets, tr);
    }
    if sheets, tr :| Sent(c, chunks, sheets, tr) {
      SheetsRun(c, START, BlocksOf([], chunks), sheets);
      X.TranscriptIsAccepted(c, PayloadsOf(sheets), tr);
    }
  }

  /** Then it has shown the contents of the messages in their order, and holds the calls that their parts add up to, the finish
      reason of the last message, and the text after the last complete block. */
  lemma StreamHolds(c: Config, chunks: seq<Chars>, sheets: seq<seq<Line>>, tr: X.Transcript)
    requires Sent(c, chunks, sheets, tr)
    ensures var fed := Feed(c, NEW, chunks);
            && fed.Next? && fed.output == X.ContentsOf(c, tr.messages) && fed.semantic == X.SomeMeaning(tr.messages)
            && fed.value.buffer == RestOf([], chunks) && X.Sound(c, tr, fed.value.core)
  {
    hide Feed, RunBlocks, SheetsSay, X.Accepts, X.Sound, X.Run, BlocksOf, X.ContentsOf, X.SomeMeaning;
    FeedRuns(c, NEW, chunks);
    SheetsRun(c, START, BlocksOf([], chunks), sheets);
    X.TranscriptIsAccepted(c, PayloadsOf(sheets), tr);
  }

  // ---- what is refused ----

  lemma {:induction false} DeniedAt(c: Config, s: Core, blocks: seq<Chars>) returns (k: nat)
    requires RunBlocks(c, s, blocks).Denied?
    ensures k < |blocks| && RunBlocks(c, s, blocks[..k]).Next?
    ensures var before := RunBlocks(c, s, blocks[..k]);
            var last := Block(c, before.value, blocks[k]);
            last.Denied? && RunBlocks(c, s, blocks) == Denied(last.why, before.output + last.output, last.semantic)
    decreases |blocks|
  {
    hide Block;
    var first := Block(c, s, blocks[0]);
    if first.Denied? {
      k := 0;
      assert blocks[..0] == [];
      NoBlocks(c, s);
      assert [] + first.output == first.output;
    } else {
      var n := DeniedAt(c, first.value, blocks[1..]);
      k := n + 1;
      assert blocks[..k][0] == blocks[0] && blocks[..k][1..] == blocks[1..][..n];
      var before := RunBlocks(c, first.value, blocks[1..][..n]);
      var last := Block(c, before.value, blocks[k]);
      assert first.output + (before.output + last.output) == first.output + before.output + last.output;
    }
  }

  /** Why a block is refused after the payloads of a transcript, and what it has shown before. */
  ghost predicate RefusedFor(c: Config, tr: X.Transcript, block: Chars, why: Denial, shown: Frames) {
    && ((forall lines :: !BlockSays(block, lines)) ==> why == InvalidStream && shown == [])
    && (forall lines | BlockSays(block, lines) :: LinesRefusedFor(c, tr, lines, why, shown))
  }

  ghost predicate LinesRefusedFor(c: Config, tr: X.Transcript, lines: seq<Line>, why: Denial, shown: Frames) {
    && DataIn(lines) != []
    && if Heard(lines) then PayloadRefusedFor(c, tr, JoinLines(DataIn(lines)), why, shown) else why == UpstreamFailure && shown == []
  }

  ghost predicate PayloadRefusedFor(c: Config, tr: X.Transcript, text: Chars, why: Denial, shown: Frames) {
    && (why == UpstreamFailure <==> tr.ends == 0 && X.SaysError(c, text))
    && (forall content | X.Open(tr) && X.Opens(c, text, content) ::
          shown == if content == [] then [] else [Chunk(c, ContentDelta(content), Null)])
    && (!X.Open(tr) || (forall x :: !X.Opens(c, text, x)) ==> shown == [])
  }

  lemma PayloadRefusal(c: Config, tr: X.Transcript, s: Core, text: Chars)
    requires X.Sound(c, tr, s) && tr.ends <= 2 && Payload(c, s, text).Denied?
    ensures PayloadRefusedFor(c, tr, text, Payload(c, s, text).why, Payload(c, s, text).output)
  {
    hide X.Sound, Payload, X.SaysError, X.Opens, Chunk, ContentDelta, X.Open;
    X.RefusalExact(c, tr, s, text, []);
    forall content | X.Open(tr) && X.Opens(c, text, content)
      ensures Payload(c, s, text).output == if content == [] then [] else [Chunk(c, ContentDelta(content), Null)]
    {
      X.RefusalExact(c, tr, s, text, content);
    }
  }

  lemma BlockRefusal(c: Config, tr: X.Transcript, s: Core, block: Chars)
    requires X.Sound(c, tr, s) && tr.ends <= 2 && Block(c, s, block).Denied?
    ensures RefusedFor(c, tr, block, Block(c, s, block).why, Block(c, s, block).output)
  {
    hide X.Sound, Payload, PayloadRefusedFor, BlockSays, ReadLines, SplitLines, DataIn, EventIn, JoinLines;
    BlockExact(block);
    var step := Block(c, s, block);
    forall lines | BlockSays(block, lines) ensures LinesRefusedFor(c, tr, lines, step.why, step.output) {
      if Heard(lines) {
        PayloadRefusal(c, tr, s, JoinLines(DataIn(lines)));
      }
    }
  }

  /** A refused input: the blocks before the refused one are those of a transcript, and their contents have been shown. */
  lemma StreamRefusal(c: Config, chunks: seq<Chars>) returns (k: nat, sheets: seq<seq<Line>>, tr: X.Transcript, shown: Frames)
    requires Feed(c, NEW, chunks).Denied?
    ensures var blocks := BlocksOf([], chunks);
            && k < |blocks| && SheetsSay(blocks[..k], sheets) && X.Accepts(c, PayloadsOf(sheets), tr)
            && Feed(c, NEW, chunks).output == X.ContentsOf(c, tr.messages) + shown
            && RefusedFor(c, tr, blocks[k], Feed(c, NEW, chunks).why, shown)
  {
    hide Feed, RunBlocks, SheetsSay, X.Accepts, X.Sound, X.Run, BlocksOf, X.ContentsOf, X.SomeMeaning, RefusedFor, Block;
    FeedRuns(c, NEW, chunks);
    var blocks := BlocksOf([], chunks);
    k := DeniedAt(c, START, blocks);
    sheets := BlocksAreSaid(c, START, blocks[..k]);
    SheetsRun(c, START, blocks[..k], sheets);
    tr := X.AcceptedHasTranscript(c, PayloadsOf(sheets));
    X.TranscriptIsAccepted(c, PayloadsOf(sheets), tr);
    X.AtMostTwo(c, PayloadsOf(sheets), tr);
    var s := RunBlocks(c, START, blocks[..k]).value;
    shown := Block(c, s, blocks[k]).output;
    BlockRefusal(c, tr, s, blocks[k]);
  }

  // ---- the end ----

  predicate OnlyNewlines(t: Chars) { forall i | 0 <= i < |t| :: t[i] == NEWLINE }

  lemma FrameIsOneLine(u: Chars)
    ensures Normalize(u + DataFrame(DONE)) == Normalize(u) + DataFrame(DONE)
  {
    hide Normalize;
    DataIsData();
    DoneIsPlain();
    var frame := DataFrame(DONE);
    assert frame[0] == DATA[0];
    assert forall i | 0 <= i < |frame| :: frame[i] != RETURN;
    NormalizeParts(u, frame);
    assert NoCrlf(frame);
    NormalizeNothing(frame);
  }

  lemma DoneIsPlain()
    ensures Unbroken(DONE)
  {
    assert DONE[0] == 91 && DONE[1] == 68 && DONE[2] == 79 && DONE[3] == 78 && DONE[4] == 69 && DONE[5] == 93;
  }

  /** Nothing but line ends was kept. */
  lemma {:induction false} NewlinesAreBlank(t: Chars)
    requires OnlyNewlines(Normalize(t))
    ensures AllBlank(t)
    decreases |t|
  {
    if |t| >= 2 && t[0] == RETURN && t[1] == NEWLINE {
      assert Normalize(t)[1..] == Normalize(t[2..]);
      NewlinesAreBlank(t[2..]);
      assert t == [t[0], t[1]] + t[2..];
    } else if |t| > 0 {
      assert Normalize(t)[0] == t[0] && Normalize(t)[1..] == Normalize(t[1..]);
      NewlinesAreBlank(t[1..]);
      assert t == [t[0]] + t[1..];
    }
  }

  lemma {:induction false} BlankStays(t: Chars)
    requires AllBlank(t)
    ensures AllBlank(Normalize(t))
    decreases |t|
  {
    if |t| >= 2 && t[0] == RETURN && t[1] == NEWLINE {
      BlankStays(t[2..]);
    } else if |t| > 0 {
      BlankStays(t[1..]);
    }
  }

  lemma EmptyBlock(c: Config, s: Core)
    ensures Block(c, s, []) == Next(s, [], false)
  {
    assert SplitLines([]) == [[]];
    OneField([]);
    SkippedLine(Fields([], []), []);
  }

  /** An empty line before the end mark does not matter. */
  lemma LineThenDone(c: Config, s: Core)
    ensures Drain(c, s, [NEWLINE] + DataFrame(DONE)) == Drain(c, s, DataFrame(DONE))
  {
    hide Block, FindBlank;
    DataIsData();
    DoneIsPlain();
    var line := DATA + ([COLON, SPACE] + DONE);
    var t := DataFrame(DONE);
    assert t == line + ([NEWLINE, NEWLINE] + []);
    FindBlankAt(line, []);
    assert t[..|line|] == line && t[|line| + 2..] == [];
    var longer := [NEWLINE] + line;
    assert [NEWLINE] + t == longer + ([NEWLINE, NEWLINE] + []);
    assert longer == [] + ([NEWLINE] + line);
    assert longer[1] == DATA[0];
    FindBlankAt(longer, []);
    assert ([NEWLINE] + t)[..|longer|] == longer && ([NEWLINE] + t)[|longer| + 2..] == [];
    SameBlock(c, s, line);
  }

  lemma SameBlock(c: Config, s: Core, line: Chars)
    requires forall i | 0 <= i < |line| :: line[i] != NEWLINE
    ensures Block(c, s, [NEWLINE] + line) == Block(c, s, line)
  {
    hide Payload, SplitLines, JoinLines, AddLine;
    assert [NEWLINE] + line == [] + ([NEWLINE] + line);
    OneLine(line);
    TwoLines([], line);
    OneField(line);
    TwoFields(line);
  }

  lemma TwoFields(line: Chars)
    ensures ReadLines([[], line]) == AddLine(Fields([], []), line)
  {
    hide AddLine;
    assert [[], line][..1] == [[]] && [[], line][1] == line;
    OneField([]);
    SkippedLine(Fields([], []), []);
  }

  /** A kept text of newlines only, in front of the end mark. */
  lemma {:induction false} NewlinesThenDone(c: Config, s: Core, u: Chars)
    requires OnlyNewlines(u)
    ensures Drain(c, s, u + DataFrame(DONE)) == Drain(c, s, DataFrame(DONE))
    decreases |u|
  {
    hide Drain, Block, FindBlank, DataFrame;
    if |u| == 0 {
      assert u + DataFrame(DONE) == DataFrame(DONE);
    } else if |u| == 1 {
      LineThenDone(c, s);
      assert u == [NEWLINE];
    } else {
      assert u == [NEWLINE, NEWLINE] + u[2..];
      SkipEmpty(c, s, u[2..] + DataFrame(DONE));
      assert u + DataFrame(DONE) == [NEWLINE, NEWLINE] + (u[2..] + DataFrame(DONE));
      NewlinesThenDone(c, s, u[2..]);
    }
  }

  lemma SkipEmpty(c: Config, s: Core, more: Chars)
    ensures Drain(c, s, [NEWLINE, NEWLINE] + more) == Drain(c, s, more)
  {
    hide Block;
    var t := [NEWLINE, NEWLINE] + more;
    assert t[..0] == [] && t[2..] == more;
    EmptyBlock(c, s);
    ThenZero(Drain(c, s, more));
  }

  /** A line that starts with a blank other than a newline is refused. */
  lemma BlankLine(f: Fields, line: Chars)
    requires |line| > 0 && Blank(line[0])
    ensures AddLine(f, line) == None
  {
    hide FindUnit, DATA, EVENT;
    FieldNames();
  }

  lemma {:induction false} OneRefused(lines: seq<Chars>, k: nat)
    requires k < |lines| && |lines[k]| > 0 && Blank(lines[k][0])
    ensures ReadLines(lines) == None
    decreases |lines|
  {
    hide AddLine;
    var n := |lines| - 1;
    if ReadLines(lines[..n]).Some? {
      if k == n {
        BlankLine(ReadLines(lines[..n]).value, lines[n]);
      } else {
        OneRefused(lines[..n], k);
      }
    }
  }

  predicate LineStart(t: Chars, i: nat) { i < |t| && t[i] != NEWLINE && (i == 0 || t[i - 1] == NEWLINE) }

  lemma {:induction false} StartOfLine(t: Chars, i: nat) returns (k: nat)
    requires LineStart(t, i)
    ensures k < |SplitLines(t)| && |SplitLines(t)[k]| > 0 && SplitLines(t)[k][0] == t[i]
    decreases |t|
  {
    var end := FindUnit(t, NEWLINE);
    if i == 0 {
      k := 0;
    } else {
      var rest := t[end.value + 1..];
      assert LineStart(rest, i - (end.value + 1));
      var n := StartOfLine(rest, i - (end.value + 1));
      k := n + 1;
    }
  }

  lemma BlankBlock(c: Config, s: Core, block: Chars, i: nat)
    requires LineStart(block, i) && Blank(block[i])
    ensures Block(c, s, block) == Denied(InvalidStream, [], s.semantic)
  {
    hide ReadLines, SplitLines, Payload, JoinLines;
    var k := StartOfLine(block, i);
    OneRefused(SplitLines(block), k);
  }

  /** Anything else that is blank, in front of the end mark. */
  lemma {:induction false} BlanksThenDone(c: Config, s: Core, u: Chars)
    requires AllBlank(u) && !OnlyNewlines(u)
    ensures Drain(c, s, u + DataFrame(DONE)) == Denied(InvalidStream, [], s.semantic)
    decreases |u|
  {
    hide Drain, Block, FindBlank, DataFrame;
    if |u| >= 2 && u[0] == NEWLINE && u[1] == NEWLINE {
      assert u == [NEWLINE, NEWLINE] + u[2..];
      SkipEmpty(c, s, u[2..] + DataFrame(DONE));
      assert u + DataFrame(DONE) == [NEWLINE, NEWLINE] + (u[2..] + DataFrame(DONE));
      BlanksThenDone(c, s, u[2..]);
    } else {
      var i := FirstStart(u);
      var t := u + DataFrame(DONE);
      FrameEnds();
      var end := EndsLater(t, i);
      assert LineStart(t[..end], i);
      BlankBlock(c, s, t[..end], i);
      DrainDenied(c, s, t);
    }
  }

  lemma FrameEnds()
    ensures var t := DataFrame(DONE); |t| >= 2 && t[|t| - 1] == NEWLINE && t[|t| - 2] == NEWLINE
  {
  }

  lemma DrainDenied(c: Config, s: Core, t: Chars)
    requires FindBlank(t).Some? && Block(c, s, t[..FindBlank(t).value]).Denied?
    ensures Drain(c, s, t) == Denied(Block(c, s, t[..FindBlank(t).value]).why, Block(c, s, t[..FindBlank(t).value]).output,
                                     Block(c, s, t[..FindBlank(t).value]).semantic)
  {
    hide Block, FindBlank;
  }

  /** A text that does not start with an empty line, with something else than newlines, starts a line at its first or second unit. */
  lemma FirstStart(u: Chars) returns (i: nat)
    requires !OnlyNewlines(u) && !(|u| >= 2 && u[0] == NEWLINE && u[1] == NEWLINE)
    ensures LineStart(u, i) && i <= 1
  {
    i := if u[0] == NEWLINE then 1 else 0;
  }

  lemma EndsLater(t: Chars, i: nat) returns (end: nat)
    requires LineStart(t, i) && i <= 1 && |t| >= 2 && t[|t| - 1] == NEWLINE && t[|t| - 2] == NEWLINE
    ensures FindBlank(t) == Some(end) && i < end
  {
    FoundFirst(t);
    assert BlankAt(t, |t| - 2);
    end := FindBlank(t).value;
    assert t[end] == NEWLINE && t[end + 1] == NEWLINE;
  }

  /** The end mark that a receipt-gated stream gives itself, after a blank text: it is taken exactly when that text is nothing
      but line ends. */
  lemma OwnEnd(c: Config, tr: X.Transcript, s: Stream)
    requires X.Sound(c, tr, s.core) && X.Closed(tr) && AllBlank(s.buffer)
    ensures var last := Push(c, s, DataFrame(DONE));
            && (last.Next? <==> OnlyNewlines(Normalize(s.buffer)) && X.Finishable(c, X.LastFinish(tr.messages), tr.tools))
            && (last.Next? ==> last.value.buffer == [] && X.Sound(c, tr.(ends := 1), last.value.core) && last.value.core.terminal)
            && (last.Denied? ==> last.why == InvalidStream)
  {
    hide Drain, Normalize, Payload, DataFrame, X.Finishable, Collects, AllInPlace, X.CompletionOf;
    var u := Normalize(s.buffer);
    FrameIsOneLine(s.buffer);
    BlankStays(s.buffer);
    if OnlyNewlines(u) {
      NewlinesThenDone(c, s.core, u);
      DoneIsPlain();
      assert DataFrame(DONE) + [] == DataFrame(DONE);
      FrameReads(c, s.core, DONE, []);
      X.EndAccepted(c, tr, s.core, DONE);
      var step := Payload(c, s.core, DONE);
      if step.Next? {
        NothingLeft(c, step.value);
      }
    } else {
      BlanksThenDone(c, s.core, u);
    }
  }

  lemma NothingLeft(c: Config, s: Core)
    ensures Drain(c, s, []) == Next(Stream([], s), [], false)
  {
  }

  /** A receipt-gated stream without an end mark may be ended by its caller. */
  predicate EndsItself(c: Config, tr: X.Transcript, rest: Chars) {
    && c.terminal == ReceiptGatedEof && X.Closed(tr) && X.Finishable(c, X.LastFinish(tr.messages), tr.tools)
    && OnlyNewlines(Normalize(rest))
  }

  /** The stream completes exactly when an end mark came and only blanks after it, or when it may end itself; what it completes
      with is said by the transcript. */
  lemma EndExact(c: Config, chunks: seq<Chars>, sheets: seq<seq<Line>>, tr: X.Transcript)
    requires Sent(c, chunks, sheets, tr)
    ensures Feed(c, NEW, chunks).Next?
    ensures var end, rest := End(c, Feed(c, NEW, chunks).value), RestOf([], chunks);
            && (end.Completed? <==> (tr.ends > 0 && AllBlank(rest)) || EndsItself(c, tr, rest))
            && (end.Broken? ==> end.why == InvalidStream)
            && (end.Completed? ==>
                  && X.Finishable(c, X.LastFinish(tr.messages), tr.tools) && X.UsageGood(tr.usage)
                  && end.frames == X.CompletionOf(c, X.LastFinish(tr.messages).value, tr.tools, tr.usage))
  {
    hide Feed, SheetsSay, X.Accepts, BlocksOf, RestOf, X.ContentsOf, X.SomeMeaning, AllBlank, Push, X.Finishable, X.CompletionOf, Collects,
         AllInPlace, DataFrame, Normalize, OnlyNewlines;
    StreamHolds(c, chunks, sheets, tr);
    var s := Feed(c, NEW, chunks).value;
    NoneBlank();
    if c.terminal == ReceiptGatedEof && tr.ends == 0 && X.Closed(tr) {
      if AllBlank(s.buffer) {
        OwnEnd(c, tr, s);
      } else if OnlyNewlines(Normalize(s.buffer)) {
        NewlinesAreBlank(s.buffer);
      }
    }
  }

  lemma NoneBlank()
    ensures AllBlank([])
  {
  }

  // ---- what a printed frame says ----

  function ValueOf(digits: Chars): int {
    if |digits| == 0 then 0 else 10 * ValueOf(digits[..|digits| - 1]) + digits[|digits| - 1] - 48
  }

  lemma {:induction false} DecimalExact(n: nat)
    ensures ValueOf(Decimal(n)) == n && |Decimal(n)| > 0 && forall i | 0 <= i < |Decimal(n)| :: IsDigit(Decimal(n)[i])
    ensures n > 0 ==> Decimal(n)[0] != 48
  {
    if n >= 10 {
      DecimalExact(n / 10);
      assert Decimal(n)[..|Decimal(n)| - 1] == Decimal(n / 10);
    } else {
      assert Decimal(n)[..0] == [];
    }
  }

  /** Metadata is the stream's own: the id of the request and the model of the policy. */
  lemma FrameExact(c: Config, delta: Json, reason: Json)
    requires GoodConfig(c) && Fits(delta, 3, Reader(c)) && Fits(reason, 3, Reader(c)) && PlainNumbers(delta) && PlainNumbers(reason)
    ensures var payload := Print(ChunkJson(c, delta, reason));
            var v := Parse(payload, Reader(c));
            && Chunk(c, delta, reason) == DataFrame(payload) && v.Some?
            && Field(v.value, ID) == Some(Str(c.requestId)) && Field(v.value, MODEL) == Some(Str(c.model))
            && Field(v.value, OBJECT) == Some(Str(CHUNK))
            && exists choice :: Field(v.value, CHOICES) == Some(Arr([choice])) &&
                 Field(choice, DELTA) == Some(delta) && Field(choice, FINISH_REASON) == Some(reason)
  {
    hide Fits, PlainNumbers, Parse, Print, GoodConfig, Lookup, ID, OBJECT, MODEL, CHOICES, INDEX, DELTA, FINISH_REASON, CHUNK;
    var v := ChunkJson(c, delta, reason);
    ChunkFits(c, delta, reason);
    RoundTrip(v, Reader(c));
    ChunkFields(c, delta, reason);
    DistinctTop(c, delta, reason);
    LookupAt(v.members, 0);
    LookupAt(v.members, 1);
    LookupAt(v.members, 2);
  }

  /** A usage frame shows the three counts under their own names. */
  lemma UsageExact(c: Config, u: Usage)
    requires u.prompt >= 0 && u.completion >= 0 && u.total >= 0
    ensures var v := UsageJson(c, u);
            && Field(v, ID) == Some(Str(c.requestId)) && Field(v, MODEL) == Some(Str(c.model)) && Field(v, CHOICES) == Some(Arr([]))
            && exists w :: Field(v, USAGE) == Some(w) && Shows(w, PROMPT_TOKENS, u.prompt) && Shows(w, COMPLETION_TOKENS, u.completion) &&
                 Shows(w, TOTAL_TOKENS, u.total)
  {
    hide Lookup, Decimal, ID, OBJECT, MODEL, CHOICES, USAGE, PROMPT_TOKENS, COMPLETION_TOKENS, TOTAL_TOKENS;
    UsageNames();
    Names();
    var v := UsageJson(c, u).members;
    var w := v[4].value;
    LookupAt(v, 0);
    LookupAt(v, 2);
    LookupAt(v, 3);
    LookupAt(v, 4);
    LookupAt(w.members, 0);
    LookupAt(w.members, 1);
    LookupAt(w.members, 2);
    DecimalExact(u.prompt);
    DecimalExact(u.completion);
    DecimalExact(u.total);
  }

  predicate Shows(v: Json, key: Chars, n: int) {
    var shown := Field(v, key);
    shown.Some? && shown.value.Num? && |shown.value.literal| > 0 && ValueOf(shown.value.literal) == n
  }

  lemma UsageNames()
    ensures USAGE !in {ID, OBJECT, MODEL, CHOICES} && ID !in {OBJECT, MODEL, CHOICES} && OBJECT !in {MODEL, CHOICES} && MODEL != CHOICES
    ensures PROMPT_TOKENS != COMPLETION_TOKENS && PROMPT_TOKENS != TOTAL_TOKENS && COMPLETION_TOKENS != TOTAL_TOKENS
  {
    assert USAGE[0] == 117 && ID[0] == 105 && OBJECT[0] == 111 && MODEL[0] == 109 && CHOICES[0] == 99;
    assert PROMPT_TOKENS[0] == 112 && COMPLETION_TOKENS[0] == 99 && TOTAL_TOKENS[0] == 116;
  }
}
