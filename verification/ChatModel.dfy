/** The incremental chat stream parser as functions (`experiments/inference-boundary/protocol.ts:65-195`): lines and blocks
    of the server-sent event format (sections 9.2.5 and 9.2.6 of the HTML Living Standard), the frames they carry, and what
    is printed again. Text is decoded already. */
module ChatModel {
  import opened Text
  import opened Json

  type Frames = seq<Chars>

  datatype Finish = Stop | ToolCalls

  datatype Call = Call(id: Chars, name: Chars, arguments: Chars)

  datatype Usage = Usage(prompt: int, completion: int, total: int)

  datatype Terminal = PlainDone | RouterDone | ReceiptGatedEof

  /** `whole` says which integer, if any, a number literal denotes as a binary64 number; `finite` whether it overflows;
      `argumentsOk` is `validateArguments` of the profile; `usageFrame` is the one profile that accepts a usage frame. */
  datatype Config = Config(
    requestId: Chars, model: Chars, toolsAllowed: bool, terminal: Terminal, usageFrame: bool,
    argumentsOk: (Chars, Chars) -> bool, whole: Chars -> Option<int>, finite: Chars -> bool)

  /** All of the parser's state except the text that is not a complete block yet. */
  datatype Core = Core(
    finish: Option<Finish>, tools: map<int, Call>, terminal: bool, duplicateDone: bool, usage: Option<Usage>,
    completion: Frames, semantic: bool)

  const START := Core(None, map[], false, false, None, [], false)

  datatype Stream = Stream(buffer: Chars, core: Core)

  datatype Denial = InvalidStream | UpstreamFailure

  /** `output` is what may be shown at once. `semantic` says of a success whether this step meant something, of a denial
      whether anything ever did. */
  datatype Step<+T> = Next(value: T, output: Frames, semantic: bool) | Denied(why: Denial, output: Frames, semantic: bool)

  // ---- names ----

  const DATA := U("data")
  const EVENT := U("event")
  const MESSAGE := U("message")
  const DONE := U("[DONE]")
  const ERROR := U("error")
  const ID := U("id")
  const OBJECT := U("object")
  const CHUNK := U("chat.completion.chunk")
  const MODEL := U("model")
  const CHOICES := U("choices")
  const INDEX := U("index")
  const DELTA := U("delta")
  const FINISH_REASON := U("finish_reason")
  const ROLE := U("role")
  const ASSISTANT := U("assistant")
  const CONTENT := U("content")
  const TOOL_CALLS := U("tool_calls")
  const TYPE := U("type")
  const FUNCTION := U("function")
  const NAME := U("name")
  const ARGUMENTS := U("arguments")
  const STOP := U("stop")
  const USAGE := U("usage")
  const PROMPT_TOKENS := U("prompt_tokens")
  const COMPLETION_TOKENS := U("completion_tokens")
  const TOTAL_TOKENS := U("total_tokens")
  const CALL_PREFIX := U("call_")

  const NEWLINE: Unit := 10
  const RETURN: Unit := 13
  const SPACE: Unit := 32

  // ---- text ----

  /** `replace(/\r\n/g, '\n')` */
  function Normalize(t: Chars): (r: Chars)
    ensures |r| <= |t|
  {
    if |t| == 0 then []
    else if |t| >= 2 && t[0] == RETURN && t[1] == NEWLINE then [NEWLINE] + Normalize(t[2..])
    else [t[0]] + Normalize(t[1..])
  }

  /** `indexOf('\n\n')` */
  function FindBlank(t: Chars): (at: Option<nat>)
    ensures at.Some? ==> at.value + 2 <= |t|
  {
    if |t| < 2 then None
    else if t[0] == NEWLINE && t[1] == NEWLINE then Some(0)
    else
      var more := FindBlank(t[1..]);
      if more.None? then None else Some(1 + more.value)
  }

  function FindUnit(t: Chars, u: Unit): (at: Option<nat>)
    ensures at.Some? ==> at.value < |t| && t[at.value] == u && forall i | 0 <= i < at.value :: t[i] != u
    ensures at.None? ==> forall i | 0 <= i < |t| :: t[i] != u
  {
    if |t| == 0 then None
    else if t[0] == u then Some(0)
    else
      var more := FindUnit(t[1..], u);
      if more.None? then None else Some(1 + more.value)
  }

  function SplitLines(t: Chars): (r: seq<Chars>) {
    var end := FindUnit(t, NEWLINE);
    if end.None? then [t] else [t[..end.value]] + SplitLines(t[end.value + 1..])
  }

  function JoinLines(lines: seq<Chars>): Chars {
    if |lines| == 0 then []
    else if |lines| == 1 then lines[0]
    else JoinLines(lines[..|lines| - 1]) + [NEWLINE] + lines[|lines| - 1]
  }

  /** What JavaScript's `trim` removes. */
  predicate Blank(u: Unit) {
    9 <= u <= 13 || u == 32 || u == 0xA0 || u == 0x1680 || 0x2000 <= u <= 0x200A || u == 0x2028 || u == 0x2029 ||
    u == 0x202F || u == 0x205F || u == 0x3000 || u == 0xFEFF
  }

  predicate AllBlank(t: Chars) { forall i | 0 <= i < |t| :: Blank(t[i]) }

  // ---- one block ----

  /** The data lines and the last event name of a block. */
  datatype Fields = Fields(data: seq<Chars>, event: Chars)

  /** Adding a line; None for a field other than data and event. */
  function AddLine(f: Fields, line: Chars): Option<Fields> {
    if |line| == 0 || line[0] == COLON then Some(f)
    else
      var colon := FindUnit(line, COLON);
      var field := if colon.None? then line else line[..colon.value];
      var raw := if colon.None? then [] else line[colon.value + 1..];
      var value := if |raw| > 0 && raw[0] == SPACE then raw[1..] else raw;
      if field == DATA then Some(f.(data := f.data + [value]))
      else if field == EVENT then Some(f.(event := value))
      else None
  }

  function ReadLines(lines: seq<Chars>): Option<Fields> {
    if |lines| == 0 then Some(Fields([], []))
    else
      var earlier := ReadLines(lines[..|lines| - 1]);
      if earlier.None? then None else AddLine(earlier.value, lines[|lines| - 1])
  }

  // ---- members of parsed values ----

  function Lookup(members: seq<Member>, key: Chars): Option<Json> {
    if |members| == 0 then None
    else if members[0].key == key then Some(members[0].value)
    else Lookup(members[1..], key)
  }

  function Field(v: Json, key: Chars): Option<Json> {
    if v.Obj? then Lookup(v.members, key) else None
  }

  predicate OnlyKeys(v: Json, allowed: set<Chars>) {
    v.Obj? && forall i | 0 <= i < |v.members| :: v.members[i].key in allowed
  }

  function WholeOf(c: Config, v: Option<Json>): Option<int> {
    if v.Some? && v.value.Num? then c.whole(v.value.literal) else None
  }

  predicate Truthy(c: Config, v: Option<Json>) {
    match v
    case None => false
    case Some(Null) => false
    case Some(Bool(b)) => b
    case Some(Num(literal)) => c.whole(literal) != Some(0)
    case Some(Str(s)) => |s| > 0
    case _ => true
  }

  predicate CallUnit(u: Unit) { 48 <= u <= 57 || 65 <= u <= 90 || 97 <= u <= 122 || u == 95 || u == 45 }

  predicate CallId(id: Chars) {
    && CALL_PREFIX <= id && 1 <= |id| - 5 <= 64
    && forall i | 5 <= i < |id| :: CallUnit(id[i])
  }

  // ---- printing ----

  function DataFrame(payload: Chars): Chars { DATA + [COLON, SPACE] + payload + [NEWLINE, NEWLINE] }

  function ChunkJson(c: Config, delta: Json, reason: Json): Json {
    Obj([Member(ID, Str(c.requestId)), Member(OBJECT, Str(CHUNK)), Member(MODEL, Str(c.model)),
         Member(CHOICES, Arr([Obj([Member(INDEX, Num([48])), Member(DELTA, delta), Member(FINISH_REASON, reason)])]))])
  }

  function Chunk(c: Config, delta: Json, reason: Json): Chars { DataFrame(Print(ChunkJson(c, delta, reason))) }

  function ContentDelta(content: Chars): Json { Obj([Member(CONTENT, Str(content))]) }

  function ReasonOf(f: Finish): Json { if f == Stop then Str(STOP) else Str(TOOL_CALLS) }

  /** Decimal digits without leading zeros. */
  function Decimal(n: nat): Chars {
    if n < 10 then [48 + n] else Decimal(n / 10) + [48 + n % 10]
  }

  /** The id shown for a call: made from the request id and the position, never the upstream's. */
  function LocalId(c: Config, index: nat): Chars { CALL_PREFIX + c.requestId + [95] + Decimal(index) }

  function CallJson(c: Config, index: nat, call: Call): Json {
    Obj([Member(INDEX, Num(Decimal(index))), Member(ID, Str(LocalId(c, index))), Member(TYPE, Str(FUNCTION)),
         Member(FUNCTION, Obj([Member(NAME, Str(call.name)), Member(ARGUMENTS, Str(call.arguments))]))])
  }

  function UsageJson(c: Config, u: Usage): Json
    requires u.prompt >= 0 && u.completion >= 0 && u.total >= 0
  {
    Obj([Member(ID, Str(c.requestId)), Member(OBJECT, Str(CHUNK)), Member(MODEL, Str(c.model)), Member(CHOICES, Arr([])),
         Member(USAGE, Obj([Member(PROMPT_TOKENS, Num(Decimal(u.prompt))), Member(COMPLETION_TOKENS, Num(Decimal(u.completion))),
                            Member(TOTAL_TOKENS, Num(Decimal(u.total)))]))])
  }

  // ---- the end of a message ----

  predicate DistinctIds(tools: map<int, Call>) {
    forall i, k | i in tools && k in tools && i != k :: tools[i].id != tools[k].id
  }

  /** Positions 0 to n-1, each a call whose id and arguments are acceptable. */
  predicate Consecutive(tools: map<int, Call>, c: Config) {
    && (forall i | i in tools :: 0 <= i < |tools|)
    && (forall i | 0 <= i < |tools| :: i in tools && CallId(tools[i].id) && c.argumentsOk(tools[i].name, tools[i].arguments))
  }

  function CallsJson(c: Config, tools: map<int, Call>, n: nat): seq<Json>
    requires forall i | 0 <= i < n :: i in tools
  {
    if n == 0 then [] else CallsJson(c, tools, n - 1) + [CallJson(c, n - 1, tools[n - 1])]
  }

  function CallsDelta(c: Config, tools: map<int, Call>): Json
    requires Consecutive(tools, c)
  {
    Obj([Member(TOOL_CALLS, Arr(CallsJson(c, tools, |tools|)))])
  }

  function UsageFrames(c: Config, usage: Option<Usage>): Frames {
    if usage.Some? && usage.value.prompt >= 0 && usage.value.completion >= 0 && usage.value.total >= 0
    then [DataFrame(Print(UsageJson(c, usage.value)))] else []
  }

  /** The completion frames: tool calls, the finish reason, usage, and the end mark. */
  function Finished(c: Config, s: Core): Step<Core>
    requires s.finish.Some?
  {
    var calls := s.finish == Some(ToolCalls);
    if calls && (|s.tools| == 0 || !DistinctIds(s.tools) || !Consecutive(s.tools, c)) then Denied(InvalidStream, [], s.semantic)
    else if !calls && |s.tools| != 0 then Denied(InvalidStream, [], s.semantic)
    else
      var first := if calls then [Chunk(c, CallsDelta(c, s.tools), Null)] else [];
      var last := [Chunk(c, Obj([]), ReasonOf(s.finish.value))];
      Next(s.(completion := s.completion + first + last + UsageFrames(c, s.usage) + [DataFrame(DONE)], terminal := true), [], false)
  }

  // ---- one message ----

  function CountOf(c: Config, v: Option<Json>): Option<int> {
    var n := WholeOf(c, v);
    if n.Some? && 0 <= n.value <= 10000000 then n else None
  }

  function ReadUsage(c: Config, v: Json): Option<Usage> {
    var p, o, t := CountOf(c, Field(v, PROMPT_TOKENS)), CountOf(c, Field(v, COMPLETION_TOKENS)), CountOf(c, Field(v, TOTAL_TOKENS));
    if OnlyKeys(v, {PROMPT_TOKENS, COMPLETION_TOKENS, TOTAL_TOKENS}) && p.Some? && o.Some? && t.Some? && t.value == p.value + o.value
    then Some(Usage(p.value, o.value, t.value)) else None
  }

  datatype Parts = Parts(tools: map<int, Call>, semantic: bool, ok: bool)

  predicate PartShape(c: Config, part: Json) {
    && OnlyKeys(part, {INDEX, ID, TYPE, FUNCTION}) && Field(part, FUNCTION).Some?
    && OnlyKeys(Field(part, FUNCTION).value, {NAME, ARGUMENTS})
    && WholeOf(c, Field(part, INDEX)).Some? && 0 <= WholeOf(c, Field(part, INDEX)).value <= 7
    && (Field(part, TYPE).None? || Field(part, TYPE) == Some(Str(FUNCTION)))
  }

  /** A first part names its call; later parts only add to the arguments. */
  predicate PartIntroduces(part: Json, known: bool)
    requires Field(part, FUNCTION).Some?
  {
    var id, name := Field(part, ID), Field(Field(part, FUNCTION).value, NAME);
    if known then id.None? && name.None?
    else id.Some? && id.value.Str? && CallId(id.value.s) && name.Some? && name.value.Str?
  }

  function AddPart(c: Config, p: Parts, part: Json): Parts {
    if !p.ok || !PartShape(c, part) then p.(ok := false)
    else
      var index, fn := WholeOf(c, Field(part, INDEX)).value, Field(part, FUNCTION).value;
      var more := Field(fn, ARGUMENTS);
      if !PartIntroduces(part, index in p.tools) || (more.Some? && !more.value.Str?) then p.(ok := false)
      else
        var call := if index in p.tools then p.tools[index] else Call(Field(part, ID).value.s, Field(fn, NAME).value.s, []);
        var text := if more.Some? then more.value.s else [];
        Parts(p.tools[index := call.(arguments := call.arguments + text)], p.semantic || |text| > 0, true)
  }

  function AddParts(c: Config, p: Parts, parts: seq<Json>): Parts {
    if |parts| == 0 then p else AddPart(c, AddParts(c, p, parts[..|parts| - 1]), parts[|parts| - 1])
  }

  predicate ChoiceShape(c: Config, choice: Json) {
    && WholeOf(c, Field(choice, INDEX)) == Some(0) && Field(choice, DELTA).Some?
    && OnlyKeys(Field(choice, DELTA).value, {ROLE, CONTENT, TOOL_CALLS})
    && (Field(Field(choice, DELTA).value, ROLE).None? || Field(Field(choice, DELTA).value, ROLE) == Some(Str(ASSISTANT)))
  }

  /** The finish reason kept after a frame; None when the frame's is not one of the two. */
  function FinishOf(kept: Option<Finish>, reason: Option<Json>): Option<Option<Finish>> {
    if reason.None? || reason.value.Null? then Some(kept)
    else if reason == Some(Str(STOP)) then Some(Some(Stop))
    else if reason == Some(Str(TOOL_CALLS)) then Some(Some(ToolCalls))
    else None
  }

  predicate Shown(content: Option<Json>) {
    content.Some? && content.value.Str? && |content.value.s| > 0
  }

  predicate ContentShape(content: Option<Json>) {
    content.None? || content.value.Null? || content.value.Str?
  }

  function ContentFrames(c: Config, content: Option<Json>): Frames {
    if Shown(content) then [Chunk(c, ContentDelta(content.value.s), Null)] else []
  }

  predicate CallsShape(c: Config, calls: Option<Json>) {
    calls.Some? ==> c.toolsAllowed && calls.value.Arr? && |calls.value.items| <= 8
  }

  function AfterContent(c: Config, s: Core, shown: bool, output: Frames, calls: Option<Json>, reason: Option<Json>): Step<Core> {
    if !CallsShape(c, calls) then Denied(InvalidStream, output, s.semantic || shown)
    else
      var p := AddParts(c, Parts(s.tools, shown, true), if calls.Some? then calls.value.items else []);
      var finish := FinishOf(s.finish, reason);
      if !p.ok || finish.None? then Denied(InvalidStream, output, s.semantic || p.semantic)
      else Next(s.(tools := p.tools, semantic := s.semantic || p.semantic, finish := finish.value), output, p.semantic)
  }

  /** What `delta.content` and `delta.tool_calls` and `finish_reason` do, in this order. */
  function Delta(c: Config, s: Core, choice: Json): Step<Core>
    requires ChoiceShape(c, choice)
  {
    var delta := Field(choice, DELTA).value;
    var content, calls, reason := Field(delta, CONTENT), Field(delta, TOOL_CALLS), Field(choice, FINISH_REASON);
    if !ContentShape(content) then Denied(InvalidStream, [], s.semantic)
    else AfterContent(c, s, Shown(content), ContentFrames(c, content), calls, reason)
  }

  function Payload(c: Config, s: Core, text: Chars): Step<Core> {
    if s.terminal then
      if c.terminal == RouterDone && text == DONE && !s.duplicateDone then Next(s.(duplicateDone := true), [], false)
      else Denied(InvalidStream, [], s.semantic)
    else if text == DONE then
      if s.finish.None? then Denied(InvalidStream, [], s.semantic) else Finished(c, s)
    else
      var parsed := Parse(text, Strict(false, c.finite));
      if parsed.None? || !parsed.value.Obj? then Denied(InvalidStream, [], s.semantic)
      else Body(c, s, parsed.value)
  }

  function Body(c: Config, s: Core, v: Json): Step<Core> {
    var choices := Field(v, CHOICES);
    var listed := choices.Some? && choices.value.Arr?;
    if Truthy(c, Field(v, ERROR)) then Denied(UpstreamFailure, [], s.semantic)
    else if c.usageFrame && s.finish.Some? && listed && |choices.value.items| == 0 then
      var usage := if Field(v, USAGE).Some? then ReadUsage(c, Field(v, USAGE).value) else None;
      if s.usage.Some? || usage.None? then Denied(InvalidStream, [], s.semantic) else Next(s.(usage := usage), [], false)
    else if s.finish.Some? || !listed || |choices.value.items| != 1 then Denied(InvalidStream, [], s.semantic)
    else if !ChoiceShape(c, choices.value.items[0]) then Denied(InvalidStream, [], s.semantic)
    else Delta(c, s, choices.value.items[0])
  }

  function Block(c: Config, s: Core, block: Chars): Step<Core> {
    var fields := ReadLines(SplitLines(block));
    if fields.None? then Denied(InvalidStream, [], s.semantic)
    else if |fields.value.data| == 0 then Next(s, [], false)
    else if |fields.value.event| > 0 && fields.value.event != MESSAGE then Denied(UpstreamFailure, [], s.semantic)
    else Payload(c, s, JoinLines(fields.value.data))
  }

  // ---- chunks ----

  function Then<T>(output: Frames, semantic: bool, later: Step<T>): Step<T> {
    match later
    case Next(v, more, sem) => Next(v, output + more, semantic || sem)
    case Denied(why, more, sem) => Denied(why, output + more, sem)
  }

  /** Every complete block of the text, in order, until one is refused. */
  function Drain(c: Config, s: Core, t: Chars): Step<Stream>
    decreases |t|
  {
    var end := FindBlank(t);
    if end.None? then Next(Stream(t, s), [], false)
    else
      var first := Block(c, s, t[..end.value]);
      match first
      case Denied(why, output, semantic) => Denied(why, output, semantic)
      case Next(s', output, semantic) => Then(output, semantic, Drain(c, s', t[end.value + 2..]))
  }

  /** `push` of one decoded chunk. */
  function Push(c: Config, s: Stream, chunk: Chars): Step<Stream> {
    Drain(c, s.core, Normalize(s.buffer + chunk))
  }

  datatype Ending = Completed(frames: Frames) | Broken(why: Denial)

  /** `end` */
  function End(c: Config, s: Stream): Ending {
    var last := if c.terminal == ReceiptGatedEof && !s.core.terminal && s.core.finish.Some? && AllBlank(s.buffer)
                then Push(c, s, DataFrame(DONE)) else Next(s, [], false);
    match last
    case Denied(why, _, _) => Broken(why)
    case Next(after, _, _) => if !after.core.terminal || !AllBlank(after.buffer) then Broken(InvalidStream) else Completed(after.core.completion)
  }

  /** A whole stream, chunk after chunk, stopped by the first error. */
  function Feed(c: Config, s: Stream, chunks: seq<Chars>): Step<Stream>
    decreases |chunks|
  {
    if |chunks| == 0 then Next(s, [], false)
    else
      match Push(c, s, chunks[0])
      case Denied(why, output, semantic) => Denied(why, output, semantic)
      case Next(after, output, semantic) => Then(output, semantic, Feed(c, after, chunks[1..]))
  }

  function Concat(chunks: seq<Chars>): Chars {
    if |chunks| == 0 then [] else chunks[0] + Concat(chunks[1..])
  }
}
