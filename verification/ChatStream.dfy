/** `ChatStream` itself (`experiments/inference-boundary/protocol.ts:66-195`): fields that every pushed chunk updates, and
    the loops over blocks, lines and tool-call parts. Each method equals the function of `ChatModel` of the same meaning;
    after a refusal only the answer is specified, as nothing reads the fields again. */
module ChatStreams {
  import opened Text
  import opened Json
  import opened ChatModel

  class ChatStream {
    const config: Config
    var buffer: Chars
    var finish: Option<Finish>
    var tools: map<int, Call>
    var terminal: bool
    var duplicateDone: bool
    var usage: Option<Usage>
    var completionOutput: Frames
    var semanticOutput: bool

    constructor (config: Config)
      ensures this.config == config && View() == Stream([], START)
    {
      this.config := config;
      buffer, finish, tools := [], None, map[];
      terminal, duplicateDone, usage := false, false, None;
      completionOutput, semanticOutput := [], false;
    }

    function State(): Core
      reads this
    {
      Core(finish, tools, terminal, duplicateDone, usage, completionOutput, semanticOutput)
    }

    function View(): Stream
      reads this
    {
      Stream(buffer, State())
    }

    /** Lines 95-186. */
    method Push(chunk: Chars) returns (output: Frames, semantic: bool, error: Option<Denial>)
      modifies this
      ensures error.None? ==> ChatModel.Push(config, old(View()), chunk) == Next(View(), output, semantic)
      ensures error.Some? ==> ChatModel.Push(config, old(View()), chunk) == Denied(error.value, output, semantic)
    {
      hide ChatModel.Block, FindBlank, Normalize;
      ghost var before := State();
      buffer := Normalize(buffer + chunk);
      ghost var all := buffer;
      output, semantic, error := [], false, None;
      ThenEmpty(Drain(config, before, all));
      var end := FindBlank(buffer);
      while end.Some?
        invariant end == FindBlank(buffer)
        invariant Drain(config, before, all) == Then(output, semantic, Drain(config, State(), buffer))
        decreases |buffer|
      {
        var block := buffer[..end.value];
        ghost var state, text := State(), buffer;
        buffer := buffer[end.value + 2..];
        var more, meant, refusal := Block(block);
        if refusal.Some? {
          output, semantic, error := output + more, meant, refusal;
          return;
        }
        ThenChain(output, semantic, more, meant, Drain(config, State(), buffer));
        output, semantic := output + more, semantic || meant;
        end := FindBlank(buffer);
      }
      assert output + [] == output;
    }

    /** Lines 104-116: the field lines of one block. */
    method Block(block: Chars) returns (output: Frames, semantic: bool, error: Option<Denial>)
      modifies this
      ensures buffer == old(buffer)
      ensures error.None? ==> ChatModel.Block(config, old(State()), block) == Next(State(), output, semantic)
      ensures error.Some? ==> ChatModel.Block(config, old(State()), block) == Denied(error.value, output, semantic)
    {
      hide ChatModel.Payload, SplitLines, AddLine;
      output, semantic, error := [], false, None;
      var data: seq<Chars>, event: Chars := [], [];
      var lines := SplitLines(block);
      for i := 0 to |lines|
        invariant ReadLines(lines[..i]) == Some(Fields(data, event)) && State() == old(State()) && buffer == old(buffer)
      {
        assert lines[..i + 1][..i] == lines[..i];
        var fields := Line(data, event, lines[i]);
        if fields.None? {
          LinesFail(lines, i + 1);
          assert lines[..|lines|] == lines;
          return output, semanticOutput, Some(InvalidStream);
        }
        data, event := fields.value.data, fields.value.event;
      }
      assert lines[..|lines|] == lines;
      if |data| == 0 {
        return;
      }
      if |event| > 0 && event != MESSAGE {
        return output, semanticOutput, Some(UpstreamFailure);
      }
      output, semantic, error := Payload(JoinLines(data));
    }

    /** Lines 106-112: one line. */
    method Line(data: seq<Chars>, event: Chars, line: Chars) returns (fields: Option<Fields>)
      ensures fields == AddLine(Fields(data, event), line)
    {
      if |line| == 0 || line[0] == COLON {
        return Some(Fields(data, event));
      }
      var colon := FindUnit(line, COLON);
      var field, value := line, [];
      if colon.Some? {
        field, value := line[..colon.value], line[colon.value + 1..];
        if |value| > 0 && value[0] == SPACE {
          value := value[1..];
        }
      }
      if field == DATA {
        return Some(Fields(data + [value], event));
      } else if field == EVENT {
        return Some(Fields(data, value));
      }
      return None;
    }

    /** Lines 117-182. */
    method Payload(text: Chars) returns (output: Frames, semantic: bool, error: Option<Denial>)
      modifies this
      ensures buffer == old(buffer)
      ensures error.None? ==> ChatModel.Payload(config, old(State()), text) == Next(State(), output, semantic)
      ensures error.Some? ==> ChatModel.Payload(config, old(State()), text) == Denied(error.value, output, semantic)
    {
      hide Parse, Finished, Delta, Field, ChoiceShape, ReadUsage, Truthy;
      output, semantic, error := [], false, None;
      if terminal {
        if config.terminal == RouterDone && text == DONE && !duplicateDone {
          duplicateDone := true;
          return;
        }
        return output, semanticOutput, Some(InvalidStream);
      }
      if text == DONE {
        if finish.None? {
          return output, semanticOutput, Some(InvalidStream);
        }
        error := Finish();
        semantic := error.Some? && semanticOutput;
        return;
      }
      var value := Parse(text, Strict(false, config.finite));
      if value.None? || !value.value.Obj? {
        return output, semanticOutput, Some(InvalidStream);
      }
      var v := value.value;
      if Truthy(config, Field(v, ERROR)) {
        return output, semanticOutput, Some(UpstreamFailure);
      }
      var choices := Field(v, CHOICES);
      var listed := choices.Some? && choices.value.Arr?;
      if config.usageFrame && finish.Some? && listed && |choices.value.items| == 0 {
        var counts := if Field(v, USAGE).Some? then ReadUsage(config, Field(v, USAGE).value) else None;
        if usage.Some? || counts.None? {
          return output, semanticOutput, Some(InvalidStream);
        }
        usage := counts;
        return;
      }
      if finish.Some? || !listed || |choices.value.items| != 1 || !ChoiceShape(config, choices.value.items[0]) {
        return output, semanticOutput, Some(InvalidStream);
      }
      output, semantic, error := Choice(choices.value.items[0]);
    }

    /** Lines 121-136: the end mark; the completion frames are prepared, not shown. */
    method Finish() returns (error: Option<Denial>)
      requires finish.Some?
      modifies this
      ensures buffer == old(buffer)
      ensures error.None? ==> Finished(config, old(State())) == Next(State(), [], false)
      ensures error.Some? ==> Finished(config, old(State())) == Denied(error.value, [], semanticOutput)
    {
      hide Chunk, CallsDelta, Consecutive, DistinctIds, DataFrame, UsageFrames;
      error := None;
      ghost var before := completionOutput;
      if finish == Some(ToolCalls) {
        if |tools| == 0 || !DistinctIds(tools) || !Consecutive(tools, config) {
          return Some(InvalidStream);
        }
        completionOutput := completionOutput + [Chunk(config, CallsDelta(config, tools), Null)];
      } else if |tools| != 0 {
        return Some(InvalidStream);
      } else {
        assert completionOutput + [] == completionOutput;
      }
      completionOutput := completionOutput + [Chunk(config, Obj([]), ReasonOf(finish.value))];
      completionOutput := completionOutput + UsageFrames(config, usage);
      completionOutput := completionOutput + [DataFrame(DONE)];
      terminal := true;
    }

    /** Lines 165-177: the parts of one frame, added to the calls they belong to. */
    method Calls(parts: seq<Json>, shown: bool) returns (semantic: bool, ok: bool)
      requires shown ==> semanticOutput
      modifies this
      ensures buffer == old(buffer) && State() == old(State()).(tools := tools, semantic := semanticOutput)
      ensures var p := AddParts(config, Parts(old(tools), shown, true), parts);
              && ok == p.ok && (shown ==> p.semantic) && semanticOutput == (old(semanticOutput) || p.semantic)
              && (ok ==> p == Parts(tools, semantic, true))
    {
      hide AddPart;
      semantic, ok := shown, true;
      ghost var start := Parts(tools, shown, true);
      NoPartsYet(config, start);
      assert parts[..0] == [];
      for i := 0 to |parts|
        invariant AddParts(config, start, parts[..i]) == Parts(tools, semantic, true)
        invariant buffer == old(buffer) && State() == old(State()).(tools := tools, semantic := semanticOutput)
        invariant semanticOutput == (old(semanticOutput) || semantic) && (shown ==> semantic)
      {
        assert parts[..i + 1][..i] == parts[..i];
        ghost var p := Parts(tools, semantic, true);
        var next := AddPart(config, Parts(tools, semantic, true), parts[i]);
        if !next.ok {
          PartsFail(config, start, parts, i + 1);
          RefusedPart(config, p, parts[i]);
          return semantic, false;
        }
        GrowsSemantic(config, p, parts[i]);
        tools, semantic := next.tools, next.semantic;
        semanticOutput := semanticOutput || semantic;
      }
      assert parts[..|parts|] == parts;
    }

    /** Lines 159-162: content is shown at once. */
    method Content(content: Option<Json>) returns (output: Frames, semantic: bool, ok: bool)
      modifies this`semanticOutput
      ensures ok == ContentShape(content) && semantic == Shown(content) && output == ContentFrames(config, content)
      ensures !ok ==> output == [] && !semantic
      ensures semanticOutput == (old(semanticOutput) || semantic)
    {
      hide Chunk, ContentDelta;
      output, semantic, ok := [], false, true;
      if content.Some? && !content.value.Null? {
        if !content.value.Str? {
          return output, semantic, false;
        }
        if |content.value.s| > 0 {
          output := [Chunk(config, ContentDelta(content.value.s), Null)];
          semantic, semanticOutput := true, true;
        }
      }
    }

    /** Lines 179-182: the finish reason is kept. */
    method Reason(reason: Option<Json>) returns (ok: bool)
      modifies this`finish
      ensures FinishOf(old(finish), reason) == if ok then Some(finish) else None
    {
      hide STOP, TOOL_CALLS;
      if reason.Some? && !reason.value.Null? {
        if reason == Some(Str(STOP)) {
          finish := Some(Stop);
        } else if reason == Some(Str(TOOL_CALLS)) {
          finish := Some(ToolCalls);
        } else {
          return false;
        }
      }
      return true;
    }

    /** Lines 163-182: tool-call parts, then the finish reason. */
    method CallsAndReason(shown: bool, calls: Option<Json>, reason: Option<Json>, ghost output: Frames)
      returns (semantic: bool, error: Option<Denial>)
      requires shown ==> semanticOutput
      modifies this
      ensures buffer == old(buffer)
      ensures error.None? ==> AfterContent(config, old(State()), shown, output, calls, reason) == Next(State(), output, semantic)
      ensures error.Some? ==> AfterContent(config, old(State()), shown, output, calls, reason) == Denied(error.value, output, semantic)
    {
      hide AddPart, FinishOf;
      semantic, error := shown, None;
      NoPartsYet(config, Parts(tools, semantic, true));
      if calls.Some? {
        if !config.toolsAllowed || !calls.value.Arr? || |calls.value.items| > 8 {
          return semanticOutput, Some(InvalidStream);
        }
        var ok;
        semantic, ok := Calls(calls.value.items, semantic);
        if !ok {
          return semanticOutput, Some(InvalidStream);
        }
      }
      var good := Reason(reason);
      if !good {
        return semanticOutput, Some(InvalidStream);
      }
    }

    /** Lines 155-182: content, then tool-call parts and the finish reason. */
    method Choice(choice: Json) returns (output: Frames, semantic: bool, error: Option<Denial>)
      requires ChoiceShape(config, choice)
      modifies this
      ensures buffer == old(buffer)
      ensures error.None? ==> Delta(config, old(State()), choice) == Next(State(), output, semantic)
      ensures error.Some? ==> Delta(config, old(State()), choice) == Denied(error.value, output, semantic)
    {
      hide Field, AfterContent, ChoiceShape, ContentShape, Shown, ContentFrames, DELTA, CONTENT, TOOL_CALLS, FINISH_REASON;
      HasDelta(config, choice);
      var delta := Field(choice, DELTA).value;
      var ok;
      output, semantic, ok := Content(Field(delta, CONTENT));
      if !ok {
        return output, semanticOutput, Some(InvalidStream);
      }
      ghost var s := State();
      semantic, error := CallsAndReason(semantic, Field(delta, TOOL_CALLS), Field(choice, FINISH_REASON), output);
      SemanticAlready(config, old(State()), s, Field(delta, CONTENT), Field(delta, TOOL_CALLS), Field(choice, FINISH_REASON));
    }

    /** Lines 187-194. */
    method End() returns (ending: Ending)
      modifies this
      ensures ending == ChatModel.End(config, old(View()))
    {
      hide Drain, AllBlank;
      if config.terminal == ReceiptGatedEof && !terminal && finish.Some? && AllBlank(buffer) {
        var _, _, error := Push(DataFrame(DONE));
        if error.Some? {
          return Broken(error.value);
        }
      }
      if !terminal || !AllBlank(buffer) {
        return Broken(InvalidStream);
      }
      return Completed(completionOutput);
    }
  }

  lemma ThenEmpty(later: Step<Stream>)
    ensures Then([], false, later) == later
  {
    assert [] + later.output == later.output;
  }

  lemma ThenChain(a: Frames, s: bool, b: Frames, t: bool, later: Step<Stream>)
    ensures Then(a, s, Then(b, t, later)) == Then(a + b, s || t, later)
  {
    assert a + (b + later.output) == a + b + later.output;
  }

  /** That content made the stream meaningful is remembered before the calls are looked at: it makes no difference. */
  lemma SemanticAlready(c: Config, s: Core, later: Core, content: Option<Json>, calls: Option<Json>, reason: Option<Json>)
    requires later == s.(semantic := s.semantic || Shown(content))
    ensures AfterContent(c, later, Shown(content), ContentFrames(c, content), calls, reason) ==
            AfterContent(c, s, Shown(content), ContentFrames(c, content), calls, reason)
  {
    hide AddPart, FinishOf, ContentFrames, CallsShape;
    if CallsShape(c, calls) {
      CallsList(c, calls);
      PartsSemantic(c, Parts(s.tools, Shown(content), true), if calls.Some? then calls.value.items else []);
    }
  }

  lemma CallsList(c: Config, calls: Option<Json>)
    requires CallsShape(c, calls)
    ensures calls.Some? ==> calls.value.Arr?
  {
  }

  lemma {:induction false} PartsSemantic(c: Config, p: Parts, parts: seq<Json>)
    ensures p.semantic ==> AddParts(c, p, parts).semantic
  {
    hide AddPart;
    if |parts| > 0 {
      PartsSemantic(c, p, parts[..|parts| - 1]);
      GrowsSemantic(c, AddParts(c, p, parts[..|parts| - 1]), parts[|parts| - 1]);
    }
  }

  lemma HasDelta(c: Config, choice: Json)
    requires ChoiceShape(c, choice)
    ensures Field(choice, DELTA).Some?
  {
  }

  lemma {:induction false} LinesFail(lines: seq<Chars>, n: nat)
    requires n <= |lines| && ReadLines(lines[..n]).None?
    ensures ReadLines(lines).None?
  {
    hide AddLine;
    if n == |lines| {
      assert lines[..n] == lines;
    } else {
      assert lines[..|lines| - 1][..n] == lines[..n];
      LinesFail(lines[..|lines| - 1], n);
    }
  }

  lemma NoPartsYet(c: Config, p: Parts)
    ensures AddParts(c, p, []) == p
  {
  }

  lemma {:induction false} PartsFail(c: Config, p: Parts, parts: seq<Json>, n: nat)
    requires n <= |parts| && !AddParts(c, p, parts[..n]).ok
    ensures AddParts(c, p, parts) == AddParts(c, p, parts[..n])
  {
    hide PartShape, PartIntroduces;
    if n == |parts| {
      assert parts[..n] == parts;
    } else {
      assert parts[..|parts| - 1][..n] == parts[..n];
      PartsFail(c, p, parts[..|parts| - 1], n);
    }
  }

  lemma RefusedPart(c: Config, p: Parts, part: Json)
    ensures !AddPart(c, p, part).ok ==> AddPart(c, p, part).semantic == p.semantic
  {
    hide PartShape, PartIntroduces;
  }

  lemma GrowsSemantic(c: Config, p: Parts, part: Json)
    ensures p.semantic ==> AddPart(c, p, part).semantic
  {
    hide PartShape, PartIntroduces;
  }
}
