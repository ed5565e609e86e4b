/** How the text of a stream falls into blocks and lines (`experiments/inference-boundary/protocol.ts:98-116`), said of the text
    as a whole: line ends are CRLF or LF, an empty line ends a block, and a line is a comment or a field. */
module ChatLines {
  import opened Text
  import opened Json
  import opened ChatModel
  import opened ChatFrames
  import opened ChatChunks

  // ---- line ends ----

  function JoinCrlf(parts: seq<Chars>): Chars {
    if |parts| == 0 then []
    else if |parts| == 1 then parts[0]
    else parts[0] + ([RETURN, NEWLINE] + JoinCrlf(parts[1..]))
  }

  ghost predicate NoneCrlf(parts: seq<Chars>) { forall i | 0 <= i < |parts| :: NoCrlf(parts[i]) }

  lemma {:induction false} JoinFront(lines: seq<Chars>)
    requires |lines| > 1
    ensures JoinLines(lines) == lines[0] + ([NEWLINE] + JoinLines(lines[1..]))
  {
    var n := |lines| - 1;
    if n == 1 {
      assert lines[..1] == [lines[0]] && lines[1..] == [lines[1]];
    } else {
      JoinFront(lines[..n]);
      assert lines[..n][1..] == lines[1..][..n - 1] && lines[1..][n - 1] == lines[n];
    }
  }

  /** Normalising replaces exactly the line ends CRLF. */
  lemma {:induction false} NormalizeExact(parts: seq<Chars>)
    requires |parts| > 0 && NoneCrlf(parts)
    ensures Normalize(JoinCrlf(parts)) == JoinLines(parts)
  {
    hide Normalize, NoCrlf;
    NormalizeNothing(parts[0]);
    if |parts| > 1 {
      var rest := JoinCrlf(parts[1..]);
      NormalizeExact(parts[1..]);
      NormalizeParts(parts[0], [RETURN, NEWLINE] + rest);
      NormalizeCrlf(rest);
      JoinFront(parts);
    }
  }

  /** Every text has such parts. */
  lemma {:induction false} CrlfParts(t: Chars) returns (parts: seq<Chars>)
    ensures |parts| > 0 && NoneCrlf(parts) && JoinCrlf(parts) == t
    decreases |t|
  {
    var first := FirstCrlf(t, |t|);
    if first.Some? {
      var i := first.value;
      var rest := CrlfParts(t[i + 2..]);
      parts := [t[..i]] + rest;
      forall j: nat ensures !CrlfAt(t[..i], j) {
        if j < i {
          assert !CrlfAt(t, j);
        }
      }
      assert parts[1..] == rest;
      assert t == t[..i] + ([RETURN, NEWLINE] + t[i + 2..]);
    } else {
      parts := [t];
      assert forall j: nat | j >= |t| :: !CrlfAt(t, j);
    }
  }

  lemma {:induction false} FirstCrlf(t: Chars, n: nat) returns (first: Option<nat>)
    ensures first.Some? ==> first.value < n && CrlfAt(t, first.value) && forall j: nat | j < first.value :: !CrlfAt(t, j)
    ensures first.None? ==> forall j: nat | j < n :: !CrlfAt(t, j)
  {
    hide CrlfAt;
    first := None;
    if n > 0 {
      first := FirstCrlf(t, n - 1);
      if first.None? && CrlfAt(t, n - 1) {
        first := Some(n - 1);
      }
    }
  }

  // ---- blocks ----

  function Blocks(t: Chars): (r: seq<Chars>)
    decreases |t|
  {
    var end := FindBlank(t);
    if end.None? then [] else [t[..end.value]] + Blocks(t[end.value + 2..])
  }

  function Rest(t: Chars): Chars
    decreases |t|
  {
    var end := FindBlank(t);
    if end.None? then t else Rest(t[end.value + 2..])
  }

  function Flat(blocks: seq<Chars>): Chars {
    if |blocks| == 0 then [] else blocks[0] + ([NEWLINE, NEWLINE] + Flat(blocks[1..]))
  }

  predicate BlankAt(t: Chars, i: nat) { i + 1 < |t| && t[i] == NEWLINE && t[i + 1] == NEWLINE }

  /** Every block ends at the first empty line after its start, and nothing more ends in what is left. */
  ghost predicate Cut(t: Chars, blocks: seq<Chars>, rest: Chars) {
    && t == Flat(blocks) + rest
    && (forall k | 0 <= k < |blocks| :: forall i: nat :: !BreakAt(blocks[k], i))
    && (forall i: nat :: !BlankAt(rest, i))
  }

  lemma {:induction false} FoundFirst(t: Chars)
    ensures FindBlank(t).None? ==> forall i: nat :: !BlankAt(t, i)
    ensures FindBlank(t).Some? ==> BlankAt(t, FindBlank(t).value) && forall i: nat :: !BreakAt(t[..FindBlank(t).value], i)
  {
    if |t| >= 2 && !(t[0] == NEWLINE && t[1] == NEWLINE) {
      FoundFirst(t[1..]);
      var more := FindBlank(t[1..]);
      if more.None? {
        forall i: nat ensures !BlankAt(t, i) {
          if i > 0 {
            assert !BlankAt(t[1..], i - 1);
          }
        }
      } else {
        assert BlankAt(t[1..], more.value);
        var head := t[..more.value + 1];
        forall i: nat ensures !BreakAt(head, i) {
          if i > 0 {
            assert head[1..] == t[1..][..more.value];
            assert !BreakAt(t[1..][..more.value], i - 1);
          }
        }
      }
    }
  }

  lemma {:induction false} NoneFound(t: Chars)
    requires forall i: nat :: !BlankAt(t, i)
    ensures FindBlank(t) == None
  {
    FoundFirst(t);
  }

  lemma {:induction false} BlocksCut(t: Chars)
    ensures Cut(t, Blocks(t), Rest(t))
    decreases |t|
  {
    hide FindBlank, Cut;
    FoundFirst(t);
    var end := FindBlank(t);
    if end.Some? {
      var first, rest := t[..end.value], t[end.value + 2..];
      BlocksCut(rest);
      assert t == first + ([NEWLINE, NEWLINE] + rest);
      CutMore(t, first, rest, Blocks(rest), Rest(rest));
    } else {
      NothingCut(t);
    }
  }

  lemma NothingCut(t: Chars)
    requires forall i: nat :: !BlankAt(t, i)
    ensures Cut(t, [], t)
  {
    assert Flat([]) + t == t;
  }

  lemma CutMore(t: Chars, first: Chars, rest: Chars, blocks: seq<Chars>, left: Chars)
    requires t == first + ([NEWLINE, NEWLINE] + rest) && Cut(rest, blocks, left) && forall i: nat :: !BreakAt(first, i)
    ensures Cut(t, [first] + blocks, left)
  {
    hide BreakAt, BlankAt;
    var all := [first] + blocks;
    assert all[1..] == blocks;
    assert t == first + ([NEWLINE, NEWLINE] + Flat(blocks)) + left;
    forall k | 0 <= k < |all| ensures forall i: nat :: !BreakAt(all[k], i) {
      assert k > 0 ==> all[k] == blocks[k - 1];
    }
  }

  /** There is one way to cut a text into blocks. */
  lemma {:induction false} CutExact(t: Chars, blocks: seq<Chars>, rest: Chars)
    ensures Cut(t, blocks, rest) <==> blocks == Blocks(t) && rest == Rest(t)
    decreases |blocks|
  {
    hide FindBlank;
    BlocksCut(t);
    if Cut(t, blocks, rest) {
      if |blocks| == 0 {
        assert t == rest;
        NoneFound(t);
      } else {
        var after := Flat(blocks[1..]) + rest;
        assert t == blocks[0] + ([NEWLINE, NEWLINE] + after);
        FindBlankAt(blocks[0], after);
        assert t[..|blocks[0]|] == blocks[0] && t[|blocks[0]| + 2..] == after;
        CutExact(after, blocks[1..], rest);
        assert blocks == [blocks[0]] + blocks[1..];
      }
    }
  }

  // ---- lines ----

  predicate OneText(t: Chars) { forall i | 0 <= i < |t| :: t[i] != NEWLINE }

  predicate OneTexts(lines: seq<Chars>) { |lines| > 0 && forall k | 0 <= k < |lines| :: OneText(lines[k]) }

  /** There is one way to cut a block into lines. */
  lemma {:induction false} LinesExact(t: Chars, lines: seq<Chars>)
    ensures OneTexts(lines) && JoinLines(lines) == t <==> lines == SplitLines(t)
    decreases |t|
  {
    hide FindUnit;
    SplitCuts(t);
    if OneTexts(lines) && JoinLines(lines) == t {
      if |lines| == 1 {
        assert lines == [t];
      } else {
        JoinFront(lines);
        var rest := JoinLines(lines[1..]);
        FindUnitAt(lines[0], NEWLINE, rest);
        assert t[..|lines[0]|] == lines[0] && t[|lines[0]| + 1..] == rest;
        LinesExact(rest, lines[1..]);
      }
    }
  }

  lemma {:induction false} SplitCuts(t: Chars)
    ensures OneTexts(SplitLines(t)) && JoinLines(SplitLines(t)) == t
    decreases |t|
  {
    hide FindUnit, JoinLines;
    var end := FindUnit(t, NEWLINE);
    if end.Some? {
      var first, rest := t[..end.value], t[end.value + 1..];
      SplitCuts(rest);
      ConsLines(first, SplitLines(rest));
      assert t == first + ([NEWLINE] + rest);
    } else {
      LineAlone(t);
    }
  }

  lemma LineAlone(t: Chars)
    ensures JoinLines([t]) == t
  {
  }

  lemma ConsLines(first: Chars, rest: seq<Chars>)
    requires OneText(first) && OneTexts(rest)
    ensures OneTexts([first] + rest) && JoinLines([first] + rest) == first + ([NEWLINE] + JoinLines(rest))
  {
    hide JoinLines, OneText;
    var lines := [first] + rest;
    assert lines[1..] == rest;
    JoinFront(lines);
  }

  /** What a line is: a comment (or empty), data, or the name of the event. */
  datatype Line = Skipped | Data(value: Chars) | Event(value: Chars)

  /** `name`, `name:value` or `name: value`; one space after the colon does not belong to the value. */
  predicate FieldSays(t: Chars, name: Chars, value: Chars) {
    || (t == name && value == [])
    || (t == name + ([COLON] + value) && (value == [] || value[0] != SPACE))
    || t == name + ([COLON, SPACE] + value)
  }

  predicate LineSays(t: Chars, line: Line) {
    match line
    case Skipped => t == [] || t[0] == COLON
    case Data(value) => FieldSays(t, DATA, value)
    case Event(value) => FieldSays(t, EVENT, value)
  }

  function Take(f: Fields, line: Line): Fields {
    match line
    case Skipped => f
    case Data(value) => f.(data := f.data + [value])
    case Event(value) => f.(event := value)
  }

  lemma FieldNames()
    ensures |DATA| == 4 && |EVENT| == 5 && DATA[0] == 100 && EVENT[0] == 101
    ensures (forall i | 0 <= i < 4 :: DATA[i] != COLON) && (forall i | 0 <= i < 5 :: EVENT[i] != COLON)
  {
    DataIsData();
    assert DATA[0] == 100;
    assert EVENT[0] == 101 && EVENT[1] == 118 && EVENT[2] == 101 && EVENT[3] == 110 && EVENT[4] == 116;
  }

  lemma FieldExact(f: Fields, t: Chars, name: Chars, value: Chars)
    requires FieldSays(t, name, value) && (name == DATA || name == EVENT)
    ensures AddLine(f, t) == AddValue(f, name, value)
  {
    hide FindUnit, DATA, EVENT;
    FieldNames();
    if t == name + ([COLON, SPACE] + value) {
      FieldLine(f, name, value);
    } else if t == name && value == [] {
    } else {
      FindUnitAt(name, COLON, value);
      assert t[..|name|] == name && t[|name| + 1..] == value && t[0] == name[0];
    }
  }

  lemma LineExact(f: Fields, t: Chars, line: Line)
    requires LineSays(t, line)
    ensures AddLine(f, t) == Some(Take(f, line))
  {
    hide AddLine, FieldSays, DATA, EVENT;
    FieldNames();
    match line
    case Skipped => SkippedLine(f, t);
    case Data(value) => FieldExact(f, t, DATA, value);
    case Event(value) => FieldExact(f, t, EVENT, value);
  }

  lemma SkippedLine(f: Fields, t: Chars)
    requires t == [] || t[0] == COLON
    ensures AddLine(f, t) == Some(f)
  {
  }

  lemma SaysField(t: Chars, field: Chars, raw: Chars)
    requires t == field + ([COLON] + raw)
    ensures FieldSays(t, field, if |raw| > 0 && raw[0] == SPACE then raw[1..] else raw)
  {
    if |raw| > 0 && raw[0] == SPACE {
      assert raw == [SPACE] + raw[1..];
      assert t == field + ([COLON, SPACE] + raw[1..]);
    }
  }

  lemma BareField(t: Chars)
    ensures FieldSays(t, t, [])
  {
  }

  lemma Fielded(f: Fields, t: Chars) returns (field: Chars, value: Chars)
    requires |t| > 0 && t[0] != COLON
    ensures AddLine(f, t) == AddValue(f, field, value) && FieldSays(t, field, value)
  {
    hide DATA, EVENT, FindUnit, FieldSays;
    var colon := FindUnit(t, COLON);
    field, value := t, [];
    if colon.None? {
      BareField(t);
    } else {
      field := t[..colon.value];
      var raw := t[colon.value + 1..];
      value := if |raw| > 0 && raw[0] == SPACE then raw[1..] else raw;
      assert t == field + ([COLON] + raw);
      SaysField(t, field, raw);
    }
  }

  lemma OnlyGoodLine(f: Fields, t: Chars) returns (line: Line)
    requires AddLine(f, t).Some?
    ensures LineSays(t, line)
  {
    hide DATA, EVENT, FieldSays, AddLine;
    line := Skipped;
    if |t| > 0 && t[0] != COLON {
      var field, value := Fielded(f, t);
      line := if field == DATA then Data(value) else Event(value);
    }
  }

  function DataIn(lines: seq<Line>): seq<Chars> {
    if |lines| == 0 then []
    else
      var last := lines[|lines| - 1];
      DataIn(lines[..|lines| - 1]) + if last.Data? then [last.value] else []
  }

  /** The last name given to the event. */
  function EventIn(lines: seq<Line>): Chars {
    if |lines| == 0 then []
    else if lines[|lines| - 1].Event? then lines[|lines| - 1].value
    else EventIn(lines[..|lines| - 1])
  }

  predicate LinesSay(texts: seq<Chars>, lines: seq<Line>) {
    |texts| == |lines| && forall k | 0 <= k < |texts| :: LineSays(texts[k], lines[k])
  }

  /** The lines of the block say these. */
  ghost predicate BlockSays(block: Chars, lines: seq<Line>) {
    exists texts :: OneTexts(texts) && JoinLines(texts) == block && LinesSay(texts, lines)
  }

  lemma {:induction false} ReadExact(texts: seq<Chars>, lines: seq<Line>)
    requires LinesSay(texts, lines)
    ensures ReadLines(texts) == Some(Fields(DataIn(lines), EventIn(lines)))
  {
    hide LineSays, AddLine;
    if |texts| > 0 {
      var n := |texts| - 1;
      ReadExact(texts[..n], lines[..n]);
      LineExact(Fields(DataIn(lines[..n]), EventIn(lines[..n])), texts[n], lines[n]);
      assert DataIn(lines[..n]) + [] == DataIn(lines[..n]);
    }
  }

  lemma {:induction false} OnlyGoodLines(texts: seq<Chars>) returns (lines: seq<Line>)
    requires ReadLines(texts).Some?
    ensures LinesSay(texts, lines)
  {
    hide LineSays, AddLine;
    lines := [];
    if |texts| > 0 {
      var n := |texts| - 1;
      var earlier := OnlyGoodLines(texts[..n]);
      var last := OnlyGoodLine(ReadLines(texts[..n]).value, texts[n]);
      lines := earlier + [last];
      assert forall k | 0 <= k < n :: texts[..n][k] == texts[k];
    }
  }

  /** A block is read exactly when each of its lines is a comment, data or an event; then its data are those lines in order. */
  lemma BlockExact(block: Chars)
    ensures ReadLines(SplitLines(block)).Some? <==> exists lines :: BlockSays(block, lines)
    ensures forall lines | BlockSays(block, lines) ::
              ReadLines(SplitLines(block)) == Some(Fields(DataIn(lines), EventIn(lines)))
  {
    hide LinesSay, OneTexts, SplitLines, ReadLines, JoinLines, DataIn, EventIn;
    if ReadLines(SplitLines(block)).Some? {
      var lines := OnlyGoodLines(SplitLines(block));
      LinesExact(block, SplitLines(block));
      assert BlockSays(block, lines);
    }
    forall lines | BlockSays(block, lines) ensures ReadLines(SplitLines(block)) == Some(Fields(DataIn(lines), EventIn(lines))) {
      var texts :| OneTexts(texts) && JoinLines(texts) == block && LinesSay(texts, lines);
      LinesExact(block, texts);
      ReadExact(texts, lines);
    }
  }
}
