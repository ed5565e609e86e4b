/** The frames the stream prints are blocks it reads: one data line each, whose payload parses back. */
module ChatFrames {
  import opened Text
  import opened Json
  import opened ChatModel

  // ---- no line ends in printed values ----

  predicate Unbroken(t: Chars) { forall i | 0 <= i < |t| :: t[i] != NEWLINE && t[i] != RETURN }

  lemma {:induction false} EscapeUnbroken(s: Chars)
    ensures Unbroken(Escape(s))
  {
    if |s| == 0 {
    } else if |s| >= 2 && High(s[0]) && Low(s[1]) {
      EscapeUnbroken(s[2..]);
    } else {
      EscapeUnbroken(s[1..]);
      assert Unbroken(EscapeUnit(s[0]));
    }
  }

  predicate PlainNumbers(v: Json)
    decreases v
  {
    match v
    case Num(literal) => Unbroken(literal)
    case Arr(items) => forall i | 0 <= i < |items| :: PlainNumbers(items[i])
    case Obj(members) => forall i | 0 <= i < |members| :: PlainNumbers(members[i].value)
    case _ => true
  }

  lemma {:induction false} PrintUnbroken(v: Json)
    requires PlainNumbers(v)
    ensures Unbroken(Print(v))
    decreases v, 1
  {
    hide Escape, PrintItems, PrintMembers;
    match v
    case Str(s) => EscapeUnbroken(s);
    case Arr(items) => ItemsUnbroken(items);
    case Obj(members) => MembersUnbroken(members);
    case _ =>
  }

  lemma {:induction false} ItemsUnbroken(items: seq<Json>)
    requires forall i | 0 <= i < |items| :: PlainNumbers(items[i])
    ensures Unbroken(PrintItems(items))
    decreases items, 0
  {
    hide Print, PlainNumbers;
    if |items| > 0 {
      PrintUnbroken(items[0]);
      ItemsUnbroken(items[1..]);
    }
  }

  lemma {:induction false} MembersUnbroken(members: seq<Member>)
    requires forall i | 0 <= i < |members| :: PlainNumbers(members[i].value)
    ensures Unbroken(PrintMembers(members))
    decreases members, 0
  {
    hide Print, PlainNumbers, Escape;
    if |members| > 0 {
      PrintUnbroken(members[0].value);
      EscapeUnbroken(members[0].key);
      MembersUnbroken(members[1..]);
    }
  }

  // ---- a block of one data line ----

  /** A newline followed by another, or by the end. */
  predicate BreakAt(x: Chars, i: nat) {
    i < |x| && x[i] == NEWLINE && (i + 1 == |x| || x[i + 1] == NEWLINE)
  }

  lemma {:induction false} FindBlankAt(x: Chars, rest: Chars)
    requires forall i: nat :: !BreakAt(x, i)
    ensures FindBlank(x + ([NEWLINE, NEWLINE] + rest)) == Some(|x|)
  {
    var t := x + ([NEWLINE, NEWLINE] + rest);
    if |x| == 0 {
      assert t == [NEWLINE, NEWLINE] + rest;
    } else {
      assert !BreakAt(x, 0);
      forall i: nat ensures !BreakAt(x[1..], i) {
        assert !BreakAt(x, i + 1);
      }
      FindBlankAt(x[1..], rest);
      assert t[1..] == x[1..] + ([NEWLINE, NEWLINE] + rest);
    }
  }

  lemma {:induction false} FindUnitAt(x: Chars, u: Unit, rest: Chars)
    requires forall i | 0 <= i < |x| :: x[i] != u
    ensures FindUnit(x + ([u] + rest), u) == Some(|x|)
  {
    var t := x + ([u] + rest);
    if |x| == 0 {
      assert t == [u] + rest;
    } else {
      FindUnitAt(x[1..], u, rest);
      assert t[1..] == x[1..] + ([u] + rest);
    }
  }

  lemma OneLine(x: Chars)
    requires forall i | 0 <= i < |x| :: x[i] != NEWLINE
    ensures SplitLines(x) == [x]
  {
  }

  lemma TwoLines(x: Chars, y: Chars)
    requires forall i | 0 <= i < |x| :: x[i] != NEWLINE
    requires forall i | 0 <= i < |y| :: y[i] != NEWLINE
    ensures SplitLines(x + ([NEWLINE] + y)) == [x, y]
  {
    FindUnitAt(x, NEWLINE, y);
    var t := x + ([NEWLINE] + y);
    assert t[..|x|] == x && t[|x| + 1..] == y;
    OneLine(y);
  }

  /** A field line: what follows the colon, without one leading space. */
  lemma FieldLine(f: Fields, name: Chars, value: Chars)
    requires |name| > 0 && forall i | 0 <= i < |name| :: name[i] != COLON
    ensures AddLine(f, name + ([COLON, SPACE] + value)) == AddValue(f, name, value)
    ensures |value| > 0 && value[0] != SPACE ==> AddLine(f, name + ([COLON] + value)) == AddValue(f, name, value)
  {
    hide FindUnit;
    var spaced, plain := name + ([COLON, SPACE] + value), name + ([COLON] + value);
    assert spaced == name + ([COLON] + ([SPACE] + value));
    FindUnitAt(name, COLON, [SPACE] + value);
    FindUnitAt(name, COLON, value);
    assert spaced[0] == name[0] && plain[0] == name[0];
    assert spaced[..|name|] == name && spaced[|name| + 1..] == [SPACE] + value && ([SPACE] + value)[1..] == value;
    assert plain[..|name|] == name && plain[|name| + 1..] == value;
  }

  function AddValue(f: Fields, name: Chars, value: Chars): Option<Fields> {
    if name == DATA then Some(f.(data := f.data + [value]))
    else if name == EVENT then Some(f.(event := value))
    else None
  }

  lemma OneField(line: Chars)
    ensures ReadLines([line]) == AddLine(Fields([], []), line)
  {
    hide AddLine;
    assert [line][..0] == [];
    assert ReadLines([]) == Some(Fields([], []));
  }

  lemma DataIsData()
    ensures |DATA| == 4 && forall i | 0 <= i < 4 :: DATA[i] != COLON && DATA[i] != NEWLINE && DATA[i] != RETURN
  {
    assert DATA[0] == 100 && DATA[1] == 97 && DATA[2] == 116 && DATA[3] == 97;
  }

  /** A printed frame is one block whose payload is handled. */
  lemma FrameReads(c: Config, s: Core, payload: Chars, more: Chars)
    requires Unbroken(payload)
    ensures var step := Payload(c, s, payload);
            Drain(c, s, DataFrame(payload) + more) ==
              if step.Denied? then Denied(step.why, step.output, step.semantic)
              else Then(step.output, step.semantic, Drain(c, step.value, more))
  {
    hide Payload, FindBlank, SplitLines, FindUnit;
    DataIsData();
    var line := DATA + ([COLON, SPACE] + payload);
    var t := DataFrame(payload) + more;
    assert t == line + ([NEWLINE, NEWLINE] + more);
    FindBlankAt(line, more);
    assert t[..|line|] == line && t[|line| + 2..] == more;
    OneLine(line);
    OneField(line);
    FieldLine(Fields([], []), DATA, payload);
    assert [] + [payload] == [payload];
    assert ReadLines([line]) == Some(Fields([payload], []));
    assert JoinLines([payload]) == payload;
  }

  // ---- names ----

  lemma Names()
    ensures DistinctNames([Member(ID, Null), Member(OBJECT, Null), Member(MODEL, Null), Member(CHOICES, Null)])
    ensures ERROR !in {ID, OBJECT, MODEL, CHOICES}
    ensures INDEX != DELTA && INDEX != FINISH_REASON && DELTA != FINISH_REASON
    ensures INDEX != ID && INDEX != TYPE && INDEX != FUNCTION && ID != TYPE && ID != FUNCTION && TYPE != FUNCTION
    ensures NAME != ARGUMENTS && ROLE != CONTENT && ROLE != TOOL_CALLS && CONTENT != TOOL_CALLS
    ensures {ID, OBJECT, MODEL, CHOICES, INDEX, DELTA, FINISH_REASON, CONTENT, TOOL_CALLS, TYPE, FUNCTION, NAME, ARGUMENTS} !! RESERVED
    ensures STOP != TOOL_CALLS
  {
    assert ERROR[0] == 101 && MODEL[0] == 109 && INDEX[0] == 105 && DELTA[0] == 100 && TYPE[0] == 116 && NAME[0] == 110 && ROLE[0] == 114;
    assert U("__proto__")[0] == 95 && U("prototype")[0] == 112 && ARGUMENTS[0] == 97;
    assert |U("constructor")| == 11;
  }

  lemma {:induction false} LookupAt(members: seq<Member>, i: nat)
    requires i < |members| && DistinctNames(members)
    ensures Lookup(members, members[i].key) == Some(members[i].value)
  {
    if i > 0 {
      assert members[0].key != members[i].key;
      LookupAt(members[1..], i - 1);
    }
  }

  lemma {:induction false} LookupMissing(members: seq<Member>, key: Chars)
    requires forall i | 0 <= i < |members| :: members[i].key != key
    ensures Lookup(members, key) == None
  {
    if |members| > 0 {
      LookupMissing(members[1..], key);
    }
  }
}
