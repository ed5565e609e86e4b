/** What is printed is read back: strings, numbers, then whole values. */
module JsonRoundTrip {
  import opened Text
  import opened Json

  // ---- strings ----

  lemma HexDigitReads(n: int)
    requires 0 <= n < 16
    ensures HexValue(HexUnit(n)) == Some(n)
  {
  }

  lemma HexUnits(u: Unit)
    ensures UnitOfHex(HexUnit(u / 4096), HexUnit(u / 256 % 16), HexUnit(u / 16 % 16), HexUnit(u % 16)) == Some(u)
  {
    hide HexUnit, HexValue;
    var a, b, c, d := u / 4096, u / 256 % 16, u / 16 % 16, u % 16;
    HexDigitReads(a);
    HexDigitReads(b);
    HexDigitReads(c);
    HexDigitReads(d);
    HexSum(u);
  }

  lemma HexSum(u: int)
    requires 0 <= u < 0x1_0000
    ensures u == u / 4096 * 4096 + u / 256 % 16 * 256 + u / 16 % 16 * 16 + u % 16
  {
    var x, y := u / 16, u / 256;
    assert u == x * 16 + u % 16 && x == y * 16 + x % 16;
    assert x / 16 == y && y == u / 4096 * 16 + y % 16;
  }

  /** One escaped unit is one step of the reader, and carries no closing quote. */
  lemma OneEscaped(u: Unit, rest: Chars)
    ensures OneUnit(EscapeUnit(u) + rest) == Some((u, |EscapeUnit(u)|))
    ensures CloseQuote(rest).Some? ==> CloseQuote(EscapeUnit(u) + rest) == Some(|EscapeUnit(u)| + CloseQuote(rest).value)
  {
    if |EscapeUnit(u)| == 1 {
      PlainEscaped(u, rest);
    } else if |EscapeUnit(u)| == 2 {
      ShortEscaped(u, rest);
    } else {
      HexEscaped(u, rest);
      if CloseQuote(rest).Some? {
        HexUnitsClose(u, rest);
      }
    }
  }

  lemma PlainEscaped(u: Unit, rest: Chars)
    requires |EscapeUnit(u)| == 1
    ensures OneUnit(EscapeUnit(u) + rest) == Some((u, 1))
    ensures CloseQuote(rest).Some? ==> CloseQuote(EscapeUnit(u) + rest) == Some(1 + CloseQuote(rest).value)
  {
    assert EscapeUnit(u) == [u] && u >= 32 && u != QUOTE && u != BACKSLASH;
    assert ([u] + rest)[1..] == rest;
  }

  lemma ShortEscaped(u: Unit, rest: Chars)
    requires |EscapeUnit(u)| == 2
    ensures OneUnit(EscapeUnit(u) + rest) == Some((u, 2))
    ensures CloseQuote(rest).Some? ==> CloseQuote(EscapeUnit(u) + rest) == Some(2 + CloseQuote(rest).value)
  {
    hide HexUnit;
    var t := EscapeUnit(u) + rest;
    assert t[2..] == rest;
    assert t[0] == BACKSLASH && t[1] == EscapeUnit(u)[1];
    assert SimpleEscape(EscapeUnit(u)[1]) == Some(u);
  }

  lemma HexEscaped(u: Unit, rest: Chars)
    requires |EscapeUnit(u)| == 6
    ensures OneUnit(EscapeUnit(u) + rest) == Some((u, 6))
  {
    hide UnitOfHex, HexUnit;
    HexUnits(u);
    var t := EscapeUnit(u) + rest;
    assert forall k | 0 <= k < 6 :: t[k] == EscapeUnit(u)[k];
    assert SimpleEscape(117) == None;
  }

  lemma HexUnitsClose(u: Unit, rest: Chars)
    requires |EscapeUnit(u)| == 6 && CloseQuote(rest).Some?
    ensures CloseQuote(EscapeUnit(u) + rest) == Some(6 + CloseQuote(rest).value)
  {
    var t := EscapeUnit(u) + rest;
    assert forall k | 2 <= k < 6 :: t[k] != QUOTE && t[k] != BACKSLASH;
    assert t[2..][1..] == t[3..] && t[3..][1..] == t[4..] && t[4..][1..] == t[5..] && t[5..][1..] == rest;
    assert CloseQuote(t[5..]) == Some(1 + CloseQuote(rest).value);
    assert CloseQuote(t[4..]) == Some(2 + CloseQuote(rest).value);
    assert CloseQuote(t[3..]) == Some(3 + CloseQuote(rest).value);
    assert CloseQuote(t[2..]) == Some(4 + CloseQuote(rest).value);
  }

  lemma NextCloses(rest: Chars)
    ensures CloseQuote([QUOTE] + rest) == Some(1)
  {
  }

  lemma PairCloses(a: Unit, b: Unit, rest: Chars)
    requires High(a) && Low(b) && CloseQuote(rest).Some?
    ensures CloseQuote([a, b] + rest) == Some(2 + CloseQuote(rest).value)
  {
    var t := [a, b] + rest;
    assert t[1..][1..] == rest;
  }

  lemma {:induction false} EscapedCloses(s: Chars, rest: Chars)
    ensures CloseQuote(Escape(s) + ([QUOTE] + rest)) == Some(|Escape(s)| + 1)
  {
    hide EscapeUnit, CloseQuote;
    var tail := [QUOTE] + rest;
    if |s| == 0 {
      NextCloses(rest);
      assert Escape(s) + tail == tail;
    } else if |s| >= 2 && High(s[0]) && Low(s[1]) {
      EscapedCloses(s[2..], rest);
      PairCloses(s[0], s[1], Escape(s[2..]) + tail);
      assert Escape(s) + tail == [s[0], s[1]] + (Escape(s[2..]) + tail);
    } else {
      EscapedCloses(s[1..], rest);
      OneEscaped(s[0], Escape(s[1..]) + tail);
      assert Escape(s) + tail == EscapeUnit(s[0]) + (Escape(s[1..]) + tail);
    }
  }

  lemma {:induction false} EscapedReads(s: Chars)
    ensures Unescape(Escape(s)) == Some(s)
  {
    hide EscapeUnit;
    if |s| == 0 {
    } else if |s| >= 2 && High(s[0]) && Low(s[1]) {
      EscapedReads(s[2..]);
      var t := Escape(s);
      assert t[1..][1..] == Escape(s[2..]);
      assert Unescape(t[1..]) == Some([s[1]] + s[2..]);
      assert [s[0]] + ([s[1]] + s[2..]) == s;
    } else {
      EscapedReads(s[1..]);
      OneEscaped(s[0], Escape(s[1..]));
      assert Escape(s)[|EscapeUnit(s[0])|..] == Escape(s[1..]);
      assert [s[0]] + s[1..] == s;
    }
  }

  /** Every string, lone surrogates and control characters included, is read back from its token. */
  lemma QuotedReads(s: Chars, rest: Chars)
    ensures Starts(Quote(s) + rest, QUOTE) && ParseString(Quote(s) + rest) == Done(s, rest)
  {
    hide Escape, Unescape, CloseQuote;
    EscapedCloses(s, rest);
    EscapedReads(s);
    var t := Quote(s) + rest;
    var n := |Escape(s)|;
    assert t[1..] == Escape(s) + ([QUOTE] + rest);
    assert t[1..1 + n] == Escape(s);
    assert t[n + 2..] == rest;
  }

  // ---- numbers ----

  /** The text after a printed value: the end, or one of the three units that may follow it. */
  predicate Ends(rest: Chars) {
    |rest| == 0 || rest[0] == COMMA || rest[0] == CLOSE_ARRAY || rest[0] == CLOSE_OBJECT
  }

  /** A unit that no literal goes on with. */
  predicate Stops(rest: Chars) {
    |rest| == 0 || rest[0] == COMMA || rest[0] == CLOSE_ARRAY || rest[0] == CLOSE_OBJECT ||
    rest[0] == 32 || rest[0] == 9 || rest[0] == 10 || rest[0] == 13
  }

  lemma {:induction false} DigitsStop(t: Chars, rest: Chars)
    requires Stops(rest)
    ensures Digits(t + rest) == Digits(t)
  {
    if |t| == 0 {
      assert t + rest == rest;
    } else {
      assert (t + rest)[1..] == t[1..] + rest;
      DigitsStop(t[1..], rest);
    }
  }

  lemma WholeStops(t: Chars, rest: Chars)
    requires Stops(rest)
    ensures WholePart(t + rest) == WholePart(t)
  {
    if |t| == 0 {
      assert t + rest == rest;
    } else {
      assert (t + rest)[1..] == t[1..] + rest;
      DigitsStop(t[1..], rest);
    }
  }

  lemma FractionStops(t: Chars, rest: Chars)
    requires Stops(rest)
    ensures FractionPart(t + rest) == FractionPart(t)
  {
    if |t| == 0 {
      assert t + rest == rest;
    } else if |t| >= 2 {
      assert (t + rest)[2..] == t[2..] + rest;
      DigitsStop(t[2..], rest);
    }
  }

  lemma ExponentStops(t: Chars, rest: Chars)
    requires Stops(rest)
    ensures ExponentPart(t + rest) == ExponentPart(t)
  {
    if |t| == 0 {
      assert t + rest == rest;
    } else if |t| >= 2 {
      var sign := if t[1] == PLUS || t[1] == MINUS then 1 else 0;
      if |t| > 1 + sign {
        assert (t + rest)[2 + sign..] == t[2 + sign..] + rest;
        DigitsStop(t[2 + sign..], rest);
      }
    }
  }

  lemma NumberStops(t: Chars, rest: Chars)
    requires IsNumber(t) && Stops(rest)
    ensures MatchNumber(t + rest) == Some(|t|)
    ensures t[0] == MINUS || IsDigit(t[0])
  {
    hide Digits, WholePart, FractionPart, ExponentPart;
    var sign := if t[0] == MINUS then 1 else 0;
    assert (t + rest)[sign..] == t[sign..] + rest;
    WholeStops(t[sign..], rest);
    var point := sign + WholePart(t[sign..]).value;
    assert (t + rest)[point..] == t[point..] + rest;
    FractionStops(t[point..], rest);
    var mark := point + FractionPart(t[point..]);
    assert (t + rest)[mark..] == t[mark..] + rest;
    ExponentStops(t[mark..], rest);
    FirstOfNumber(t);
  }

  lemma FirstOfNumber(t: Chars)
    requires MatchNumber(t).Some?
    ensures t[0] == MINUS || IsDigit(t[0])
  {
    assert t[0..] == t;
  }

  // ---- values ----

  lemma FirstUnit(v: Json, m: Mode)
    requires Numeric(v, m)
    ensures |Print(v)| > 0 && !IsSpace(Print(v)[0]) && Print(v)[0] != CLOSE_ARRAY
    ensures v.Null? || v.Bool? || v.Num? ==> Print(v)[0] != QUOTE && Print(v)[0] != OPEN_ARRAY && Print(v)[0] != OPEN_OBJECT
  {
    hide Escape, PrintItems, PrintMembers, MatchNumber;
    if v.Num? {
      NumberIsLong(v.literal);
      FirstOfNumber(v.literal);
    }
  }

  lemma NumberIsLong(t: Chars)
    requires IsNumber(t)
    ensures |t| > 0 && MatchNumber(t).Some?
  {
  }

  lemma NotSkipped(t: Chars)
    requires |t| > 0 && !IsSpace(t[0])
    ensures SkipSpace(t) == t
  {
  }

  predicate Fits(v: Json, depth: nat, m: Mode) {
    Numeric(v, m) && Named(v, m) && depth + Height(v) <= m.limit
  }

  lemma LiteralReads(v: Json, rest: Chars, m: Mode)
    requires v.Null? || v.Bool? || (v.Num? && Numeric(v, m))
    requires Stops(rest)
    ensures ParseLiteral(Print(v) + rest, m) == Done(v, rest)
  {
    hide MatchNumber;
    var t := Print(v) + rest;
    if v.Num? {
      NumberIsLong(v.literal);
      NumberStops(v.literal, rest);
      assert t[..|v.literal|] == v.literal && t[|v.literal|..] == rest;
      assert t[0] == v.literal[0];
    } else {
      assert t[..|Print(v)|] == Print(v) && t[|Print(v)|..] == rest;
      assert t[0] == Print(v)[0];
    }
  }

  /** A value that is not too high, with admissible names and numbers is read back from what is printed for it, whatever
      may follow. */
  lemma {:induction false} PrintedReads(v: Json, rest: Chars, depth: nat, m: Mode)
    requires Fits(v, depth, m) && Ends(rest)
    ensures ParseValue(Print(v) + rest, depth, m) == Done(v, rest)
    decreases v, 1
  {
    hide Escape, PrintItems, PrintMembers, ParseItems, ParseMembers, ParseLiteral, ParseString;
    var t := Print(v) + rest;
    FirstUnit(v, m);
    NotSkipped(t);
    match v
    case Str(s) => QuotedReads(s, rest);
    case Arr(items) => ArrayReads(items, rest, depth, m);
    case Obj(members) => ObjectReads(members, rest, depth, m);
    case _ => LiteralReads(v, rest, m);
  }

  lemma {:induction false} ArrayReads(items: seq<Json>, rest: Chars, depth: nat, m: Mode)
    requires Fits(Arr(items), depth, m) && Ends(rest)
    ensures ParseValue(Print(Arr(items)) + rest, depth, m) == Done(Arr(items), rest)
    decreases items, 2
  {
    hide PrintItems, ParseItems, ParseMembers, ParseLiteral, ParseString, Named, Numeric, Height;
    var t := Print(Arr(items)) + rest;
    var close := [CLOSE_ARRAY] + rest;
    assert t == [OPEN_ARRAY] + (PrintItems(items) + close);
    NotSkipped(t);
    assert t[1..] == PrintItems(items) + close;
    if |items| == 0 {
      NothingPrinted();
      assert t[1..] == close;
      NotSkipped(close);
      assert close[1..] == rest;
    } else {
      FitItems(items, depth, m);
      FirstOfItems(items, close, m);
      NotSkipped(t[1..]);
      ItemsRead(items, rest, depth, m);
    }
  }

  lemma NothingPrinted()
    ensures PrintItems([]) == [] && PrintMembers([]) == []
  {
  }

  predicate ItemsFit(items: seq<Json>, depth: nat, m: Mode) {
    forall i | 0 <= i < |items| :: Fits(items[i], depth, m)
  }

  lemma {:induction false} HeightOfItems(items: seq<Json>, i: nat)
    requires i < |items|
    ensures Height(items[i]) < ItemsHeight(items)
  {
    if i > 0 {
      HeightOfItems(items[1..], i - 1);
    }
  }

  lemma FitItems(items: seq<Json>, depth: nat, m: Mode)
    requires Fits(Arr(items), depth, m)
    ensures ItemsFit(items, depth + 1, m)
  {
    forall i | 0 <= i < |items| ensures Fits(items[i], depth + 1, m) {
      HeightOfItems(items, i);
    }
  }

  lemma FirstOfItems(items: seq<Json>, close: Chars, m: Mode)
    requires |items| > 0 && Numeric(items[0], m)
    ensures var t := PrintItems(items) + close; |t| > 0 && !IsSpace(t[0]) && t[0] != CLOSE_ARRAY
  {
    FirstUnit(items[0], m);
  }

  lemma Joined(first: Chars, more: Chars, close: Chars)
    ensures first + [COMMA] + more + close == first + ([COMMA] + (more + close))
  {
  }

  lemma {:induction false} ItemsRead(items: seq<Json>, rest: Chars, depth: nat, m: Mode)
    requires |items| > 0 && ItemsFit(items, depth + 1, m)
    ensures ParseItems(PrintItems(items) + ([CLOSE_ARRAY] + rest), depth, m) == Done(items, rest)
    decreases items, 0
  {
    hide Print, ParseValue, Fits;
    var close := [CLOSE_ARRAY] + rest;
    if |items| == 1 {
      PrintedReads(items[0], close, depth + 1, m);
      NotSkipped(close);
      assert close[1..] == rest;
      assert [items[0]] == items;
    } else {
      var more := [COMMA] + (PrintItems(items[1..]) + close);
      Joined(Print(items[0]), PrintItems(items[1..]), close);
      PrintedReads(items[0], more, depth + 1, m);
      NotSkipped(more);
      assert more[1..] == PrintItems(items[1..]) + close;
      assert forall i | 0 <= i < |items[1..]| :: items[1..][i] == items[i + 1];
      ItemsRead(items[1..], rest, depth, m);
      assert [items[0]] + items[1..] == items;
    }
  }

  lemma {:induction false} ObjectReads(members: seq<Member>, rest: Chars, depth: nat, m: Mode)
    requires Fits(Obj(members), depth, m) && Ends(rest)
    ensures ParseValue(Print(Obj(members)) + rest, depth, m) == Done(Obj(members), rest)
    decreases members, 2
  {
    hide PrintMembers, ParseItems, ParseMembers, ParseLiteral, ParseString, Named, Numeric, Height;
    var t := Print(Obj(members)) + rest;
    var close := [CLOSE_OBJECT] + rest;
    assert t == [OPEN_OBJECT] + (PrintMembers(members) + close);
    NotSkipped(t);
    assert t[1..] == PrintMembers(members) + close;
    if |members| == 0 {
      NothingPrinted();
      assert t[1..] == close;
      NotSkipped(close);
      assert close[1..] == rest;
    } else {
      FitMembers(members, depth, m);
      FirstOfMembers(members, close);
      NotSkipped(t[1..]);
      MembersRead(members, rest, depth, {}, m);
    }
  }

  predicate MembersFit(members: seq<Member>, depth: nat, seen: set<Chars>, m: Mode) {
    && (m.repeats || DistinctNames(members)) && (m.reserved || Unreserved(members))
    && (forall i | 0 <= i < |members| :: Fits(members[i].value, depth, m) && (m.repeats || members[i].key !in seen))
  }

  lemma {:induction false} HeightOfMembers(members: seq<Member>, i: nat)
    requires i < |members|
    ensures Height(members[i].value) < MembersHeight(members)
  {
    if i > 0 {
      HeightOfMembers(members[1..], i - 1);
    }
  }

  lemma FitMembers(members: seq<Member>, depth: nat, m: Mode)
    requires Fits(Obj(members), depth, m)
    ensures MembersFit(members, depth + 1, {}, m)
  {
    forall i | 0 <= i < |members| ensures Fits(members[i].value, depth + 1, m) {
      HeightOfMembers(members, i);
    }
  }

  lemma FirstOfMembers(members: seq<Member>, close: Chars)
    requires |members| > 0
    ensures var t := PrintMembers(members) + close; |t| > 0 && t[0] == QUOTE
  {
    hide Escape, Print;
  }

  lemma {:induction false} MemberReads(member: Member, rest: Chars, depth: nat, seen: set<Chars>, m: Mode)
    requires Fits(member.value, depth + 1, m) && Ends(rest) && |rest| > 0 && !NameRefused(member.key, seen, m)
    ensures ParseMember(PrintMember(member) + rest, depth, seen, m) == Done(member, rest)
    decreases member, 0
  {
    hide Print, ParseValue, Fits, ParseName, Quote;
    var t := PrintMember(member) + rest;
    var value := Print(member.value) + rest;
    assert t == Quote(member.key) + ([COLON] + value);
    NameReads(member.key, value, seen, m);
    PrintedReads(member.value, rest, depth + 1, m);
    NotSkipped(rest);
  }

  lemma NameReads(key: Chars, value: Chars, seen: set<Chars>, m: Mode)
    requires !NameRefused(key, seen, m)
    ensures ParseName(Quote(key) + ([COLON] + value), seen, m) == Done(key, value)
  {
    hide ParseString, Quote;
    var more := [COLON] + value;
    QuotedReads(key, more);
    NotSkipped(Quote(key) + more);
    NotSkipped(more);
    assert more[1..] == value;
  }

  lemma {:induction false} MembersRead(members: seq<Member>, rest: Chars, depth: nat, seen: set<Chars>, m: Mode)
    requires |members| > 0 && MembersFit(members, depth + 1, seen, m)
    ensures ParseMembers(PrintMembers(members) + ([CLOSE_OBJECT] + rest), depth, seen, m) == Done(members, rest)
    decreases members, 1
  {
    hide PrintMember, ParseMember, Fits;
    var close := [CLOSE_OBJECT] + rest;
    if |members| == 1 {
      MemberReads(members[0], close, depth, seen, m);
      assert close[1..] == rest;
      assert [members[0]] == members;
    } else {
      var more := [COMMA] + (PrintMembers(members[1..]) + close);
      assert PrintMembers(members) + close == PrintMember(members[0]) + more;
      MemberReads(members[0], more, depth, seen, m);
      assert more[1..] == PrintMembers(members[1..]) + close;
      assert forall i | 0 <= i < |members[1..]| :: members[1..][i] == members[i + 1];
      MembersRead(members[1..], rest, depth, seen + {members[0].key}, m);
      assert [members[0]] + members[1..] == members;
    }
  }
}
