/** What the strict reader reads (`experiments/inference-boundary/json.ts:2-56`), said as a grammar: which texts spell a value,
    in any spacing and with any escapes, as RFC 8259 sections 2 to 7 have it. */
module JsonGrammar {
  import opened Text
  import opened Json
  import opened JsonRoundTrip
  import opened JsonTheorems

  // ---- white space ----

  predicate Spaces(t: Chars) { forall i | 0 <= i < |t| :: t[i] == 32 || t[i] == 9 || t[i] == 10 || t[i] == 13 }

  lemma {:induction false} SpacesSkipped(before: Chars, rest: Chars)
    requires Spaces(before)
    ensures SkipSpace(before + rest) == SkipSpace(rest)
  {
    if |before| == 0 {
      assert before + rest == rest;
    } else {
      assert (before + rest)[1..] == before[1..] + rest;
      SpacesSkipped(before[1..], rest);
    }
  }

  lemma {:induction false} SkippedSpaces(t: Chars) returns (before: Chars)
    ensures Spaces(before) && t == before + SkipSpace(t)
  {
    if |t| > 0 && IsSpace(t[0]) {
      var more := SkippedSpaces(t[1..]);
      before := [t[0]] + more;
      assert t == [t[0]] + t[1..];
    } else {
      before := [];
    }
  }

  // ---- numbers ----

  predicate SomeDigits(t: Chars) { |t| > 0 && forall i | 0 <= i < |t| :: 48 <= t[i] <= 57 }

  predicate WholeSpelt(t: Chars) { t == [48] || (SomeDigits(t) && t[0] != 48) }

  predicate FractionSpelt(t: Chars) { t == [] || (t[0] == DOT && SomeDigits(t[1..])) }

  predicate SignedDigits(t: Chars) { SomeDigits(t) || (|t| > 0 && (t[0] == PLUS || t[0] == MINUS) && SomeDigits(t[1..])) }

  predicate ExponentSpelt(t: Chars) { t == [] || ((t[0] == 101 || t[0] == 69) && SignedDigits(t[1..])) }

  predicate NumberParts(t: Chars, sign: Chars, whole: Chars, fraction: Chars, exponent: Chars) {
    && t == sign + (whole + (fraction + exponent)) && (sign == [] || sign == [MINUS])
    && WholeSpelt(whole) && FractionSpelt(fraction) && ExponentSpelt(exponent)
  }

  /** A sign, digits without a leading zero, a fraction and an exponent; all but the digits may be absent. */
  ghost predicate NumberSpelt(t: Chars) {
    exists sign, whole, fraction, exponent :: NumberParts(t, sign, whole, fraction, exponent)
  }

  predicate NoDigit(rest: Chars) { |rest| == 0 || !IsDigit(rest[0]) }

  lemma {:induction false} DigitsAll(t: Chars, rest: Chars)
    requires (forall i | 0 <= i < |t| :: 48 <= t[i] <= 57) && NoDigit(rest)
    ensures Digits(t + rest) == |t|
  {
    if |t| == 0 {
      assert t + rest == rest;
    } else {
      assert (t + rest)[1..] == t[1..] + rest;
      DigitsAll(t[1..], rest);
    }
  }

  lemma {:induction false} DigitsAre(t: Chars)
    ensures forall i | 0 <= i < Digits(t) :: 48 <= t[i] <= 57
  {
    if |t| > 0 && IsDigit(t[0]) {
      DigitsAre(t[1..]);
      assert forall i | 0 < i < Digits(t) :: t[i] == t[1..][i - 1];
    }
  }

  lemma WholeMatches(whole: Chars, rest: Chars)
    requires WholeSpelt(whole) && NoDigit(rest)
    ensures WholePart(whole + rest) == Some(|whole|)
  {
    var t := whole + rest;
    assert t[0] == whole[0] && t[1..] == whole[1..] + rest;
    if whole != [48] {
      DigitsAll(whole[1..], rest);
    }
  }

  lemma FractionMatches(fraction: Chars, rest: Chars)
    requires FractionSpelt(fraction) && NoDigit(rest) && (fraction == [] ==> |rest| == 0 || rest[0] != DOT)
    ensures FractionPart(fraction + rest) == |fraction|
  {
    var t := fraction + rest;
    if fraction == [] {
      assert t == rest;
    } else {
      assert t[1] == fraction[1..][0] && t[2..] == fraction[2..] + rest;
      assert forall i | 0 <= i < |fraction[2..]| :: fraction[2..][i] == fraction[1..][i + 1];
      DigitsAll(fraction[2..], rest);
    }
  }

  lemma ExponentMatches(exponent: Chars)
    requires ExponentSpelt(exponent)
    ensures ExponentPart(exponent) == |exponent|
  {
    if exponent != [] {
      var t := exponent[1..];
      var sign := if t[0] == PLUS || t[0] == MINUS then 1 else 0;
      var more := exponent[2 + sign..];
      assert t[0] == exponent[1];
      assert exponent[1 + sign] == t[sign];
      assert sign == 1 ==> t[1..][0] == t[1];
      assert forall i | 0 <= i < |more| :: more[i] == t[sign + 1 + i];
      assert sign == 1 ==> forall i | 0 <= i < |more| :: more[i] == t[1..][i + 1];
      DigitsAll(more, []);
      assert more + [] == more;
    }
  }

  /** The pattern of the reader is this grammar. */
  lemma NumberExact(t: Chars)
    ensures IsNumber(t) <==> NumberSpelt(t)
  {
    hide WholePart, FractionPart, ExponentPart, WholeSpelt, FractionSpelt, ExponentSpelt;
    if NumberSpelt(t) {
      var sign, whole, fraction, exponent :| NumberParts(t, sign, whole, fraction, exponent);
      SpeltMatches(t, sign, whole, fraction, exponent);
    }
    if IsNumber(t) {
      MatchedSpells(t);
    }
  }

  lemma FirstUnits(whole: Chars, fraction: Chars, exponent: Chars)
    requires WholeSpelt(whole) && FractionSpelt(fraction) && ExponentSpelt(exponent)
    ensures |whole| > 0 && whole[0] != MINUS && NoDigit(fraction + exponent) && NoDigit(exponent)
    ensures fraction == [] ==> |exponent| == 0 || exponent[0] != DOT
  {
    assert fraction == [] ==> fraction + exponent == exponent;
    assert fraction != [] ==> (fraction + exponent)[0] == fraction[0];
  }

  lemma SpeltMatches(t: Chars, sign: Chars, whole: Chars, fraction: Chars, exponent: Chars)
    requires NumberParts(t, sign, whole, fraction, exponent)
    ensures IsNumber(t)
  {
    hide IsNumber, WholePart, FractionPart, ExponentPart, WholeSpelt, FractionSpelt, ExponentSpelt;
    FirstUnits(whole, fraction, exponent);
    PartsAt(sign, whole, fraction, exponent);
    WholeMatches(whole, fraction + exponent);
    FractionMatches(fraction, exponent);
    ExponentMatches(exponent);
    MatchedFrom(t, |sign|, |sign| + |whole|, |sign| + |whole| + |fraction|);
  }

  lemma MatchedFrom(t: Chars, a: nat, b: nat, d: nat)
    requires a <= b <= d <= |t| && a <= 1 && (a == 1 <==> |t| > 0 && t[0] == MINUS)
    requires WholePart(t[a..]) == Some(b - a) && FractionPart(t[b..]) == d - b && ExponentPart(t[d..]) == |t| - d
    ensures IsNumber(t)
  {
    hide WholePart, FractionPart, ExponentPart;
  }

  lemma PartsAt(sign: Chars, whole: Chars, fraction: Chars, exponent: Chars)
    requires |whole| > 0
    ensures var t := sign + (whole + (fraction + exponent));
            && t[|sign|] == whole[0] && t[|sign|..] == whole + (fraction + exponent)
            && t[|sign| + |whole|..] == fraction + exponent && t[|sign| + |whole| + |fraction|..] == exponent
  {
    var t := sign + (whole + (fraction + exponent));
    assert t[|sign|..] == whole + (fraction + exponent);
    assert t[|sign| + |whole|..] == t[|sign|..][|whole|..];
    assert t[|sign| + |whole| + |fraction|..] == t[|sign| + |whole|..][|fraction|..];
  }

  lemma WholeIsSpelt(t: Chars)
    requires WholePart(t).Some?
    ensures WholeSpelt(t[..WholePart(t).value])
  {
    DigitsAre(t[1..]);
    var whole := t[..WholePart(t).value];
    assert forall i | 0 < i < |whole| :: whole[i] == t[1..][i - 1];
  }

  lemma FractionIsSpelt(t: Chars)
    ensures FractionSpelt(t[..FractionPart(t)])
  {
    if FractionPart(t) > 0 {
      DigitsAre(t[2..]);
      var digits := t[..FractionPart(t)][1..];
      assert forall i | 0 < i < |digits| :: digits[i] == t[2..][i - 1];
      assert digits[0] == t[1];
    }
  }

  lemma ExponentIsSpelt(t: Chars)
    ensures ExponentSpelt(t[..ExponentPart(t)])
  {
    if ExponentPart(t) > 0 {
      var sign := if |t| >= 2 && (t[1] == PLUS || t[1] == MINUS) then 1 else 0;
      DigitsAre(t[2 + sign..]);
      var tail := t[..ExponentPart(t)][1..];
      var digits := tail[sign..];
      assert digits[0] == t[1 + sign];
      assert forall i | 0 < i < |digits| :: digits[i] == t[2 + sign..][i - 1];
      assert sign == 0 ==> digits == tail;
      assert sign == 1 ==> tail[0] == t[1];
    }
  }

  lemma MatchedParts(t: Chars) returns (a: nat, b: nat, d: nat)
    requires IsNumber(t)
    ensures a <= b <= d <= |t| && t[..a] == (if a == 0 then [] else [MINUS])
    ensures WholePart(t[a..]) == Some(b - a) && FractionPart(t[b..]) == d - b && ExponentPart(t[d..]) == |t| - d
  {
    hide WholePart, FractionPart, ExponentPart;
    a := if |t| > 0 && t[0] == MINUS then 1 else 0;
    b := a + WholePart(t[a..]).value;
    d := b + FractionPart(t[b..]);
  }

  lemma MatchedSpells(t: Chars)
    requires IsNumber(t)
    ensures NumberSpelt(t)
  {
    hide IsNumber, WholePart, FractionPart, ExponentPart, WholeSpelt, FractionSpelt, ExponentSpelt, NumberSpelt;
    var a, b, d := MatchedParts(t);
    WholeIsSpelt(t[a..]);
    FractionIsSpelt(t[b..]);
    ExponentIsSpelt(t[d..]);
    FourParts(t, a, b, d);
    Parts(t, t[..a], t[a..][..b - a], t[b..][..d - b], t[d..][..|t| - d]);
  }

  lemma Parts(t: Chars, sign: Chars, whole: Chars, fraction: Chars, exponent: Chars)
    requires NumberParts(t, sign, whole, fraction, exponent)
    ensures NumberSpelt(t)
  {
  }

  lemma FourParts(t: Chars, a: nat, b: nat, d: nat)
    requires a <= b <= d <= |t|
    ensures t == t[..a] + (t[a..][..b - a] + (t[b..][..d - b] + t[d..][..|t| - d]))
  {
    assert t[d..][..|t| - d] == t[d..];
    assert t[b..] == t[b..][..d - b] + t[d..];
    assert t[a..] == t[a..][..b - a] + t[b..];
    assert t == t[..a] + t[a..];
  }

  // ---- strings ----

  predicate ShortFor(x: Unit, u: Unit) {
    || (x == u && (u == QUOTE || u == BACKSLASH || u == SLASH))
    || (x == 98 && u == 8) || (x == 102 && u == 12) || (x == 110 && u == 10) || (x == 114 && u == 13) || (x == 116 && u == 9)
  }

  predicate HexFor(x: Unit, n: int) {
    || (48 <= x <= 57 && n == x - 48) || (97 <= x <= 102 && n == x - 97 + 10) || (65 <= x <= 70 && n == x - 65 + 10)
  }

  ghost predicate HexSpelt(t: Chars, u: Unit) {
    && |t| == 6 && t[0] == BACKSLASH && t[1] == 117
    && exists a, b, c, d :: HexFor(t[2], a) && HexFor(t[3], b) && HexFor(t[4], c) && HexFor(t[5], d) && u == ((a * 16 + b) * 16 + c) * 16 + d
  }

  /** A unit stands for itself, unless it is a control, a quote or a backslash; or it is escaped by a letter or by its code. */
  ghost predicate UnitSpelt(t: Chars, u: Unit) {
    || (t == [u] && u >= 32 && u != QUOTE && u != BACKSLASH)
    || (|t| == 2 && t[0] == BACKSLASH && ShortFor(t[1], u))
    || HexSpelt(t, u)
  }

  ghost predicate InsideSpelt(t: Chars, s: Chars)
    decreases |s|
  {
    if |s| == 0 then t == [] else exists n :: FirstUnitAt(t, n, s[0]) && InsideSpelt(t[n..], s[1..])
  }

  ghost predicate FirstUnitAt(t: Chars, n: int, u: Unit) { 0 < n <= |t| && UnitSpelt(t[..n], u) }

  ghost predicate StringSpelt(t: Chars, s: Chars) {
    |t| >= 2 && t[0] == QUOTE && t[|t| - 1] == QUOTE && InsideSpelt(t[1..|t| - 1], s)
  }

  lemma HexExact(x: Unit, n: int)
    ensures HexFor(x, n) <==> HexValue(x) == Some(n)
  {
  }

  lemma HexUnitExact(t: Chars, u: Unit)
    requires |t| == 6 && t[0] == BACKSLASH && t[1] == 117
    ensures HexSpelt(t, u) <==> UnitOfHex(t[2], t[3], t[4], t[5]) == Some(u)
  {
    hide HexFor, HexValue;
    forall n: int ensures HexFor(t[2], n) <==> HexValue(t[2]) == Some(n) { HexExact(t[2], n); }
    forall n: int ensures HexFor(t[3], n) <==> HexValue(t[3]) == Some(n) { HexExact(t[3], n); }
    forall n: int ensures HexFor(t[4], n) <==> HexValue(t[4]) == Some(n) { HexExact(t[4], n); }
    forall n: int ensures HexFor(t[5], n) <==> HexValue(t[5]) == Some(n) { HexExact(t[5], n); }
  }

  lemma UnitReads(one: Chars, u: Unit, more: Chars)
    requires UnitSpelt(one, u)
    ensures OneUnit(one + more) == Some((u, |one|))
  {
    hide HexSpelt, UnitOfHex;
    var t := one + more;
    if HexSpelt(one, u) {
      HexIsLong(one, u);
      HexUnitExact(one, u);
      assert t[1] == 117 && t[2] == one[2] && t[3] == one[3] && t[4] == one[4] && t[5] == one[5];
    }
  }

  lemma HexIsLong(t: Chars, u: Unit)
    requires HexSpelt(t, u)
    ensures |t| == 6 && t[0] == BACKSLASH && t[1] == 117
  {
  }

  lemma ReadUnit(t: Chars)
    requires |t| > 0 && OneUnit(t).Some?
    ensures UnitSpelt(t[..OneUnit(t).value.1], OneUnit(t).value.0)
  {
    hide HexSpelt, UnitOfHex;
    var u, n := OneUnit(t).value.0, OneUnit(t).value.1;
    if n == 6 {
      HexUnitExact(t[..6], u);
    } else if n == 1 {
      assert t[..1] == [u];
    }
  }

  /** Unescaping reads exactly this. */
  lemma {:induction false} InsideExact(t: Chars, s: Chars)
    ensures InsideSpelt(t, s) <==> Unescape(t) == Some(s)
    decreases |t|
  {
    hide UnitSpelt, OneUnit;
    if |t| > 0 && |s| > 0 {
      if n :| FirstUnitAt(t, n, s[0]) && InsideSpelt(t[n..], s[1..]) {
        UnitReads(t[..n], s[0], t[n..]);
        assert t[..n] + t[n..] == t;
        InsideExact(t[n..], s[1..]);
        assert [s[0]] + s[1..] == s;
      }
      if Unescape(t) == Some(s) {
        ReadUnit(t);
        var n := OneUnit(t).value.1;
        assert FirstUnitAt(t, n, s[0]);
        InsideExact(t[n..], s[1..]);
      }
    }
  }

  /** The first quote that is not escaped closes the token. */
  lemma {:induction false} InsideCloses(t: Chars, s: Chars, rest: Chars)
    requires InsideSpelt(t, s)
    ensures CloseQuote(t + ([QUOTE] + rest)) == Some(|t| + 1)
    decreases |s|
  {
    hide UnitSpelt;
    if |s| == 0 {
      assert t + ([QUOTE] + rest) == [QUOTE] + rest;
    } else {
      var n :| FirstUnitAt(t, n, s[0]) && InsideSpelt(t[n..], s[1..]);
      InsideCloses(t[n..], s[1..], rest);
      UnitPasses(t[..n], s[0], t[n..] + ([QUOTE] + rest));
      assert t + ([QUOTE] + rest) == t[..n] + (t[n..] + ([QUOTE] + rest));
    }
  }

  lemma UnitPasses(one: Chars, u: Unit, more: Chars)
    requires UnitSpelt(one, u) && CloseQuote(more).Some?
    ensures CloseQuote(one + more) == Some(|one| + CloseQuote(more).value)
  {
    hide HexSpelt, ShortFor;
    var t := one + more;
    if HexSpelt(one, u) {
      HexIsLong(one, u);
      HexPasses(one, u, more);
    } else if |one| == 2 {
      assert t[2..] == more;
    } else {
      assert t[1..] == more;
    }
  }

  lemma HexPasses(one: Chars, u: Unit, more: Chars)
    requires HexSpelt(one, u) && CloseQuote(more).Some?
    ensures CloseQuote(one + more) == Some(6 + CloseQuote(more).value)
  {
    var t := one + more;
    assert one[2] != QUOTE && one[2] != BACKSLASH && one[3] != QUOTE && one[3] != BACKSLASH;
    assert one[4] != QUOTE && one[4] != BACKSLASH && one[5] != QUOTE && one[5] != BACKSLASH;
    Plain(t[5..], more);
    Plain(t[4..], t[5..]);
    Plain(t[3..], t[4..]);
    Plain(t[2..], t[3..]);
  }

  lemma Plain(t: Chars, more: Chars)
    requires |t| > 0 && t[0] != QUOTE && t[0] != BACKSLASH && t[1..] == more && CloseQuote(more).Some?
    ensures CloseQuote(t) == Some(1 + CloseQuote(more).value)
  {
  }

  lemma {:induction false} ClosedByQuote(t: Chars)
    ensures CloseQuote(t).Some? ==> t[CloseQuote(t).value - 1] == QUOTE
  {
    if |t| >= 2 && t[0] == BACKSLASH {
      ClosedByQuote(t[2..]);
    } else if |t| > 0 && t[0] != BACKSLASH && t[0] != QUOTE {
      ClosedByQuote(t[1..]);
    }
  }

  lemma StringReads(own: Chars, s: Chars, rest: Chars)
    requires StringSpelt(own, s)
    ensures Starts(own + rest, QUOTE) && ParseString(own + rest) == Done(s, rest)
  {
    hide CloseQuote, Unescape, InsideSpelt;
    var inside := own[1..|own| - 1];
    InsideCloses(inside, s, rest);
    InsideExact(inside, s);
    var t := own + rest;
    assert t[1..] == inside + ([QUOTE] + rest);
    assert t[1..|inside| + 1] == inside && t[|own|..] == rest;
  }

  lemma ReadString(t: Chars) returns (own: Chars)
    requires Starts(t, QUOTE) && ParseString(t).Done?
    ensures StringSpelt(own, ParseString(t).value) && t == own + ParseString(t).rest
  {
    hide CloseQuote, Unescape, InsideSpelt;
    var close := CloseQuote(t[1..]).value;
    ClosedByQuote(t[1..]);
    own := t[..1 + close];
    assert own[1..|own| - 1] == t[1..close];
    InsideExact(t[1..close], ParseString(t).value);
  }

  // ---- values ----

  /** The value itself, without white space around it. */
  ghost predicate Spelt(t: Chars, v: Json)
    decreases v, 0
  {
    match v
    case Null => t == U("null")
    case Bool(b) => t == if b then U("true") else U("false")
    case Num(literal) => t == literal && NumberSpelt(literal)
    case Str(s) => StringSpelt(t, s)
    case Arr(items) => Bracketed(t, OPEN_ARRAY, CLOSE_ARRAY) && ListSpelt(t[1..|t| - 1], items)
    case Obj(members) => Bracketed(t, OPEN_OBJECT, CLOSE_OBJECT) && MembersSpelt(t[1..|t| - 1], members)
  }

  predicate Bracketed(t: Chars, open: Unit, close: Unit) { |t| >= 2 && t[0] == open && t[|t| - 1] == close }

  predicate PadAt(t: Chars, a: int, b: int) { 0 <= a <= b <= |t| && Spaces(t[..a]) && Spaces(t[b..]) }

  /** A value with white space around it. */
  ghost predicate Padded(t: Chars, v: Json)
    decreases v, 1
  {
    exists a, b :: PadAt(t, a, b) && Spelt(t[a..b], v)
  }

  predicate CommaAt(t: Chars, n: int) { 0 <= n < |t| && t[n] == COMMA }

  ghost predicate ListSpelt(t: Chars, items: seq<Json>)
    decreases items, 0
  {
    if |items| == 0 then Spaces(t)
    else if |items| == 1 then Padded(t, items[0])
    else exists n :: CommaAt(t, n) && Padded(t[..n], items[0]) && ListSpelt(t[n + 1..], items[1..])
  }

  predicate ColonAt(t: Chars, a: int, b: int, n: int) {
    0 <= a <= b <= n < |t| && t[n] == COLON && Spaces(t[..a]) && Spaces(t[b..n])
  }

  ghost predicate MemberSpelt(t: Chars, member: Member)
    decreases member, 2
  {
    exists a, b, n :: ColonAt(t, a, b, n) && StringSpelt(t[a..b], member.key) && Padded(t[n + 1..], member.value)
  }

  ghost predicate MembersSpelt(t: Chars, members: seq<Member>)
    decreases members, 0
  {
    if |members| == 0 then Spaces(t)
    else if |members| == 1 then MemberSpelt(t, members[0])
    else exists n :: CommaAt(t, n) && MemberSpelt(t[..n], members[0]) && MembersSpelt(t[n + 1..], members[1..])
  }

  lemma Words()
    ensures U("null") == NULL && U("true") == TRUE && U("false") == FALSE
  {
  }

  // ---- what is spelt is read ----

  lemma NumberFirst(t: Chars)
    requires NumberSpelt(t)
    ensures |t| > 0 && (t[0] == MINUS || IsDigit(t[0]))
  {
    hide WholeSpelt, FractionSpelt, ExponentSpelt;
    var sign, whole, fraction, exponent :| NumberParts(t, sign, whole, fraction, exponent);
    FirstUnits(whole, fraction, exponent);
    assert t[|sign|] == whole[0];
    assert IsDigit(whole[0]) by {
      WholeFirst(whole);
    }
  }

  lemma WholeFirst(whole: Chars)
    requires WholeSpelt(whole)
    ensures IsDigit(whole[0])
  {
  }

  lemma SpeltFirst(t: Chars, v: Json)
    requires Spelt(t, v)
    ensures |t| > 0 && !IsSpace(t[0]) && t[0] != CLOSE_ARRAY && t[0] != CLOSE_OBJECT
    ensures v.Str? <==> t[0] == QUOTE
    ensures v.Arr? <==> t[0] == OPEN_ARRAY
    ensures v.Obj? <==> t[0] == OPEN_OBJECT
  {
    hide NumberSpelt, InsideSpelt, ListSpelt, MembersSpelt;
    Words();
    if v.Num? {
      NumberFirst(v.literal);
    }
  }

  lemma SkipTwice(t: Chars)
    ensures SkipSpace(SkipSpace(t)) == SkipSpace(t)
  {
    if |SkipSpace(t)| > 0 {
      NotSkipped(SkipSpace(t));
    }
  }

  lemma SkippedFirst(t: Chars, depth: nat, m: Mode)
    ensures ParseValue(SkipSpace(t), depth, m) == ParseValue(t, depth, m)
    ensures ParseItems(SkipSpace(t), depth, m) == ParseItems(t, depth, m)
  {
    hide ParseString, ParseMembers, ParseLiteral;
    SkipTwice(t);
    SkippedValue(t, depth, m);
    SkippedValue(t, depth + 1, m);
  }

  lemma SkippedValue(t: Chars, depth: nat, m: Mode)
    ensures ParseValue(SkipSpace(t), depth, m) == ParseValue(t, depth, m)
  {
    hide ParseString, ParseMembers, ParseLiteral, ParseItems;
    SkipTwice(t);
  }

  lemma {:induction false} PaddedReads(t: Chars, v: Json, close: Chars, depth: nat, m: Mode)
    requires Padded(t, v) && Fits(v, depth, m) && Ends(close)
    ensures var r := ParseValue(t + close, depth, m); r.Done? && r.value == v && SkipSpace(r.rest) == close
    decreases v, 1
  {
    hide Spelt, ParseValue, Fits;
    var a, b :| PadAt(t, a, b) && Spelt(t[a..b], v);
    var rest := t[b..] + close;
    assert t + close == t[..a] + (t[a..b] + rest);
    assert Stops(rest) by {
      assert |t[b..]| > 0 ==> rest[0] == t[b..][0];
      assert |t[b..]| == 0 ==> rest == close;
    }
    SpeltReads(t[a..b], v, t[..a], rest, depth, m);
    SpacesSkipped(t[b..], close);
    CloseStays(close);
  }

  lemma CloseStays(close: Chars)
    requires Ends(close)
    ensures SkipSpace(close) == close
  {
  }

  lemma {:induction false} SpeltReads(own: Chars, v: Json, before: Chars, rest: Chars, depth: nat, m: Mode)
    requires Spelt(own, v) && Fits(v, depth, m) && Spaces(before) && Stops(rest)
    ensures ParseValue(before + (own + rest), depth, m) == Done(v, rest)
    decreases v, 0
  {
    hide ParseItems, ParseMembers, ParseLiteral, ParseString, ParseValue, NumberSpelt, StringSpelt, ListSpelt, MembersSpelt;
    SpeltFirst(own, v);
    SpacesSkipped(before, own + rest);
    NotSkipped(own + rest);
    SkippedValue(before + (own + rest), depth, m);
    match v
    case Str(s) =>
      StringReads(own, s, rest);
      ValueOfString(own + rest, depth, m);
    case Arr(items) => ListReads(own, items, rest, depth, m);
    case Obj(members) => ObjectSpeltReads(own, members, rest, depth, m);
    case _ =>
      Words();
      LiteralSpelt(own, v);
      LiteralReads(v, rest, m);
      ValueOfLiteral(own + rest, depth, m);
  }

  lemma ValueOfString(t: Chars, depth: nat, m: Mode)
    requires Starts(t, QUOTE) && ParseString(t).Done? && depth <= m.limit
    ensures ParseValue(t, depth, m) == Done(Str(ParseString(t).value), ParseString(t).rest)
  {
    hide ParseString, ParseItems, ParseMembers, ParseLiteral;
    NotSkipped(t);
  }

  lemma ValueOfLiteral(t: Chars, depth: nat, m: Mode)
    requires |t| > 0 && !IsSpace(t[0]) && t[0] != QUOTE && t[0] != OPEN_ARRAY && t[0] != OPEN_OBJECT && depth <= m.limit
    ensures ParseValue(t, depth, m) == ParseLiteral(t, m)
  {
    hide ParseString, ParseItems, ParseMembers, ParseLiteral;
    NotSkipped(t);
  }

  lemma LiteralSpelt(own: Chars, v: Json)
    requires Spelt(own, v) && (v.Null? || v.Bool? || v.Num?)
    ensures own == Print(v)
  {
    hide NumberSpelt;
    Words();
  }

  lemma {:induction false} ListReads(own: Chars, items: seq<Json>, rest: Chars, depth: nat, m: Mode)
    requires Spelt(own, Arr(items)) && Fits(Arr(items), depth, m)
    ensures ParseValue(own + rest, depth, m) == Done(Arr(items), rest)
    decreases items, 2
  {
    hide ParseItems, ParseMembers, ParseLiteral, ParseString, Named, Numeric, Height, ListSpelt;
    var inside, close := own[1..|own| - 1], [CLOSE_ARRAY] + rest;
    var t := own + rest;
    assert t[1..] == inside + close;
    NotSkipped(t);
    NotSkipped(close);
    assert close[1..] == rest;
    if |items| == 0 {
      NothingSpelt(inside);
      SpacesSkipped(inside, close);
    } else {
      FitItems(items, depth, m);
      ItemsSpeltRead(inside, items, rest, depth, m);
      SkippedFirst(t[1..], depth, m);
      ListFirst(inside, items, close);
    }
  }

  lemma NothingSpelt(t: Chars)
    ensures ListSpelt(t, []) <==> Spaces(t)
    ensures MembersSpelt(t, []) <==> Spaces(t)
  {
  }

  lemma PaddedFirst(t: Chars, v: Json, more: Chars)
    requires Padded(t, v)
    ensures var u := SkipSpace(t + more); |u| > 0 && u[0] != CLOSE_ARRAY && u[0] != CLOSE_OBJECT
  {
    hide Spelt;
    var a, b :| PadAt(t, a, b) && Spelt(t[a..b], v);
    SpeltFirst(t[a..b], v);
    var rest := t[a..] + more;
    assert t + more == t[..a] + rest && rest[0] == t[a..b][0];
    SpacesSkipped(t[..a], rest);
    NotSkipped(rest);
  }

  lemma ListFirst(t: Chars, items: seq<Json>, close: Chars)
    requires ListSpelt(t, items) && |items| > 0
    ensures !Starts(SkipSpace(t + close), CLOSE_ARRAY)
  {
    hide Padded;
    if |items| == 1 {
      PaddedFirst(t, items[0], close);
    } else {
      var n :| CommaAt(t, n) && Padded(t[..n], items[0]) && ListSpelt(t[n + 1..], items[1..]);
      assert t + close == t[..n] + (t[n..] + close);
      PaddedFirst(t[..n], items[0], t[n..] + close);
    }
  }

  lemma {:induction false} LastItem(t: Chars, v: Json, rest: Chars, depth: nat, m: Mode)
    requires Padded(t, v) && Fits(v, depth + 1, m)
    ensures ParseItems(t + ([CLOSE_ARRAY] + rest), depth, m) == Done([v], rest)
    decreases v, 2
  {
    hide Padded, ParseValue, Fits;
    var close := [CLOSE_ARRAY] + rest;
    assert close[1..] == rest;
    PaddedReads(t, v, close, depth + 1, m);
  }

  lemma {:induction false} NextItem(t: Chars, v: Json, more: Chars, depth: nat, m: Mode)
    requires Padded(t, v) && Fits(v, depth + 1, m)
    ensures ParseItems(t + ([COMMA] + more), depth, m) ==
            var later := ParseItems(more, depth, m);
            if later.Bad? then Bad else Done([v] + later.value, later.rest)
    decreases v, 2
  {
    hide Padded, ParseValue, Fits;
    var comma := [COMMA] + more;
    assert comma[1..] == more;
    PaddedReads(t, v, comma, depth + 1, m);
  }

  lemma {:induction false} ItemsSpeltRead(t: Chars, items: seq<Json>, rest: Chars, depth: nat, m: Mode)
    requires ListSpelt(t, items) && |items| > 0 && ItemsFit(items, depth + 1, m)
    ensures ParseItems(t + ([CLOSE_ARRAY] + rest), depth, m) == Done(items, rest)
    decreases items, 1
  {
    hide Padded, ParseValue, Fits, ParseItems;
    var close := [CLOSE_ARRAY] + rest;
    if |items| == 1 {
      LastItem(t, items[0], rest, depth, m);
      assert [items[0]] == items;
    } else {
      var n :| CommaAt(t, n) && Padded(t[..n], items[0]) && ListSpelt(t[n + 1..], items[1..]);
      assert t + close == t[..n] + ([COMMA] + (t[n + 1..] + close));
      NextItem(t[..n], items[0], t[n + 1..] + close, depth, m);
      assert forall i | 0 <= i < |items[1..]| :: items[1..][i] == items[i + 1];
      ItemsSpeltRead(t[n + 1..], items[1..], rest, depth, m);
      assert [items[0]] + items[1..] == items;
    }
  }

  lemma {:induction false} ObjectSpeltReads(own: Chars, members: seq<Member>, rest: Chars, depth: nat, m: Mode)
    requires Spelt(own, Obj(members)) && Fits(Obj(members), depth, m)
    ensures ParseValue(own + rest, depth, m) == Done(Obj(members), rest)
    decreases members, 3
  {
    hide ParseItems, ParseMembers, ParseLiteral, ParseString, Named, Numeric, Height, MembersSpelt;
    var inside, close := own[1..|own| - 1], [CLOSE_OBJECT] + rest;
    var t := own + rest;
    assert t[1..] == inside + close;
    NotSkipped(t);
    NotSkipped(close);
    assert close[1..] == rest;
    if |members| == 0 {
      NothingSpelt(inside);
      SpacesSkipped(inside, close);
    } else {
      FitMembers(members, depth, m);
      MembersSpeltRead(inside, members, rest, depth, {}, m);
      SkippedMembers(t[1..], depth, m);
      MembersFirst(inside, members, close);
    }
  }

  lemma SkippedMembers(t: Chars, depth: nat, m: Mode)
    ensures ParseMembers(SkipSpace(t), depth, {}, m) == ParseMembers(t, depth, {}, m)
  {
    hide ParseString, ParseValue;
    SkipTwice(t);
    assert ParseName(SkipSpace(t), {}, m) == ParseName(t, {}, m);
    assert ParseMember(SkipSpace(t), depth, {}, m) == ParseMember(t, depth, {}, m);
  }

  lemma MemberFirst(t: Chars, member: Member, more: Chars)
    requires MemberSpelt(t, member)
    ensures Starts(SkipSpace(t + more), QUOTE)
  {
    hide Padded, InsideSpelt;
    var a, b, n :| ColonAt(t, a, b, n) && StringSpelt(t[a..b], member.key) && Padded(t[n + 1..], member.value);
    var rest := t[a..] + more;
    assert t + more == t[..a] + rest && rest[0] == t[a..b][0];
    SpacesSkipped(t[..a], rest);
    NotSkipped(rest);
  }

  lemma MembersFirst(t: Chars, members: seq<Member>, close: Chars)
    requires MembersSpelt(t, members) && |members| > 0
    ensures !Starts(SkipSpace(t + close), CLOSE_OBJECT)
  {
    hide MemberSpelt;
    if |members| == 1 {
      MemberFirst(t, members[0], close);
    } else {
      var n :| CommaAt(t, n) && MemberSpelt(t[..n], members[0]) && MembersSpelt(t[n + 1..], members[1..]);
      assert t + close == t[..n] + (t[n..] + close);
      MemberFirst(t[..n], members[0], t[n..] + close);
    }
  }

  lemma NameSpelt(before: Chars, own: Chars, key: Chars, after: Chars, value: Chars, seen: set<Chars>, m: Mode)
    requires Spaces(before) && StringSpelt(own, key) && Spaces(after) && !NameRefused(key, seen, m)
    ensures ParseName(before + (own + (after + ([COLON] + value))), seen, m) == Done(key, value)
  {
    hide ParseString, InsideSpelt, NameRefused;
    var colon := [COLON] + value;
    var u := own + (after + colon);
    SpacesSkipped(before, u);
    StringReads(own, key, after + colon);
    assert u[0] == QUOTE;
    NotSkipped(u);
    SpacesSkipped(after, colon);
    NotSkipped(colon);
    assert colon[1..] == value;
  }

  lemma {:induction false} MemberSpeltReads(t: Chars, member: Member, close: Chars, depth: nat, seen: set<Chars>, m: Mode)
    requires MemberSpelt(t, member) && Fits(member.value, depth + 1, m) && Ends(close) && !NameRefused(member.key, seen, m)
    ensures ParseMember(t + close, depth, seen, m) == Done(member, close)
    decreases member, 0
  {
    hide Padded, ParseValue, Fits, ParseName, StringSpelt, NameRefused;
    var a, b, n :| ColonAt(t, a, b, n) && StringSpelt(t[a..b], member.key) && Padded(t[n + 1..], member.value);
    var value := t[n + 1..] + close;
    assert t + close == t[..a] + (t[a..b] + (t[b..n] + ([COLON] + value)));
    NameSpelt(t[..a], t[a..b], member.key, t[b..n], value, seen, m);
    PaddedReads(t[n + 1..], member.value, close, depth + 1, m);
  }

  lemma {:induction false} LastMember(t: Chars, member: Member, rest: Chars, depth: nat, seen: set<Chars>, m: Mode)
    requires MemberSpelt(t, member) && Fits(member.value, depth + 1, m) && !NameRefused(member.key, seen, m)
    ensures ParseMembers(t + ([CLOSE_OBJECT] + rest), depth, seen, m) == Done([member], rest)
    decreases member, 1
  {
    hide MemberSpelt, ParseMember, Fits, NameRefused;
    var close := [CLOSE_OBJECT] + rest;
    assert close[1..] == rest;
    MemberSpeltReads(t, member, close, depth, seen, m);
  }

  lemma {:induction false} NextMember(t: Chars, member: Member, more: Chars, depth: nat, seen: set<Chars>, m: Mode)
    requires MemberSpelt(t, member) && Fits(member.value, depth + 1, m) && !NameRefused(member.key, seen, m)
    ensures ParseMembers(t + ([COMMA] + more), depth, seen, m) ==
            var later := ParseMembers(more, depth, seen + {member.key}, m);
            if later.Bad? then Bad else Done([member] + later.value, later.rest)
    decreases member, 1
  {
    hide MemberSpelt, ParseMember, Fits, NameRefused;
    var comma := [COMMA] + more;
    assert comma[1..] == more;
    MemberSpeltReads(t, member, comma, depth, seen, m);
  }

  lemma {:induction false} MembersSpeltRead(t: Chars, members: seq<Member>, rest: Chars, depth: nat, seen: set<Chars>, m: Mode)
    requires MembersSpelt(t, members) && |members| > 0 && MembersFit(members, depth + 1, seen, m)
    ensures ParseMembers(t + ([CLOSE_OBJECT] + rest), depth, seen, m) == Done(members, rest)
    decreases members, 1
  {
    hide MemberSpelt, ParseMembers, Fits, RESERVED;
    var close := [CLOSE_OBJECT] + rest;
    if |members| == 1 {
      LastMember(t, members[0], rest, depth, seen, m);
      assert [members[0]] == members;
    } else {
      var n :| CommaAt(t, n) && MemberSpelt(t[..n], members[0]) && MembersSpelt(t[n + 1..], members[1..]);
      assert t + close == t[..n] + ([COMMA] + (t[n + 1..] + close));
      NextMember(t[..n], members[0], t[n + 1..] + close, depth, seen, m);
      MembersRest(members, depth, seen, m);
      MembersSpeltRead(t[n + 1..], members[1..], rest, depth, seen + {members[0].key}, m);
      assert [members[0]] + members[1..] == members;
    }
  }

  lemma MembersRest(members: seq<Member>, depth: nat, seen: set<Chars>, m: Mode)
    requires MembersFit(members, depth + 1, seen, m) && |members| > 0
    ensures MembersFit(members[1..], depth + 1, seen + {members[0].key}, m)
  {
    hide Fits, RESERVED;
    assert forall i | 0 <= i < |members[1..]| :: members[1..][i] == members[i + 1];
  }

  // ---- what is read is spelt ----

  lemma PadOf(t: Chars, a: int, b: int, v: Json)
    requires PadAt(t, a, b) && Spelt(t[a..b], v)
    ensures Padded(t, v)
  {
  }

  /** The text before the rest, which may end in white space, is the value with white space around it. */
  lemma MakePadded(before: Chars, own: Chars, after: Chars, v: Json)
    requires Spaces(before) && Spelt(own, v) && Spaces(after)
    ensures Padded(before + (own + after), v)
  {
    hide Spelt;
    var t := before + (own + after);
    var a, b := |before|, |before| + |own|;
    assert t[..a] == before && t[a..b] == own && t[b..] == after;
    PadOf(t, a, b, v);
  }

  lemma {:induction false} ReadValue(t: Chars, depth: nat, m: Mode) returns (before: Chars, own: Chars)
    requires ParseValue(t, depth, m).Done?
    ensures var r := ParseValue(t, depth, m); Spaces(before) && Spelt(own, r.value) && t == before + (own + r.rest)
    decreases |t|, 0
  {
    hide ParseItems, ParseMembers, ParseLiteral, ParseString, StringSpelt, ListSpelt, MembersSpelt, NumberSpelt;
    before := SkippedSpaces(t);
    var u := SkipSpace(t);
    if Starts(u, QUOTE) {
      own := ReadString(u);
    } else if Starts(u, OPEN_OBJECT) {
      own := ReadObject(u, depth, m);
    } else if Starts(u, OPEN_ARRAY) {
      own := ReadList(u, depth, m);
    } else {
      own := ReadLiteral(u, m);
    }
  }

  lemma ReadLiteral(t: Chars, m: Mode) returns (own: Chars)
    requires ParseLiteral(t, m).Done?
    ensures Spelt(own, ParseLiteral(t, m).value) && t == own + ParseLiteral(t, m).rest
  {
    hide MatchNumber, NumberSpelt;
    Words();
    var r := ParseLiteral(t, m);
    own := Print(r.value);
    if r.value.Num? {
      MatchedIsNumber(t);
      NumberExact(own);
    }
  }

  lemma {:induction false} ReadList(t: Chars, depth: nat, m: Mode) returns (own: Chars)
    requires Starts(t, OPEN_ARRAY) && ParseValue(t, depth, m).Done?
    ensures Spelt(own, ParseValue(t, depth, m).value) && t == own + ParseValue(t, depth, m).rest
    decreases |t|, 0, 1
  {
    hide ParseItems, ParseMembers, ParseLiteral, ParseString, ListSpelt;
    NotSkipped(t);
    var before := SkippedSpaces(t[1..]);
    var first := SkipSpace(t[1..]);
    var inside := before;
    if Starts(first, CLOSE_ARRAY) {
      NothingSpelt(before);
      assert first == [CLOSE_ARRAY] + first[1..];
    } else {
      var items := ReadItems(first, depth, m);
      inside := before + items;
      ListPadded(before, items, ParseItems(first, depth, m).value);
    }
    var rest := ParseValue(t, depth, m).rest;
    own := [OPEN_ARRAY] + inside + [CLOSE_ARRAY];
    assert own[1..|own| - 1] == inside;
    assert t == [OPEN_ARRAY] + t[1..];
    assert t == own + rest;
  }

  lemma MorePadded(before: Chars, t: Chars, v: Json)
    requires Spaces(before) && Padded(t, v)
    ensures Padded(before + t, v)
  {
    hide Spelt;
    var a, b :| PadAt(t, a, b) && Spelt(t[a..b], v);
    MakePadded(before + t[..a], t[a..b], t[b..], v);
    assert before + t == before + t[..a] + (t[a..b] + t[b..]);
  }

  lemma ListPadded(before: Chars, t: Chars, items: seq<Json>)
    requires Spaces(before) && ListSpelt(t, items) && |items| > 0
    ensures ListSpelt(before + t, items)
  {
    hide Padded;
    if |items| == 1 {
      MorePadded(before, t, items[0]);
    } else {
      var n :| CommaAt(t, n) && Padded(t[..n], items[0]) && ListSpelt(t[n + 1..], items[1..]);
      MorePadded(before, t[..n], items[0]);
      var k := |before| + n;
      assert (before + t)[..k] == before + t[..n] && (before + t)[k + 1..] == t[n + 1..];
      assert CommaAt(before + t, k);
    }
  }

  lemma {:induction false} ReadItems(t: Chars, depth: nat, m: Mode) returns (inside: Chars)
    requires ParseItems(t, depth, m).Done?
    ensures var r := ParseItems(t, depth, m); |r.value| > 0 && ListSpelt(inside, r.value) && t == inside + ([CLOSE_ARRAY] + r.rest)
    decreases |t|, 1
  {
    hide ParseValue, Spelt, Padded;
    var v := ParseValue(t, depth + 1, m);
    var before, own := ReadValue(t, depth + 1, m);
    var after := SkippedSpaces(v.rest);
    var u := SkipSpace(v.rest);
    MakePadded(before, own, after, v.value);
    var first := before + (own + after);
    assert t == first + u;
    if Starts(u, CLOSE_ARRAY) {
      inside := first;
      assert u == [CLOSE_ARRAY] + u[1..];
    } else {
      var more := ReadItems(u[1..], depth, m);
      inside := first + ([COMMA] + more);
      ConsList(first, v.value, more, ParseItems(u[1..], depth, m).value);
      assert u == [COMMA] + u[1..];
    }
  }

  lemma ConsList(first: Chars, v: Json, more: Chars, items: seq<Json>)
    requires Padded(first, v) && ListSpelt(more, items) && |items| > 0
    ensures ListSpelt(first + ([COMMA] + more), [v] + items)
  {
    hide Padded;
    var t, all := first + ([COMMA] + more), [v] + items;
    assert CommaAt(t, |first|) && t[..|first|] == first && t[|first| + 1..] == more && all[1..] == items && all[0] == v;
  }

  /** What follows the opening brace. */
  lemma ObjectRest(t: Chars, depth: nat, m: Mode)
    requires Starts(t, OPEN_OBJECT) && ParseValue(t, depth, m).Done?
    ensures var first := SkipSpace(t[1..]);
            if Starts(first, CLOSE_OBJECT) then ParseValue(t, depth, m) == Done(Obj([]), first[1..])
            else
              var ms := ParseMembers(first, depth, {}, m);
              ms.Done? && ParseValue(t, depth, m) == Done(Obj(ms.value), ms.rest)
  {
    hide ParseItems, ParseMembers, ParseLiteral, ParseString;
    NotSkipped(t);
  }

  lemma {:induction false} ReadObject(t: Chars, depth: nat, m: Mode) returns (own: Chars)
    requires Starts(t, OPEN_OBJECT) && ParseValue(t, depth, m).Done?
    ensures Spelt(own, ParseValue(t, depth, m).value) && t == own + ParseValue(t, depth, m).rest
    decreases |t|, 0, 1
  {
    hide ParseValue, ParseMembers, MembersSpelt;
    ObjectRest(t, depth, m);
    var before := SkippedSpaces(t[1..]);
    var first := SkipSpace(t[1..]);
    var rest := ParseValue(t, depth, m).rest;
    var inside := before;
    if Starts(first, CLOSE_OBJECT) {
      NothingSpelt(before);
      assert first == [CLOSE_OBJECT] + rest;
    } else {
      var members := ReadMembers(first, depth, {}, m);
      inside := before + members;
      MembersPadded(before, members, ParseMembers(first, depth, {}, m).value);
      assert before + (members + ([CLOSE_OBJECT] + rest)) == inside + ([CLOSE_OBJECT] + rest);
    }
    assert t == [OPEN_OBJECT] + (inside + ([CLOSE_OBJECT] + rest));
    own := Enclosed(t, OPEN_OBJECT, inside, CLOSE_OBJECT, rest);
  }

  lemma Enclosed(t: Chars, open: Unit, inside: Chars, close: Unit, rest: Chars) returns (own: Chars)
    requires t == [open] + (inside + ([close] + rest))
    ensures Bracketed(own, open, close) && own[1..|own| - 1] == inside && t == own + rest
  {
    own := [open] + inside + [close];
  }

  lemma MemberOf(before: Chars, own: Chars, after: Chars, value: Chars, member: Member)
    requires Spaces(before) && StringSpelt(own, member.key) && Spaces(after) && Padded(value, member.value)
    ensures MemberSpelt(before + (own + (after + ([COLON] + value))), member)
  {
    hide StringSpelt, Padded;
    var t := before + (own + (after + ([COLON] + value)));
    var a, b, n := |before|, |before| + |own|, |before| + |own| + |after|;
    assert t[..a] == before && t[a..b] == own && t[b..n] == after && t[n + 1..] == value;
    assert ColonAt(t, a, b, n);
  }

  lemma MemberPadded(before: Chars, t: Chars, member: Member)
    requires Spaces(before) && MemberSpelt(t, member)
    ensures MemberSpelt(before + t, member)
  {
    hide StringSpelt, Padded;
    var a, b, n :| ColonAt(t, a, b, n) && StringSpelt(t[a..b], member.key) && Padded(t[n + 1..], member.value);
    MemberOf(before + t[..a], t[a..b], t[b..n], t[n + 1..], member);
    assert before + t == before + t[..a] + (t[a..b] + (t[b..n] + ([COLON] + t[n + 1..])));
  }

  lemma MembersPadded(before: Chars, t: Chars, members: seq<Member>)
    requires Spaces(before) && MembersSpelt(t, members) && |members| > 0
    ensures MembersSpelt(before + t, members)
  {
    hide MemberSpelt;
    if |members| == 1 {
      MemberPadded(before, t, members[0]);
    } else {
      var n :| CommaAt(t, n) && MemberSpelt(t[..n], members[0]) && MembersSpelt(t[n + 1..], members[1..]);
      MemberPadded(before, t[..n], members[0]);
      var k := |before| + n;
      assert (before + t)[..k] == before + t[..n] && (before + t)[k + 1..] == t[n + 1..];
      assert CommaAt(before + t, k);
    }
  }

  lemma ReadName(t: Chars, seen: set<Chars>, m: Mode) returns (before: Chars, own: Chars, after: Chars)
    requires ParseName(t, seen, m).Done?
    ensures var r := ParseName(t, seen, m);
            && Spaces(before) && StringSpelt(own, r.value) && Spaces(after)
            && t == before + (own + (after + ([COLON] + r.rest)))
  {
    hide ParseString, StringSpelt, NameRefused;
    before := SkippedSpaces(t);
    var u := SkipSpace(t);
    own := ReadString(u);
    after := SkippedSpaces(ParseString(u).rest);
    var c := SkipSpace(ParseString(u).rest);
    assert c == [COLON] + c[1..];
  }

  lemma {:induction false} ReadMember(t: Chars, depth: nat, seen: set<Chars>, m: Mode) returns (own: Chars)
    requires ParseMember(t, depth, seen, m).Done?
    ensures var r := ParseMember(t, depth, seen, m); MemberSpelt(own, r.value) && t == own + r.rest
    decreases |t|, 1
  {
    hide ParseValue, Spelt, Padded, ParseName, MemberSpelt, StringSpelt;
    var b0, key, a0 := ReadName(t, seen, m);
    var name := ParseName(t, seen, m);
    var b1, value := ReadValue(name.rest, depth + 1, m);
    var v := ParseValue(name.rest, depth + 1, m);
    var a1 := SkippedSpaces(v.rest);
    MakePadded(b1, value, a1, v.value);
    var padded := b1 + (value + a1);
    MemberOf(b0, key, a0, padded, Member(name.value, v.value));
    own := b0 + (key + (a0 + ([COLON] + padded)));
    var last := SkipSpace(v.rest);
    assert name.rest == padded + last by {
      Regroup(b1, value, a1, last);
    }
    Nested(b0, key, a0, padded, last);
  }

  lemma Regroup(a: Chars, b: Chars, d: Chars, last: Chars)
    ensures a + (b + (d + last)) == a + (b + d) + last
  {
  }

  lemma Nested(a: Chars, b: Chars, d: Chars, e: Chars, last: Chars)
    ensures a + (b + (d + ([COLON] + (e + last)))) == a + (b + (d + ([COLON] + e))) + last
  {
    assert [COLON] + (e + last) == [COLON] + e + last;
    Regroup(b, d, [COLON] + e, last);
  }

  lemma {:induction false} ReadMembers(t: Chars, depth: nat, seen: set<Chars>, m: Mode) returns (inside: Chars)
    requires ParseMembers(t, depth, seen, m).Done?
    ensures var r := ParseMembers(t, depth, seen, m);
            |r.value| > 0 && MembersSpelt(inside, r.value) && t == inside + ([CLOSE_OBJECT] + r.rest)
    decreases |t|, 2
  {
    hide ParseMember, MemberSpelt;
    var first := ParseMember(t, depth, seen, m);
    var own := ReadMember(t, depth, seen, m);
    var u := first.rest;
    if Starts(u, CLOSE_OBJECT) {
      inside := own;
      assert u == [CLOSE_OBJECT] + u[1..];
    } else {
      var more := ReadMembers(u[1..], depth, seen + {first.value.key}, m);
      inside := own + ([COMMA] + more);
      ConsMembers(own, first.value, more, ParseMembers(u[1..], depth, seen + {first.value.key}, m).value);
      assert u == [COMMA] + u[1..];
    }
  }

  lemma ConsMembers(first: Chars, member: Member, more: Chars, members: seq<Member>)
    requires MemberSpelt(first, member) && MembersSpelt(more, members) && |members| > 0
    ensures MembersSpelt(first + ([COMMA] + more), [member] + members)
  {
    hide MemberSpelt;
    var t, all := first + ([COMMA] + more), [member] + members;
    assert CommaAt(t, |first|) && t[..|first|] == first && t[|first| + 1..] == more && all[1..] == members && all[0] == member;
  }

  // ---- the theorem ----

  /** A text is read as a value exactly when it spells it, with white space around it, and the value fits: at most 32 deep,
      with finite numbers, and without repeated or reserved names in any object. */
  lemma ParseExact(t: Chars, v: Json, m: Mode)
    ensures Parse(t, m) == Some(v) <==> Padded(t, v) && Fits(v, 0, m)
  {
    hide ParseValue, Spelt, Fits, Padded;
    if Padded(t, v) && Fits(v, 0, m) {
      PaddedReads(t, v, [], 0, m);
      assert t + [] == t;
    }
    if Parse(t, m) == Some(v) {
      ParsedFits(t, 0, m);
      var before, own := ReadValue(t, 0, m);
      var rest := ParseValue(t, 0, m).rest;
      var after := SkippedSpaces(rest);
      assert after + [] == after;
      MakePadded(before, own, rest, v);
    }
  }
}
