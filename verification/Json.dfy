/** The strict JSON reader and the canonical printer (`experiments/inference-boundary/json.ts`). Text is a sequence of
    UTF-16 code units, as in the source's strings, so lone surrogates are included. A number is its literal. */
module Json {
  import opened Text

  type Unit = u: int | 0 <= u < 0x1_0000
  type Chars = seq<Unit>

  function Code(c: char): Unit {
    if c as int < 0x1_0000 then c as int else 0xFFFD
  }

  /** The code units of a literal. */
  function U(s: string): (r: Chars)
    ensures |r| == |s|
    ensures forall i | 0 <= i < |s| :: r[i] == Code(s[i])
  {
    seq(|s|, i requires 0 <= i < |s| => Code(s[i]))
  }

  datatype Member = Member(key: Chars, value: Json)

  /** An object lists its members in the order in which they were read or written. */
  datatype Json =
    | Null
    | Bool(b: bool)
    | Num(literal: Chars)
    | Str(s: Chars)
    | Arr(items: seq<Json>)
    | Obj(members: seq<Member>)

  const QUOTE: Unit := 34
  const PLUS: Unit := 43
  const COMMA: Unit := 44
  const MINUS: Unit := 45
  const DOT: Unit := 46
  const SLASH: Unit := 47
  const COLON: Unit := 58
  const OPEN_ARRAY: Unit := 91
  const BACKSLASH: Unit := 92
  const CLOSE_ARRAY: Unit := 93
  const OPEN_OBJECT: Unit := 123
  const CLOSE_OBJECT: Unit := 125

  const TRUE: Chars := [116, 114, 117, 101]
  const FALSE: Chars := [102, 97, 108, 115, 101]
  const NULL: Chars := [110, 117, 108, 108]

  // ---- numbers ----

  predicate IsDigit(u: Unit) { 48 <= u <= 57 }

  function Digits(t: Chars): (n: nat)
    ensures n <= |t|
  {
    if |t| == 0 || !IsDigit(t[0]) then 0 else 1 + Digits(t[1..])
  }

  function WholePart(t: Chars): (n: Option<nat>)
    ensures n.Some? ==> 1 <= n.value <= |t|
  {
    if |t| == 0 || !IsDigit(t[0]) then None
    else if t[0] == 48 then Some(1)
    else Some(1 + Digits(t[1..]))
  }

  function FractionPart(t: Chars): (n: nat)
    ensures n <= |t|
  {
    if |t| >= 2 && t[0] == DOT && IsDigit(t[1]) then 2 + Digits(t[2..]) else 0
  }

  function ExponentPart(t: Chars): (n: nat)
    ensures n <= |t|
  {
    if |t| == 0 || (t[0] != 101 && t[0] != 69) then 0
    else
      var sign := if |t| >= 2 && (t[1] == PLUS || t[1] == MINUS) then 1 else 0;
      if |t| > 1 + sign && IsDigit(t[1 + sign]) then 2 + sign + Digits(t[2 + sign..]) else 0
  }

  /** How much of the text the number pattern matches, if at all. */
  function MatchNumber(t: Chars): (n: Option<nat>)
    ensures n.Some? ==> 1 <= n.value <= |t|
  {
    var sign := if |t| > 0 && t[0] == MINUS then 1 else 0;
    var whole := WholePart(t[sign..]);
    if whole.None? then None
    else
      var point := sign + whole.value;
      var mark := point + FractionPart(t[point..]);
      Some(mark + ExponentPart(t[mark..]))
  }

  predicate IsNumber(t: Chars) { MatchNumber(t) == Some(|t|) }

  // ---- strings ----

  function HexUnit(n: int): Unit
    requires 0 <= n < 16
  {
    if n < 10 then 48 + n else 87 + n
  }

  function HexValue(u: Unit): Option<nat> {
    if 48 <= u <= 57 then Some(u - 48)
    else if 97 <= u <= 102 then Some(u - 87)
    else if 65 <= u <= 70 then Some(u - 55)
    else None
  }

  predicate High(u: Unit) { 0xD800 <= u < 0xDC00 }

  predicate Low(u: Unit) { 0xDC00 <= u < 0xE000 }

  /** What the printer writes for one unit that is not part of a surrogate pair. */
  function EscapeUnit(u: Unit): Chars {
    if u == QUOTE then [BACKSLASH, QUOTE]
    else if u == BACKSLASH then [BACKSLASH, BACKSLASH]
    else if u == 8 then [BACKSLASH, 98]
    else if u == 9 then [BACKSLASH, 116]
    else if u == 10 then [BACKSLASH, 110]
    else if u == 12 then [BACKSLASH, 102]
    else if u == 13 then [BACKSLASH, 114]
    else if u < 32 || High(u) || Low(u) then
      [BACKSLASH, 117, HexUnit(u / 4096), HexUnit(u / 256 % 16), HexUnit(u / 16 % 16), HexUnit(u % 16)]
    else [u]
  }

  function Escape(s: Chars): Chars {
    if |s| == 0 then []
    else if |s| >= 2 && High(s[0]) && Low(s[1]) then [s[0], s[1]] + Escape(s[2..])
    else EscapeUnit(s[0]) + Escape(s[1..])
  }

  function Quote(s: Chars): Chars { [QUOTE] + Escape(s) + [QUOTE] }

  function SimpleEscape(u: Unit): Option<Unit> {
    if u == QUOTE || u == BACKSLASH || u == SLASH then Some(u)
    else if u == 98 then Some(8)
    else if u == 102 then Some(12)
    else if u == 110 then Some(10)
    else if u == 114 then Some(13)
    else if u == 116 then Some(9)
    else None
  }

  function UnitOfHex(a: Unit, b: Unit, c: Unit, d: Unit): (r: Option<Unit>) {
    if HexValue(a).Some? && HexValue(b).Some? && HexValue(c).Some? && HexValue(d).Some? then
      Some(HexValue(a).value * 4096 + HexValue(b).value * 256 + HexValue(c).value * 16 + HexValue(d).value)
    else None
  }

  /** One unit of a string token's inside and how much text it took. */
  function OneUnit(t: Chars): (r: Option<(Unit, nat)>)
    requires |t| > 0
    ensures r.Some? ==> 1 <= r.value.1 <= |t|
  {
    if t[0] == BACKSLASH then
      if |t| >= 2 && SimpleEscape(t[1]).Some? then Some((SimpleEscape(t[1]).value, 2))
      else if |t| >= 6 && t[1] == 117 && UnitOfHex(t[2], t[3], t[4], t[5]).Some? then Some((UnitOfHex(t[2], t[3], t[4], t[5]).value, 6))
      else None
    else if t[0] < 32 || t[0] == QUOTE then None
    else Some((t[0], 1))
  }

  /** The inside of a string token, read as RFC 8259 section 7 has it. */
  function Unescape(t: Chars): Option<Chars> {
    if |t| == 0 then Some([])
    else
      var first := OneUnit(t);
      if first.None? then None
      else
        var more := Unescape(t[first.value.1..]);
        if more.None? then None else Some([first.value.0] + more.value)
  }

  /** Where the closing quote ends, in the text after the opening one. */
  function CloseQuote(t: Chars): (n: Option<nat>)
    ensures n.Some? ==> 1 <= n.value <= |t|
  {
    if |t| == 0 then None
    else if t[0] == BACKSLASH then
      if |t| < 2 then None
      else
        var more := CloseQuote(t[2..]);
        if more.None? then None else Some(2 + more.value)
    else if t[0] == QUOTE then Some(1)
    else
      var more := CloseQuote(t[1..]);
      if more.None? then None else Some(1 + more.value)
  }

  // ---- reading ----

  /** Whether reserved and repeated names are let through; how deep values may nest; and which literals are finite as
      binary64 numbers. */
  datatype Mode = Mode(reserved: bool, repeats: bool, limit: nat, finite: Chars -> bool)

  /** What `parseJSON` uses. */
  function Strict(allowReserved: bool, finite: Chars -> bool): Mode { Mode(allowReserved, false, 32, finite) }

  datatype Parsed<+T> = Done(value: T, rest: Chars) | Bad

  const RESERVED: set<Chars> := {U("__proto__"), U("constructor"), U("prototype")}

  predicate IsSpace(u: Unit) { u == 32 || u == 9 || u == 13 || u == 10 }

  function SkipSpace(t: Chars): (r: Chars)
    ensures |r| <= |t|
    ensures |r| > 0 ==> !IsSpace(r[0])
  {
    if |t| > 0 && IsSpace(t[0]) then SkipSpace(t[1..]) else t
  }

  predicate Starts(t: Chars, u: Unit) { |t| > 0 && t[0] == u }

  function ParseString(t: Chars): (r: Parsed<Chars>)
    requires Starts(t, QUOTE)
    ensures r.Done? ==> |r.rest| < |t|
  {
    var close := CloseQuote(t[1..]);
    if close.None? then Bad
    else
      var inside := Unescape(t[1..close.value]);
      if inside.None? then Bad else Done(inside.value, t[1 + close.value..])
  }

  function ParseLiteral(t: Chars, m: Mode): (r: Parsed<Json>)
    ensures r.Done? ==> |r.rest| < |t|
  {
    if TRUE <= t then Done(Bool(true), t[4..])
    else if FALSE <= t then Done(Bool(false), t[5..])
    else if NULL <= t then Done(Null, t[4..])
    else
      var n := MatchNumber(t);
      if n.None? || !m.finite(t[..n.value]) then Bad else Done(Num(t[..n.value]), t[n.value..])
  }

  function ParseValue(t: Chars, depth: nat, m: Mode): (r: Parsed<Json>)
    ensures r.Done? ==> |r.rest| < |t|
    decreases |t|, 0
  {
    var u := SkipSpace(t);
    if depth > m.limit then Bad
    else if Starts(u, QUOTE) then
      var s := ParseString(u);
      if s.Bad? then Bad else Done(Str(s.value), s.rest)
    else if Starts(u, OPEN_OBJECT) then
      var first := SkipSpace(u[1..]);
      if Starts(first, CLOSE_OBJECT) then Done(Obj([]), first[1..])
      else
        var ms := ParseMembers(first, depth, {}, m);
        if ms.Bad? then Bad else Done(Obj(ms.value), ms.rest)
    else if Starts(u, OPEN_ARRAY) then
      var first := SkipSpace(u[1..]);
      if Starts(first, CLOSE_ARRAY) then Done(Arr([]), first[1..])
      else
        var vs := ParseItems(first, depth, m);
        if vs.Bad? then Bad else Done(Arr(vs.value), vs.rest)
    else ParseLiteral(u, m)
  }

  function ParseItems(t: Chars, depth: nat, m: Mode): (r: Parsed<seq<Json>>)
    ensures r.Done? ==> |r.rest| < |t|
    decreases |t|, 1
  {
    var v := ParseValue(t, depth + 1, m);
    if v.Bad? then Bad
    else
      var u := SkipSpace(v.rest);
      if Starts(u, CLOSE_ARRAY) then Done([v.value], u[1..])
      else if Starts(u, COMMA) then
        var more := ParseItems(u[1..], depth, m);
        if more.Bad? then Bad else Done([v.value] + more.value, more.rest)
      else Bad
  }

  predicate NameRefused(key: Chars, seen: set<Chars>, m: Mode) {
    (!m.repeats && key in seen) || (!m.reserved && key in RESERVED)
  }

  /** One `"name":`, and what follows it. */
  function ParseName(t: Chars, seen: set<Chars>, m: Mode): (r: Parsed<Chars>)
    ensures r.Done? ==> |r.rest| < |t| && !NameRefused(r.value, seen, m)
  {
    var u := SkipSpace(t);
    if !Starts(u, QUOTE) then Bad
    else
      var key := ParseString(u);
      if key.Bad? || NameRefused(key.value, seen, m) then Bad
      else
        var c := SkipSpace(key.rest);
        if !Starts(c, COLON) then Bad else Done(key.value, c[1..])
  }

  /** One `"name": value`, and what follows it after white space. */
  function ParseMember(t: Chars, depth: nat, seen: set<Chars>, m: Mode): (r: Parsed<Member>)
    ensures r.Done? ==> |r.rest| < |t|
    decreases |t|, 1
  {
    var key := ParseName(t, seen, m);
    if key.Bad? then Bad
    else
      var v := ParseValue(key.rest, depth + 1, m);
      if v.Bad? then Bad else Done(Member(key.value, v.value), SkipSpace(v.rest))
  }

  function ParseMembers(t: Chars, depth: nat, seen: set<Chars>, m: Mode): (r: Parsed<seq<Member>>)
    ensures r.Done? ==> |r.rest| < |t|
    decreases |t|, 2
  {
    var first := ParseMember(t, depth, seen, m);
    if first.Bad? then Bad
    else if Starts(first.rest, CLOSE_OBJECT) then Done([first.value], first.rest[1..])
    else if Starts(first.rest, COMMA) then
      var more := ParseMembers(first.rest[1..], depth, seen + {first.value.key}, m);
      if more.Bad? then Bad else Done([first.value] + more.value, more.rest)
    else Bad
  }

  /** The whole text is one value; `parseJSON(text, allow)` is this in the mode `Strict(allow, …)`. */
  function Parse(t: Chars, m: Mode): Option<Json> {
    var v := ParseValue(t, 0, m);
    if v.Bad? || SkipSpace(v.rest) != [] then None else Some(v.value)
  }

  // ---- printing ----

  function Print(v: Json): Chars
    decreases v
  {
    match v
    case Null => NULL
    case Bool(b) => if b then TRUE else FALSE
    case Num(literal) => literal
    case Str(s) => Quote(s)
    case Arr(items) => [OPEN_ARRAY] + PrintItems(items) + [CLOSE_ARRAY]
    case Obj(members) => [OPEN_OBJECT] + PrintMembers(members) + [CLOSE_OBJECT]
  }

  function PrintItems(items: seq<Json>): Chars
    decreases items
  {
    if |items| == 0 then []
    else if |items| == 1 then Print(items[0])
    else Print(items[0]) + [COMMA] + PrintItems(items[1..])
  }

  function PrintMember(m: Member): Chars
    decreases m, 0
  {
    Quote(m.key) + [COLON] + Print(m.value)
  }

  function PrintMembers(members: seq<Member>): Chars
    decreases members
  {
    if |members| == 0 then []
    else if |members| == 1 then PrintMember(members[0])
    else PrintMember(members[0]) + [COMMA] + PrintMembers(members[1..])
  }

  // ---- canonical form ----

  /** The order of JavaScript's default sort: by code units, a prefix first. */
  predicate KeyBefore(a: Chars, b: Chars) {
    if |b| == 0 then false
    else if |a| == 0 then true
    else a[0] < b[0] || (a[0] == b[0] && KeyBefore(a[1..], b[1..]))
  }

  function InsertMember(m: Member, ms: seq<Member>): seq<Member> {
    if |ms| == 0 || KeyBefore(m.key, ms[0].key) then [m] + ms
    else [ms[0]] + InsertMember(m, ms[1..])
  }

  function SortMembers(ms: seq<Member>): seq<Member> {
    if |ms| == 0 then [] else InsertMember(ms[0], SortMembers(ms[1..]))
  }

  /** Members in the order of their names, at every depth. */
  function Sorted(v: Json): Json
    decreases v
  {
    match v
    case Arr(items) => Arr(SortedItems(items))
    case Obj(members) => Obj(SortMembers(SortedValues(members)))
    case _ => v
  }

  function SortedItems(items: seq<Json>): (r: seq<Json>)
    decreases items
  {
    if |items| == 0 then [] else [Sorted(items[0])] + SortedItems(items[1..])
  }

  function SortedValues(members: seq<Member>): (r: seq<Member>)
    decreases members
  {
    if |members| == 0 then [] else [Member(members[0].key, Sorted(members[0].value))] + SortedValues(members[1..])
  }

  /** `canonical` */
  function Canonical(v: Json): Chars { Print(Sorted(v)) }

  // ---- what the laws are about ----

  function Height(v: Json): nat
    decreases v
  {
    match v
    case Arr(items) => ItemsHeight(items)
    case Obj(members) => MembersHeight(members)
    case _ => 0
  }

  /** 0 for none; otherwise one more than the highest. */
  function ItemsHeight(items: seq<Json>): nat
    decreases items
  {
    if |items| == 0 then 0
    else
      var first, more := 1 + Height(items[0]), ItemsHeight(items[1..]);
      if first > more then first else more
  }

  function MembersHeight(members: seq<Member>): nat
    decreases members
  {
    if |members| == 0 then 0
    else
      var first, more := 1 + Height(members[0].value), MembersHeight(members[1..]);
      if first > more then first else more
  }

  /** Number literals that the pattern accepts and that are finite. */
  predicate Numeric(v: Json, m: Mode)
    decreases v
  {
    match v
    case Num(literal) => IsNumber(literal) && m.finite(literal)
    case Arr(items) => forall i | 0 <= i < |items| :: Numeric(items[i], m)
    case Obj(members) => forall i | 0 <= i < |members| :: Numeric(members[i].value, m)
    case _ => true
  }

  predicate DistinctNames(members: seq<Member>) {
    forall i, k | 0 <= i < k < |members| :: members[i].key != members[k].key
  }

  predicate Unreserved(members: seq<Member>) {
    forall i | 0 <= i < |members| :: members[i].key !in RESERVED
  }

  /** The names a mode lets through, at every depth. */
  predicate Named(v: Json, m: Mode)
    decreases v
  {
    match v
    case Arr(items) => forall i | 0 <= i < |items| :: Named(items[i], m)
    case Obj(members) =>
      && (m.repeats || DistinctNames(members)) && (m.reserved || Unreserved(members))
      && forall i | 0 <= i < |members| :: Named(members[i].value, m)
    case _ => true
  }

  /** A value as the program sees it: the order of an object's members is not part of it. */
  datatype Value = Scalar(v: Json) | List(items: seq<Value>) | Record(fields: map<Chars, Value>)

  function Meaning(v: Json): Value
    decreases v
  {
    match v
    case Arr(items) => List(ItemMeanings(items))
    case Obj(members) => Record(Fields(members))
    case _ => Scalar(v)
  }

  function ItemMeanings(items: seq<Json>): seq<Value>
    decreases items
  {
    if |items| == 0 then [] else [Meaning(items[0])] + ItemMeanings(items[1..])
  }

  function Fields(members: seq<Member>): map<Chars, Value>
    decreases members
  {
    if |members| == 0 then map[] else Fields(members[1..])[members[0].key := Meaning(members[0].value)]
  }
}
