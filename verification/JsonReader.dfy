/** `parseJSON` itself (`experiments/inference-boundary/json.ts:2-55`): a cursor that moves over the text, and loops that
    fill arrays and objects. Each method equals the reading function of the same name on what is left of the text. */
module JsonReaders {
  import opened Text
  import opened Json

  /** A method's answer and the text it left, against the function's. */
  predicate Agrees<T(==)>(r: Option<T>, p: Parsed<T>, rest: Chars) {
    match r
    case None => p.Bad?
    case Some(v) => p == Done(v, rest)
  }

  function Prepend<T>(first: seq<T>, p: Parsed<seq<T>>): Parsed<seq<T>> {
    if p.Bad? then Bad else Done(first + p.value, p.rest)
  }

  function Shift(n: nat, close: Option<nat>): Option<nat> {
    if close.None? then None else Some(n + close.value)
  }

  class JsonReader {
    const text: Chars
    const mode: Mode
    var i: nat

    constructor (text: Chars, mode: Mode)
      ensures this.text == text && this.mode == mode && i == 0
    {
      this.text := text;
      this.mode := mode;
      i := 0;
    }

    method Space()
      requires i <= |text|
      modifies this`i
      ensures old(i) <= i <= |text| && text[i..] == SkipSpace(text[old(i)..])
    {
      while i < |text| && IsSpace(text[i])
        invariant old(i) <= i <= |text|
        invariant SkipSpace(text[i..]) == SkipSpace(text[old(i)..])
      {
        assert text[i..][1..] == text[i + 1..];
        i := i + 1;
      }
    }

    method String() returns (s: Option<Chars>)
      requires i < |text| && text[i] == QUOTE
      modifies this`i
      ensures s.Some? ==> old(i) < i <= |text|
      ensures Agrees(s, ParseString(text[old(i)..]), if s.Some? then text[i..] else [])
    {
      hide Unescape, CloseQuote, ParseString;
      var start := i;
      i := i + 1;
      while i < |text|
        invariant start < i
        invariant CloseQuote(text[start + 1..]) == if i <= |text| then Shift(i - start - 1, CloseQuote(text[i..])) else None
      {
        CloseStep(text, i);
        if text[i] == BACKSLASH {
          i := i + 2;
          continue;
        }
        i := i + 1;
        if text[i - 1] == QUOTE {
          TokenEnds(text, start, i);
          s := Unescape(text[start + 1..i - 1]);
          return;
        }
      }
      NothingCloses();
      NeverCloses(text, start);
      return None;
    }

    method Value(depth: nat) returns (r: Option<Json>)
      requires i <= |text|
      modifies this`i
      ensures r.Some? ==> old(i) < i <= |text|
      ensures Agrees(r, ParseValue(text[old(i)..], depth, mode), if r.Some? then text[i..] else [])
      decreases |text| - i, 1
    {
      hide SkipSpace, ParseString, ParseMembers, ParseItems, ParseLiteral;
      if depth > mode.limit {
        return None;
      }
      Space();
      SkippedOnce(text[old(i)..]);
      if i < |text| && text[i] == QUOTE {
        var s := String();
        return if s.Some? then Some(Str(s.value)) else None;
      }
      if i < |text| && text[i] == OPEN_OBJECT {
        SameSkipped(text[old(i)..], depth, mode);
        r := Object(depth);
        return;
      }
      if i < |text| && text[i] == OPEN_ARRAY {
        SameSkipped(text[old(i)..], depth, mode);
        r := Array(depth);
        return;
      }
      r := Literal();
    }

    method Object(depth: nat) returns (r: Option<Json>)
      requires i < |text| && text[i] == OPEN_OBJECT && depth <= mode.limit
      modifies this`i
      ensures r.Some? ==> old(i) < i <= |text|
      ensures Agrees(r, ParseValue(text[old(i)..], depth, mode), if r.Some? then text[i..] else [])
      decreases |text| - i, 0
    {
      hide ParseString, ParseMembers, ParseItems, ParseLiteral;
      assert text[i..][1..] == text[i + 1..];
      i := i + 1;
      Space();
      if i < |text| && text[i] == CLOSE_OBJECT {
        assert text[i..][1..] == text[i + 1..];
        i := i + 1;
        return Some(Obj([]));
      }
      var ms := Members(depth);
      return if ms.Some? then Some(Obj(ms.value)) else None;
    }

    method Array(depth: nat) returns (r: Option<Json>)
      requires i < |text| && text[i] == OPEN_ARRAY && depth <= mode.limit
      modifies this`i
      ensures r.Some? ==> old(i) < i <= |text|
      ensures Agrees(r, ParseValue(text[old(i)..], depth, mode), if r.Some? then text[i..] else [])
      decreases |text| - i, 0
    {
      hide ParseString, ParseMembers, ParseItems, ParseLiteral;
      assert text[i..][1..] == text[i + 1..];
      i := i + 1;
      Space();
      if i < |text| && text[i] == CLOSE_ARRAY {
        assert text[i..][1..] == text[i + 1..];
        i := i + 1;
        return Some(Arr([]));
      }
      var vs := Items(depth);
      return if vs.Some? then Some(Arr(vs.value)) else None;
    }

    /** The pattern of line 45: the first alternative that matches, and all of the number. */
    method Literal() returns (r: Option<Json>)
      requires i <= |text|
      modifies this`i
      ensures r.Some? ==> old(i) < i <= |text|
      ensures Agrees(r, ParseLiteral(text[old(i)..], mode), if r.Some? then text[i..] else [])
    {
      hide MatchNumber;
      var t := text[i..];
      if TRUE <= t {
        i := i + 4;
        assert text[i..] == t[4..];
        return Some(Bool(true));
      } else if FALSE <= t {
        i := i + 5;
        assert text[i..] == t[5..];
        return Some(Bool(false));
      } else if NULL <= t {
        i := i + 4;
        assert text[i..] == t[4..];
        return Some(Null);
      }
      var n := MatchNumber(t);
      if n.None? || !mode.finite(t[..n.value]) {
        return None;
      }
      i := i + n.value;
      assert text[i..] == t[n.value..];
      return Some(Num(t[..n.value]));
    }

    method Items(depth: nat) returns (r: Option<seq<Json>>)
      requires i <= |text|
      modifies this`i
      ensures r.Some? ==> old(i) < i <= |text|
      ensures Agrees(r, ParseItems(text[old(i)..], depth, mode), if r.Some? then text[i..] else [])
      decreases |text| - i, 2
    {
      hide SkipSpace, ParseValue;
      var items: seq<Json> := [];
      PrependNothing(ParseItems(text[i..], depth, mode));
      while true
        invariant old(i) <= i <= |text|
        invariant ParseItems(text[old(i)..], depth, mode) == Prepend(items, ParseItems(text[i..], depth, mode))
        decreases |text| - i
      {
        ghost var before := items;
        var v := Value(depth + 1);
        if v.None? {
          return None;
        }
        items := items + [v.value];
        Space();
        if i == |text| {
          return None;
        }
        var separator := text[i];
        assert text[i..][1..] == text[i + 1..];
        i := i + 1;
        if separator == CLOSE_ARRAY {
          return Some(items);
        }
        if separator != COMMA {
          return None;
        }
        PrependMore(before, v.value, ParseItems(text[i..], depth, mode));
      }
    }

    method Members(depth: nat) returns (r: Option<seq<Member>>)
      requires i <= |text|
      modifies this`i
      ensures r.Some? ==> old(i) < i <= |text|
      ensures Agrees(r, ParseMembers(text[old(i)..], depth, {}, mode), if r.Some? then text[i..] else [])
      decreases |text| - i, 3
    {
      hide SkipSpace, ParseValue, ParseMember;
      var result: seq<Member> := [];
      var names: set<Chars> := {};
      PrependNothing(ParseMembers(text[i..], depth, names, mode));
      while true
        invariant old(i) <= i <= |text|
        invariant ParseMembers(text[old(i)..], depth, {}, mode) == Prepend(result, ParseMembers(text[i..], depth, names, mode))
        decreases |text| - i
      {
        ghost var before := result;
        var member := OneMember(depth, names);
        if member.None? {
          return None;
        }
        result, names := result + [member.value], names + {member.value.key};
        if i == |text| {
          return None;
        }
        var separator := text[i];
        assert text[i..][1..] == text[i + 1..];
        i := i + 1;
        if separator == CLOSE_OBJECT {
          return Some(result);
        }
        if separator != COMMA {
          return None;
        }
        PrependMore(before, member.value, ParseMembers(text[i..], depth, names, mode));
      }
    }

    method OneMember(depth: nat, names: set<Chars>) returns (r: Option<Member>)
      requires i <= |text|
      modifies this`i
      ensures r.Some? ==> old(i) < i <= |text|
      ensures Agrees(r, ParseMember(text[old(i)..], depth, names, mode), if r.Some? then text[i..] else [])
      decreases |text| - i, 2
    {
      hide SkipSpace, ParseValue, ParseName;
      var key := Name(names);
      if key.None? {
        return None;
      }
      var v := Value(depth + 1);
      if v.None? {
        return None;
      }
      Space();
      return Some(Member(key.value, v.value));
    }

    method Name(names: set<Chars>) returns (key: Option<Chars>)
      requires i <= |text|
      modifies this`i
      ensures key.Some? ==> old(i) < i <= |text|
      ensures Agrees(key, ParseName(text[old(i)..], names, mode), if key.Some? then text[i..] else [])
    {
      hide SkipSpace, ParseString;
      Space();
      if i == |text| || text[i] != QUOTE {
        return None;
      }
      key := String();
      if key.None? || (!mode.repeats && key.value in names) || (!mode.reserved && key.value in RESERVED) {
        return None;
      }
      Space();
      if i == |text| || text[i] != COLON {
        return None;
      }
      assert text[i..][1..] == text[i + 1..];
      i := i + 1;
    }
  }

  lemma SkippedOnce(t: Chars)
    ensures SkipSpace(SkipSpace(t)) == SkipSpace(t)
  {
  }

  lemma SameSkipped(t: Chars, depth: nat, m: Mode)
    ensures ParseValue(SkipSpace(t), depth, m) == ParseValue(t, depth, m)
  {
    hide ParseString, ParseMembers, ParseItems, ParseLiteral;
    SkippedOnce(t);
  }

  lemma PrependNothing<T>(p: Parsed<seq<T>>)
    ensures Prepend([], p) == p
  {
    if p.Done? {
      assert [] + p.value == p.value;
    }
  }

  /** One turn of the scan for the closing quote. */
  lemma CloseStep(text: Chars, i: nat)
    requires i < |text|
    ensures text[i] == BACKSLASH ==>
              CloseQuote(text[i..]) == if i + 2 <= |text| then Shift(2, CloseQuote(text[i + 2..])) else None
    ensures text[i] == QUOTE ==> CloseQuote(text[i..]) == Some(1)
    ensures text[i] != BACKSLASH && text[i] != QUOTE ==> CloseQuote(text[i..]) == Shift(1, CloseQuote(text[i + 1..]))
  {
    var t := text[i..];
    assert t[1..] == text[i + 1..];
    if |t| >= 2 {
      assert t[2..] == text[i + 2..];
    }
  }

  lemma TokenEnds(text: Chars, start: nat, end: nat)
    requires start + 2 <= end <= |text| && text[start] == QUOTE
    requires CloseQuote(text[start + 1..]) == Some(end - start - 1)
    ensures ParseString(text[start..]) ==
            var s := Unescape(text[start + 1..end - 1]); if s.None? then Bad else Done(s.value, text[end..])
  {
    hide Unescape, CloseQuote;
    var t := text[start..];
    assert t[1..] == text[start + 1..];
    assert t[1..end - start - 1] == text[start + 1..end - 1];
    assert t[end - start..] == text[end..];
  }

  lemma NeverCloses(text: Chars, start: nat)
    requires start < |text| && text[start] == QUOTE && CloseQuote(text[start + 1..]).None?
    ensures ParseString(text[start..]) == Bad
  {
    hide Unescape, CloseQuote;
    assert text[start..][1..] == text[start + 1..];
  }

  lemma NothingCloses()
    ensures CloseQuote([]) == None
  {
  }

  lemma PrependMore<T>(first: seq<T>, next: T, p: Parsed<seq<T>>)
    ensures Prepend(first, Prepend([next], p)) == Prepend(first + [next], p)
  {
    if p.Done? {
      assert first + ([next] + p.value) == first + [next] + p.value;
    }
  }

  /** `parseJSON` */
  method ParseJSON(text: Chars, allowReservedKeys: bool, finite: Chars -> bool) returns (r: Option<Json>)
    ensures r == Parse(text, Strict(allowReservedKeys, finite))
  {
    hide ParseValue, SkipSpace;
    var reader := new JsonReader(text, Strict(allowReservedKeys, finite));
    assert text[0..] == text;
    r := reader.Value(0);
    if r.Some? {
      reader.Space();
      if reader.i != |text| {
        r := None;
      }
    }
  }
}
