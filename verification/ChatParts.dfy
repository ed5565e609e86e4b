/** What streamed parts of tool calls add up to (`experiments/inference-boundary/protocol.ts:163-178`), said of the parts
    themselves: a call is named by its first part, and its arguments are the texts of all its parts from left to right. */
module ChatParts {
  import opened Text
  import opened Json
  import opened ChatModel

  // ---- members ----

  /** The first member with that name, if there is one. */
  ghost predicate FieldIs(v: Json, key: Chars, value: Option<Json>) {
    match value
    case None => !v.Obj? || forall i | 0 <= i < |v.members| :: v.members[i].key != key
    case Some(x) => v.Obj? && exists i :: FirstMember(v.members, i, key) && v.members[i].value == x
  }

  predicate FirstMember(members: seq<Member>, i: int, key: Chars) {
    0 <= i < |members| && members[i].key == key && forall j | 0 <= j < i :: members[j].key != key
  }

  lemma {:induction false} LookupReads(members: seq<Member>, key: Chars)
    ensures FieldIs(Obj(members), key, Lookup(members, key))
  {
    if |members| > 0 && members[0].key == key {
      assert FirstMember(members, 0, key);
    } else if |members| > 0 {
      LookupReads(members[1..], key);
      var found := Lookup(members[1..], key);
      if found.Some? {
        var i :| FirstMember(members[1..], i, key) && members[1..][i].value == found.value;
        assert FirstMember(members, i + 1, key);
      } else {
        forall i | 0 <= i < |members| ensures members[i].key != key {
          assert i == 0 || members[i] == members[1..][i - 1];
        }
      }
    }
  }

  /** A field is what its first member says, and nothing else is. */
  lemma FieldExact(v: Json, key: Chars, value: Option<Json>)
    ensures FieldIs(v, key, value) <==> value == Field(v, key)
  {
    if v.Obj? {
      LookupReads(v.members, key);
      var found := Field(v, key);
      if FieldIs(v, key, value) && value.Some? && found.Some? {
        var i :| FirstMember(v.members, i, key) && v.members[i].value == value.value;
        var j :| FirstMember(v.members, j, key) && v.members[j].value == found.value;
        assert i == j;
      }
    }
  }

  // ---- parts ----

  /** One part as it was sent: `id` and `name` are absent or any value; absent arguments are the empty text. */
  datatype Part = Part(index: int, id: Option<Json>, name: Option<Json>, text: Chars)

  predicate IsWhole(c: Config, v: Option<Json>, n: int) {
    v.Some? && v.value.Num? && c.whole(v.value.literal) == Some(n)
  }

  predicate PartSays(c: Config, v: Json, part: Part) {
    && v.Obj? && (forall m | m in v.members :: m.key == INDEX || m.key == ID || m.key == TYPE || m.key == FUNCTION)
    && IsWhole(c, Field(v, INDEX), part.index) && 0 <= part.index <= 7
    && (Field(v, TYPE) == None || Field(v, TYPE) == Some(Str(FUNCTION)))
    && Field(v, FUNCTION).Some? && part.id == Field(v, ID)
    && FunctionSays(Field(v, FUNCTION).value, part)
  }

  predicate FunctionSays(fn: Json, part: Part) {
    && fn.Obj? && (forall m | m in fn.members :: m.key == NAME || m.key == ARGUMENTS)
    && part.name == Field(fn, NAME)
    && (if Field(fn, ARGUMENTS) == None then part.text == [] else Field(fn, ARGUMENTS) == Some(Str(part.text)))
  }

  predicate PartsSay(c: Config, items: seq<Json>, parts: seq<Part>) {
    |items| == |parts| && forall k | 0 <= k < |items| :: PartSays(c, items[k], parts[k])
  }

  predicate Mentions(parts: seq<Part>, i: int) { exists k :: 0 <= k < |parts| && parts[k].index == i }

  predicate NamesCall(part: Part) {
    part.id.Some? && part.id.value.Str? && CallId(part.id.value.s) && part.name.Some? && part.name.value.Str?
  }

  /** A part names its call when nothing did before, and only then. */
  predicate InPlace(known: bool, part: Part) {
    if known then part.id == None && part.name == None else NamesCall(part)
  }

  predicate AllInPlace(before: map<int, Call>, parts: seq<Part>) {
    forall k | 0 <= k < |parts| :: InPlace(parts[k].index in before || Mentions(parts[..k], parts[k].index), parts[k])
  }

  /** The texts of the parts with that index, from left to right. */
  function TextAt(parts: seq<Part>, i: int): Chars {
    if |parts| == 0 then []
    else
      var last := parts[|parts| - 1];
      TextAt(parts[..|parts| - 1], i) + if last.index == i then last.text else []
  }

  /** Nobody before it has its index. */
  predicate FirstPart(parts: seq<Part>, k: int) {
    0 <= k < |parts| && !Mentions(parts[..k], parts[k].index)
  }

  /** What the parts make of the calls held before: nothing is lost, arguments are added at the end, and every new call is
      named by its first part. */
  ghost predicate Collects(before: map<int, Call>, parts: seq<Part>, after: map<int, Call>) {
    && (forall i :: i in after <==> i in before || Mentions(parts, i))
    && (forall i | i in before :: i in after && after[i] == before[i].(arguments := before[i].arguments + TextAt(parts, i)))
    && (forall k | FirstPart(parts, k) && parts[k].index !in before ::
          NamesCall(parts[k]) && parts[k].index in after &&
          after[parts[k].index] == Call(parts[k].id.value.s, parts[k].name.value.s, TextAt(parts, parts[k].index)))
  }

  lemma CollectsNothing(before: map<int, Call>)
    ensures Collects(before, [], before) && AllInPlace(before, [])
  {
    forall i | i in before ensures before[i] == before[i].(arguments := before[i].arguments + TextAt([], i)) {
      assert before[i].arguments + [] == before[i].arguments;
    }
  }

  // ---- one part ----

  lemma PartAccepted(c: Config, p: Parts, v: Json, part: Part)
    requires p.ok && PartSays(c, v, part)
    ensures AddPart(c, p, v).ok <==> InPlace(part.index in p.tools, part)
    ensures AddPart(c, p, v).ok ==>
              var held := if part.index in p.tools then p.tools[part.index] else Call(part.id.value.s, part.name.value.s, []);
              && AddPart(c, p, v).tools == p.tools[part.index := held.(arguments := held.arguments + part.text)]
              && AddPart(c, p, v).semantic == (p.semantic || |part.text| > 0)
  {
    hide Field, CallId;
    OnlyNamed(v, Field(v, FUNCTION).value);
  }

  lemma OnlyNamed(v: Json, fn: Json)
    ensures OnlyKeys(v, {INDEX, ID, TYPE, FUNCTION}) <==>
              v.Obj? && forall m | m in v.members :: m.key == INDEX || m.key == ID || m.key == TYPE || m.key == FUNCTION
    ensures OnlyKeys(fn, {NAME, ARGUMENTS}) <==> fn.Obj? && forall m | m in fn.members :: m.key == NAME || m.key == ARGUMENTS
  {
    hide INDEX, ID, TYPE, FUNCTION, NAME, ARGUMENTS;
  }

  /** Whatever is accepted says a part. */
  lemma PartIsSaid(c: Config, p: Parts, v: Json) returns (part: Part)
    requires AddPart(c, p, v).ok
    ensures p.ok && PartSays(c, v, part)
  {
    hide Field, CallId;
    var index, fn := WholeOf(c, Field(v, INDEX)).value, Field(v, FUNCTION).value;
    var more := Field(fn, ARGUMENTS);
    part := Part(index, Field(v, ID), Field(fn, NAME), if more.Some? then more.value.s else []);
    OnlyNamed(v, fn);
  }

  // ---- one more part ----

  lemma MentionsMore(parts: seq<Part>, part: Part, i: int)
    ensures Mentions(parts + [part], i) <==> Mentions(parts, i) || part.index == i
  {
    var more := parts + [part];
    if Mentions(parts, i) {
      var k :| 0 <= k < |parts| && parts[k].index == i;
      assert more[k].index == i;
    }
    if part.index == i {
      assert more[|parts|].index == i;
    }
  }

  lemma TextMore(parts: seq<Part>, part: Part, i: int)
    ensures TextAt(parts + [part], i) == TextAt(parts, i) + if part.index == i then part.text else []
  {
    assert (parts + [part])[..|parts|] == parts;
  }

  lemma InPlaceMore(before: map<int, Call>, parts: seq<Part>, part: Part)
    ensures AllInPlace(before, parts + [part]) <==>
              AllInPlace(before, parts) && InPlace(part.index in before || Mentions(parts, part.index), part)
  {
    hide Mentions, InPlace;
    var more := parts + [part];
    assert more[..|parts|] == parts;
    assert forall k | 0 <= k < |parts| :: more[k] == parts[k] && more[..k] == parts[..k];
    if AllInPlace(before, more) {
      assert more[|parts|] == part;
      forall k | 0 <= k < |parts| ensures InPlace(parts[k].index in before || Mentions(parts[..k], parts[k].index), parts[k]) {
        assert more[k] == parts[k] && more[..k] == parts[..k];
      }
    }
  }

  /** The text of a call that no part mentions is empty. */
  lemma {:induction false} NoText(parts: seq<Part>, i: int)
    requires !Mentions(parts, i)
    ensures TextAt(parts, i) == []
  {
    if |parts| > 0 {
      var n := |parts| - 1;
      assert parts == parts[..n] + [parts[n]];
      MentionsMore(parts[..n], parts[n], i);
      NoText(parts[..n], i);
    }
  }

  lemma CollectsMore(before: map<int, Call>, parts: seq<Part>, held: map<int, Call>, part: Part, after: map<int, Call>)
    requires Collects(before, parts, held) && InPlace(part.index in before || Mentions(parts, part.index), part)
    requires var call := if part.index in held then held[part.index] else Call(part.id.value.s, part.name.value.s, []);
             after == held[part.index := call.(arguments := call.arguments + part.text)]
    ensures Collects(before, parts + [part], after)
  {
    hide Mentions, TextAt, CallId;
    var more := parts + [part];
    forall i ensures i in after <==> i in before || Mentions(more, i) {
      MentionsMore(parts, part, i);
    }
    forall i | i in before ensures i in after && after[i] == before[i].(arguments := before[i].arguments + TextAt(more, i)) {
      TextMore(parts, part, i);
      assert before[i].arguments + TextAt(parts, i) + part.text == before[i].arguments + (TextAt(parts, i) + part.text);
      assert TextAt(parts, i) + [] == TextAt(parts, i);
    }
    forall k | FirstPart(more, k) && more[k].index !in before
      ensures NamesCall(more[k]) && more[k].index in after
      ensures after[more[k].index] == Call(more[k].id.value.s, more[k].name.value.s, TextAt(more, more[k].index))
    {
      NewCall(before, parts, held, part, after, k);
    }
  }

  lemma NewCall(before: map<int, Call>, parts: seq<Part>, held: map<int, Call>, part: Part, after: map<int, Call>, k: int)
    requires Collects(before, parts, held) && InPlace(part.index in before || Mentions(parts, part.index), part)
    requires var call := if part.index in held then held[part.index] else Call(part.id.value.s, part.name.value.s, []);
             after == held[part.index := call.(arguments := call.arguments + part.text)]
    requires var more := parts + [part]; FirstPart(more, k) && more[k].index !in before
    ensures var more := parts + [part];
            && NamesCall(more[k]) && more[k].index in after
            && after[more[k].index] == Call(more[k].id.value.s, more[k].name.value.s, TextAt(more, more[k].index))
  {
    hide Mentions, TextAt, CallId;
    var more := parts + [part];
    TextMore(parts, part, more[k].index);
    if k < |parts| {
      assert more[k] == parts[k] && more[..k] == parts[..k];
      assert FirstPart(parts, k);
    } else {
      assert more[..k] == parts && more[k] == part;
      NoText(parts, part.index);
    }
    assert TextAt(parts, more[k].index) + [] == TextAt(parts, more[k].index);
  }

  // ---- many parts ----

  predicate Meant(parts: seq<Part>) { exists k :: 0 <= k < |parts| && |parts[k].text| > 0 }

  lemma MeantMore(parts: seq<Part>, part: Part)
    ensures Meant(parts + [part]) <==> Meant(parts) || |part.text| > 0
  {
    var more := parts + [part];
    if Meant(parts) {
      var k :| 0 <= k < |parts| && |parts[k].text| > 0;
      assert more[k] == parts[k];
    }
    assert more[|parts|] == part;
  }

  lemma {:induction false} OnlyGoodParts(c: Config, p: Parts, items: seq<Json>) returns (parts: seq<Part>)
    requires AddParts(c, p, items).ok
    ensures p.ok && PartsSay(c, items, parts)
  {
    hide PartSays, AddPart;
    parts := [];
    if |items| > 0 {
      var n := |items| - 1;
      var last := PartIsSaid(c, AddParts(c, p, items[..n]), items[n]);
      var earlier := OnlyGoodParts(c, p, items[..n]);
      parts := earlier + [last];
      forall k | 0 <= k < |items| ensures PartSays(c, items[k], parts[k]) {
        assert k < n ==> items[..n][k] == items[k];
      }
    }
  }

  /** Adding parts to what earlier parts made of the first calls: accepted exactly when every part is in its place, and then
      all of the parts together are collected. */
  lemma {:induction false} PartsCollect(c: Config, before: map<int, Call>, earlier: seq<Part>, p: Parts, items: seq<Json>, parts: seq<Part>)
    requires p.ok && Collects(before, earlier, p.tools) && AllInPlace(before, earlier) && PartsSay(c, items, parts)
    ensures AddParts(c, p, items).ok <==> AllInPlace(before, earlier + parts)
    ensures AddParts(c, p, items).ok ==>
              && Collects(before, earlier + parts, AddParts(c, p, items).tools)
              && AddParts(c, p, items).semantic == (p.semantic || Meant(parts))
    decreases |items|
  {
    hide PartSays, AddPart, InPlace, Collects, AllInPlace, Mentions, TextAt;
    if |items| == 0 {
      assert earlier + parts == earlier && parts == [];
    } else {
      var n := |items| - 1;
      assert parts == parts[..n] + [parts[n]] && earlier + parts == (earlier + parts[..n]) + [parts[n]];
      PartsCollect(c, before, earlier, p, items[..n], parts[..n]);
      InPlaceMore(before, earlier + parts[..n], parts[n]);
      MeantMore(parts[..n], parts[n]);
      var q := AddParts(c, p, items[..n]);
      if q.ok {
        LastPart(c, before, earlier + parts[..n], q, items[n], parts[n]);
      } else {
        NothingAdded(c, q, items[n]);
      }
    }
  }

  lemma NothingAdded(c: Config, p: Parts, v: Json)
    requires !p.ok
    ensures !AddPart(c, p, v).ok
  {
  }

  lemma LastPart(c: Config, before: map<int, Call>, all: seq<Part>, q: Parts, v: Json, part: Part)
    requires q.ok && Collects(before, all, q.tools) && PartSays(c, v, part)
    ensures AddPart(c, q, v).ok <==> InPlace(part.index in before || Mentions(all, part.index), part)
    ensures AddPart(c, q, v).ok ==> Collects(before, all + [part], AddPart(c, q, v).tools)
    ensures AddPart(c, q, v).ok ==> AddPart(c, q, v).semantic == (q.semantic || |part.text| > 0)
  {
    hide PartSays, AddPart, Mentions, TextAt, CallId;
    PartAccepted(c, q, v, part);
    assert part.index in q.tools <==> part.index in before || Mentions(all, part.index);
    if AddPart(c, q, v).ok {
      CollectsMore(before, all, q.tools, part, AddPart(c, q, v).tools);
    }
  }

  /** For any calls held before: a list of parts is accepted exactly when each is well formed and in its place. Then the
      arguments held at each index are those held before, followed by the texts of the parts of that index from left to right;
      id and name are those of the part that introduced the call. */
  lemma PartsExact(c: Config, p: Parts, items: seq<Json>)
    requires p.ok
    ensures AddParts(c, p, items).ok <==> exists parts :: PartsSay(c, items, parts) && AllInPlace(p.tools, parts)
    ensures forall parts | PartsSay(c, items, parts) && AllInPlace(p.tools, parts) ::
              Collects(p.tools, parts, AddParts(c, p, items).tools)
  {
    hide PartSays, AddPart, InPlace, Collects, AllInPlace, PartsSay, AddParts;
    CollectsNothing(p.tools);
    if AddParts(c, p, items).ok {
      var parts := OnlyGoodParts(c, p, items);
      PartsCollect(c, p.tools, [], p, items, parts);
      assert [] + parts == parts;
    }
    forall parts | PartsSay(c, items, parts) && AllInPlace(p.tools, parts)
      ensures AddParts(c, p, items).ok && Collects(p.tools, parts, AddParts(c, p, items).tools)
    {
      PartsCollect(c, p.tools, [], p, items, parts);
      assert [] + parts == parts;
    }
  }
}
