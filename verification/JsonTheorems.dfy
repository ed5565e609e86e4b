/** The laws of the reader and the canonical printer. */
module JsonTheorems {
  import opened Text
  import opened Json
  import opened JsonRoundTrip

  // ---- round trip ----

  /** What `JSON.stringify` or `canonical` writes for a value is read back as that value. */
  lemma RoundTrip(v: Json, m: Mode)
    requires Fits(v, 0, m)
    ensures Parse(Print(v), m) == Some(v)
  {
    hide Fits, Print, ParseValue;
    assert Print(v) + [] == Print(v);
    PrintedReads(v, [], 0, m);
  }

  // ---- exactly the values that fit are ever returned ----

  lemma {:induction false} ParsedFits(t: Chars, depth: nat, m: Mode)
    ensures ParseValue(t, depth, m).Done? ==> Fits(ParseValue(t, depth, m).value, depth, m)
    decreases |t|, 0
  {
    hide ParseString, ParseItems, ParseMembers, ParseLiteral;
    var u := SkipSpace(t);
    if depth <= m.limit && |u| > 0 {
      if Starts(u, OPEN_OBJECT) {
        var first := SkipSpace(u[1..]);
        if !Starts(first, CLOSE_OBJECT) && ParseMembers(first, depth, {}, m).Done? {
          ParsedMembersFit(first, depth, {}, m);
          ObjectFits(ParseMembers(first, depth, {}, m).value, depth, m);
        }
      } else if Starts(u, OPEN_ARRAY) {
        var first := SkipSpace(u[1..]);
        if !Starts(first, CLOSE_ARRAY) && ParseItems(first, depth, m).Done? {
          ParsedItemsFit(first, depth, m);
          ArrayFits(ParseItems(first, depth, m).value, depth, m);
        }
      } else {
        LiteralFits(u, depth, m);
      }
    } else if depth <= m.limit {
      NothingIsLiteral(m);
    }
  }

  lemma NothingIsLiteral(m: Mode)
    ensures ParseLiteral([], m) == Bad
  {
  }

  lemma LiteralFits(t: Chars, depth: nat, m: Mode)
    requires depth <= m.limit
    ensures ParseLiteral(t, m).Done? ==> Fits(ParseLiteral(t, m).value, depth, m)
  {
    hide Digits, MatchNumber;
    if MatchNumber(t).Some? {
      MatchedIsNumber(t);
    }
  }

  lemma {:induction false} DigitsAgain(t: Chars, n: nat)
    requires Digits(t) <= n <= |t|
    ensures Digits(t[..n]) == Digits(t)
  {
    if Digits(t) > 0 {
      assert t[..n][1..] == t[1..][..n - 1];
      DigitsAgain(t[1..], n - 1);
    }
  }

  lemma WholeAgain(t: Chars, n: nat)
    requires WholePart(t).Some? && WholePart(t).value <= n <= |t|
    ensures WholePart(t[..n]) == WholePart(t)
  {
    assert t[..n][1..] == t[1..][..n - 1];
    if t[0] != 48 {
      DigitsAgain(t[1..], n - 1);
    }
  }

  lemma FractionAgain(t: Chars, n: nat)
    requires FractionPart(t) <= n <= |t|
    ensures FractionPart(t[..n]) == FractionPart(t)
  {
    if FractionPart(t) > 0 {
      assert t[..n][2..] == t[2..][..n - 2];
      DigitsAgain(t[2..], n - 2);
    }
  }

  lemma ExponentAgain(t: Chars)
    ensures ExponentPart(t[..ExponentPart(t)]) == ExponentPart(t)
  {
    var n := ExponentPart(t);
    if n > 0 {
      var sign := if |t| >= 2 && (t[1] == PLUS || t[1] == MINUS) then 1 else 0;
      assert t[..n][2 + sign..] == t[2 + sign..][..n - 2 - sign];
      DigitsAgain(t[2 + sign..], n - 2 - sign);
    }
  }

  /** What the number pattern matched, it matches alone. */
  lemma MatchedIsNumber(t: Chars)
    requires MatchNumber(t).Some?
    ensures IsNumber(t[..MatchNumber(t).value])
  {
    hide WholePart, FractionPart, ExponentPart;
    var n := MatchNumber(t).value;
    var sign := if |t| > 0 && t[0] == MINUS then 1 else 0;
    var point := sign + WholePart(t[sign..]).value;
    var mark := point + FractionPart(t[point..]);
    CutBoth(t, n, sign);
    WholeAgain(t[sign..], n - sign);
    CutBoth(t, n, point);
    FractionAgain(t[point..], n - point);
    CutBoth(t, n, mark);
    ExponentAgain(t[mark..]);
  }

  lemma CutBoth(t: Chars, n: nat, k: nat)
    requires k <= n <= |t|
    ensures t[..n][k..] == t[k..][..n - k]
  {
  }

  lemma {:induction false} ParsedItemsFit(t: Chars, depth: nat, m: Mode)
    ensures ParseItems(t, depth, m).Done? ==> ItemsFit(ParseItems(t, depth, m).value, depth + 1, m) && |ParseItems(t, depth, m).value| > 0
    decreases |t|, 1
  {
    hide ParseValue, Fits;
    ParsedFits(t, depth + 1, m);
    var v := ParseValue(t, depth + 1, m);
    if v.Done? && Starts(SkipSpace(v.rest), COMMA) {
      ParsedItemsFit(SkipSpace(v.rest)[1..], depth, m);
    }
  }

  lemma {:induction false} ArrayFits(items: seq<Json>, depth: nat, m: Mode)
    requires |items| > 0 && ItemsFit(items, depth + 1, m)
    ensures Fits(Arr(items), depth, m)
  {
    ItemsHigh(items, depth, m);
  }

  lemma {:induction false} ItemsHigh(items: seq<Json>, depth: nat, m: Mode)
    requires |items| > 0 && ItemsFit(items, depth + 1, m)
    ensures depth + ItemsHeight(items) <= m.limit
  {
    hide Named, Numeric;
    assert Fits(items[0], depth + 1, m);
    if |items| > 1 {
      ItemsHigh(items[1..], depth, m);
    }
  }

  lemma {:induction false} ParsedMembersFit(t: Chars, depth: nat, seen: set<Chars>, m: Mode)
    ensures ParseMembers(t, depth, seen, m).Done? ==>
              MembersFit(ParseMembers(t, depth, seen, m).value, depth + 1, seen, m) && |ParseMembers(t, depth, seen, m).value| > 0
    decreases |t|, 2
  {
    hide ParseMember, Fits;
    ParsedMemberFits(t, depth, seen, m);
    var first := ParseMember(t, depth, seen, m);
    if first.Done? && Starts(first.rest, COMMA) {
      ParsedMembersFit(first.rest[1..], depth, seen + {first.value.key}, m);
    }
  }

  lemma {:induction false} ParsedMemberFits(t: Chars, depth: nat, seen: set<Chars>, m: Mode)
    ensures var r := ParseMember(t, depth, seen, m);
            r.Done? ==> Fits(r.value.value, depth + 1, m) && !NameRefused(r.value.key, seen, m)
    decreases |t|, 1
  {
    hide ParseValue, Fits, ParseName;
    var key := ParseName(t, seen, m);
    if key.Done? {
      ParsedFits(key.rest, depth + 1, m);
    }
  }

  lemma {:induction false} ObjectFits(members: seq<Member>, depth: nat, m: Mode)
    requires |members| > 0 && MembersFit(members, depth + 1, {}, m)
    ensures Fits(Obj(members), depth, m)
  {
    forall i | 0 <= i < |members| ensures Fits(members[i].value, depth + 1, m) {}
    MembersHigh(members, depth, m);
  }

  lemma {:induction false} MembersHigh(members: seq<Member>, depth: nat, m: Mode)
    requires |members| > 0 && forall i | 0 <= i < |members| :: Fits(members[i].value, depth + 1, m)
    ensures depth + MembersHeight(members) <= m.limit
  {
    hide Named, Numeric;
    assert Fits(members[0].value, depth + 1, m);
    if |members| > 1 {
      MembersHigh(members[1..], depth, m);
    }
  }

  /** A value is the reading of some text exactly when it nests at most to the limit, its numbers are finite, and at every
      depth its names are admissible: in `parseJSON`, distinct and not reserved. */
  lemma Readable(v: Json, m: Mode)
    ensures (exists t :: Parse(t, m) == Some(v)) <==> Fits(v, 0, m)
  {
    hide Fits, ParseValue;
    if t :| Parse(t, m) == Some(v) {
      ParsedFits(t, 0, m);
    }
    if Fits(v, 0, m) {
      RoundTrip(v, m);
    }
  }

  // ---- strict against lenient ----

  /** A reader that lets every name through. */
  function Lenient(m: Mode): Mode { m.(reserved := true, repeats := true) }

  predicate MembersNamed(members: seq<Member>, seen: set<Chars>, m: Mode) {
    && (m.repeats || DistinctNames(members)) && (m.reserved || Unreserved(members))
    && (forall i | 0 <= i < |members| :: Named(members[i].value, m) && (m.repeats || members[i].key !in seen))
  }

  predicate AllNamed(items: seq<Json>, m: Mode) {
    forall i | 0 <= i < |items| :: Named(items[i], m)
  }

  lemma {:induction false} StrictValue(t: Chars, depth: nat, m: Mode)
    ensures var loose := ParseValue(t, depth, Lenient(m));
            ParseValue(t, depth, m) == if loose.Done? && Named(loose.value, m) then loose else Bad
    decreases |t|, 0
  {
    hide ParseString, ParseItems, ParseMembers, MatchNumber, DistinctNames, Unreserved;
    var u := SkipSpace(t);
    if |u| > 0 && depth <= m.limit {
      var first := SkipSpace(u[1..]);
      if Starts(u, OPEN_OBJECT) && !Starts(first, CLOSE_OBJECT) {
        StrictMembers(first, depth, {}, {}, m);
      } else if Starts(u, OPEN_ARRAY) && !Starts(first, CLOSE_ARRAY) {
        StrictItems(first, depth, m);
      } else if Starts(u, OPEN_OBJECT) {
        NoNames(m);
      }
    }
  }

  lemma NoNames(m: Mode)
    ensures Named(Obj([]), m)
  {
  }

  lemma {:induction false} StrictItems(t: Chars, depth: nat, m: Mode)
    ensures var loose := ParseItems(t, depth, Lenient(m));
            ParseItems(t, depth, m) == if loose.Done? && AllNamed(loose.value, m) then loose else Bad
    decreases |t|, 1
  {
    hide ParseValue, Named;
    StrictValue(t, depth + 1, m);
    var v := ParseValue(t, depth + 1, Lenient(m));
    if v.Done? {
      NamedItems(v.value, [], m);
      assert [v.value] + [] == [v.value];
    }
    if v.Done? && Starts(SkipSpace(v.rest), COMMA) {
      var more := SkipSpace(v.rest)[1..];
      StrictItems(more, depth, m);
      if ParseItems(more, depth, Lenient(m)).Done? {
        NamedItems(v.value, ParseItems(more, depth, Lenient(m)).value, m);
      }
    }
  }

  lemma NamedItems(first: Json, more: seq<Json>, m: Mode)
    ensures AllNamed([first] + more, m) <==> Named(first, m) && AllNamed(more, m)
  {
    hide Named;
    var all := [first] + more;
    assert all[0] == first;
    assert forall i | 0 <= i < |more| :: more[i] == all[i + 1];
  }

  lemma {:induction false} StrictMember(t: Chars, depth: nat, seen: set<Chars>, loosely: set<Chars>, m: Mode)
    ensures var loose := ParseMember(t, depth, loosely, Lenient(m));
            ParseMember(t, depth, seen, m) ==
              if loose.Done? && Named(loose.value.value, m) && !NameRefused(loose.value.key, seen, m) then loose else Bad
    decreases |t|, 1
  {
    hide ParseValue, Named, ParseName;
    StrictName(t, seen, loosely, m);
    var key := ParseName(t, loosely, Lenient(m));
    if key.Done? {
      StrictValue(key.rest, depth + 1, m);
    }
  }

  lemma StrictName(t: Chars, seen: set<Chars>, loosely: set<Chars>, m: Mode)
    ensures var loose := ParseName(t, loosely, Lenient(m));
            ParseName(t, seen, m) == if loose.Done? && !NameRefused(loose.value, seen, m) then loose else Bad
  {
    hide ParseString, SkipSpace;
  }

  lemma {:induction false} StrictMembers(t: Chars, depth: nat, seen: set<Chars>, loosely: set<Chars>, m: Mode)
    ensures var loose := ParseMembers(t, depth, loosely, Lenient(m));
            ParseMembers(t, depth, seen, m) == if loose.Done? && MembersNamed(loose.value, seen, m) then loose else Bad
    decreases |t|, 2
  {
    hide ParseMember, Named, MembersNamed, NameRefused;
    StrictMember(t, depth, seen, loosely, m);
    var first := ParseMember(t, depth, loosely, Lenient(m));
    if first.Done? {
      OneNamed(first.value, seen, m);
      if Starts(first.rest, COMMA) && !Starts(first.rest, CLOSE_OBJECT) {
        var names := seen + {first.value.key};
        StrictMembers(first.rest[1..], depth, names, loosely + {first.value.key}, m);
        var more := ParseMembers(first.rest[1..], depth, loosely + {first.value.key}, Lenient(m));
        if more.Done? {
          NamedMembers(first.value, more.value, seen, m);
        }
      }
    }
  }

  lemma OneNamed(first: Member, seen: set<Chars>, m: Mode)
    ensures MembersNamed([first], seen, m) <==> Named(first.value, m) && !NameRefused(first.key, seen, m)
  {
    hide Named;
    assert [first][0] == first;
  }

  lemma NamedMembers(first: Member, more: seq<Member>, seen: set<Chars>, m: Mode)
    ensures MembersNamed([first] + more, seen, m) <==>
            Named(first.value, m) && !NameRefused(first.key, seen, m) && MembersNamed(more, seen + {first.key}, m)
  {
    hide Named;
    var all := [first] + more;
    assert all[0] == first;
    assert forall i | 0 <= i < |more| :: more[i] == all[i + 1];
    assert forall i | 1 <= i < |all| :: all[i] == more[i - 1];
  }

  /** The strict reader accepts exactly what the lenient one accepts with distinct, unreserved names at every depth, and
      reads the same value: any repeated name, at any depth and however it is escaped, is refused. */
  lemma StrictIsLenientAndNamed(t: Chars, m: Mode)
    ensures Parse(t, m) == match Parse(t, Lenient(m))
                           case None => None
                           case Some(v) => if Named(v, m) then Some(v) else None
  {
    hide ParseValue, Named;
    StrictValue(t, 0, m);
  }

  // ---- canonical form ----

  lemma {:induction false} BeforeSelf(a: Chars)
    ensures !KeyBefore(a, a)
  {
    if |a| > 0 {
      BeforeSelf(a[1..]);
    }
  }

  lemma {:induction false} BeforeTransitive(a: Chars, b: Chars, c: Chars)
    requires KeyBefore(a, b) && KeyBefore(b, c)
    ensures KeyBefore(a, c)
  {
    if |a| > 0 && a[0] == b[0] && b[0] == c[0] {
      BeforeTransitive(a[1..], b[1..], c[1..]);
    }
  }

  lemma {:induction false} BeforeTotal(a: Chars, b: Chars)
    ensures KeyBefore(a, b) || KeyBefore(b, a) || a == b
  {
    if |a| > 0 && |b| > 0 && a[0] == b[0] {
      BeforeTotal(a[1..], b[1..]);
      assert a == [a[0]] + a[1..] && b == [b[0]] + b[1..];
    }
  }

  predicate Ascending(ms: seq<Member>) {
    forall i, k | 0 <= i < k < |ms| :: KeyBefore(ms[i].key, ms[k].key)
  }

  lemma {:induction false} Inserted(m: Member, ms: seq<Member>)
    ensures multiset(InsertMember(m, ms)) == multiset(ms) + multiset{m}
    ensures Ascending(ms) && (forall i | 0 <= i < |ms| :: ms[i].key != m.key) ==> Ascending(InsertMember(m, ms))
  {
    hide KeyBefore;
    if |ms| == 0 {
    } else if KeyBefore(m.key, ms[0].key) {
      if Ascending(ms) {
        forall k | 0 <= k < |ms| ensures KeyBefore(m.key, ms[k].key) {
          if k > 0 {
            BeforeTransitive(m.key, ms[0].key, ms[k].key);
          }
        }
      }
    } else {
      Inserted(m, ms[1..]);
      assert ms == [ms[0]] + ms[1..];
      if Ascending(ms) && forall i | 0 <= i < |ms| :: ms[i].key != m.key {
        BeforeTotal(m.key, ms[0].key);
        var rest := InsertMember(m, ms[1..]);
        forall k | 0 <= k < |rest| ensures KeyBefore(ms[0].key, rest[k].key) {
          assert rest[k] in multiset(rest);
          if rest[k] != m {
            assert rest[k] in ms[1..];
          }
        }
        assert Ascending(rest);
      }
    }
  }

  lemma {:induction false} SortedMembers(ms: seq<Member>)
    ensures multiset(SortMembers(ms)) == multiset(ms)
    ensures DistinctNames(ms) ==> Ascending(SortMembers(ms))
  {
    hide InsertMember, Ascending, KeyBefore;
    if |ms| == 0 {
      NothingAscends();
    } else {
      SortedMembers(ms[1..]);
      Inserted(ms[0], SortMembers(ms[1..]));
      assert ms == [ms[0]] + ms[1..];
      if DistinctNames(ms) {
        var rest := SortMembers(ms[1..]);
        SameMembers(rest, ms[1..]);
        forall i | 0 <= i < |rest| ensures rest[i].key != ms[0].key {
          assert rest[i] in ms[1..];
        }
      }
    }
  }

  lemma NothingAscends()
    ensures Ascending([])
  {
  }

  lemma SameMembers(s: seq<Member>, t: seq<Member>)
    requires multiset(s) == multiset(t)
    ensures forall x :: x in s <==> x in t
  {
    assert forall x :: x in s <==> x in multiset(s);
    assert forall x :: x in t <==> x in multiset(t);
  }

  lemma AscendingDistinct(ms: seq<Member>)
    requires Ascending(ms)
    ensures DistinctNames(ms)
  {
    hide KeyBefore;
    forall i, k | 0 <= i < k < |ms| ensures ms[i].key != ms[k].key {
      BeforeSelf(ms[i].key);
    }
  }

  /** Two ascending lists with the same members are the same list. */
  lemma {:induction false} AscendingAgree(s: seq<Member>, t: seq<Member>)
    requires Ascending(s) && Ascending(t) && forall x :: x in s <==> x in t
    ensures s == t
  {
    hide KeyBefore;
    SomeInBoth(s, t);
    SomeInBoth(t, s);
    if |s| > 0 && |t| > 0 {
      FirstAgrees(s, t);
      AscendingDistinct(s);
      AscendingDistinct(t);
      assert s == [s[0]] + s[1..] && t == [t[0]] + t[1..];
      forall x ensures x in s[1..] <==> x in t[1..] {
        assert x in s[1..] ==> x in s && x != s[0];
        assert x in t[1..] ==> x in t && x != t[0];
      }
      AscendingAgree(s[1..], t[1..]);
    }
  }

  lemma SomeInBoth(s: seq<Member>, t: seq<Member>)
    requires forall x :: x in s ==> x in t
    ensures |s| > 0 ==> |t| > 0
  {
    if |s| > 0 {
      assert s[0] in t;
    }
  }

  lemma FirstAgrees(s: seq<Member>, t: seq<Member>)
    requires Ascending(s) && Ascending(t) && |s| > 0 && |t| > 0 && forall x :: x in s <==> x in t
    ensures s[0] == t[0]
  {
    hide KeyBefore;
    assert s[0] in t && t[0] in s;
    var i :| 0 <= i < |t| && t[i] == s[0];
    var k :| 0 <= k < |s| && s[k] == t[0];
    if i > 0 && k > 0 {
      BeforeTransitive(s[0].key, t[0].key, s[0].key);
      BeforeSelf(s[0].key);
    }
  }

  lemma {:induction false} FieldsAre(ms: seq<Member>)
    requires DistinctNames(ms)
    ensures forall i | 0 <= i < |ms| :: ms[i].key in Fields(ms) && Fields(ms)[ms[i].key] == Meaning(ms[i].value)
    ensures forall k | k in Fields(ms) :: HasKey(ms, k)
  {
    hide Meaning;
    if |ms| > 0 {
      FieldsAre(ms[1..]);
      assert forall i | 1 <= i < |ms| :: ms[i] == ms[1..][i - 1];
      forall k | k in Fields(ms) ensures HasKey(ms, k) {
        if k != ms[0].key {
          assert HasKey(ms[1..], k);
        }
      }
    }
  }

  predicate HasKey(ms: seq<Member>, k: Chars) {
    exists i :: 0 <= i < |ms| && ms[i].key == k
  }

  /** The fields of an object do not depend on the order of its members. */
  lemma FieldsUnordered(s: seq<Member>, t: seq<Member>)
    requires DistinctNames(s) && DistinctNames(t) && forall x :: x in s <==> x in t
    ensures Fields(s) == Fields(t)
  {
    hide Fields, Meaning;
    FieldsAre(s);
    FieldsAre(t);
    FieldsWithin(s, t);
    FieldsWithin(t, s);
  }

  lemma FieldsWithin(s: seq<Member>, t: seq<Member>)
    requires DistinctNames(s) && DistinctNames(t) && forall x | x in s :: x in t
    ensures forall k | k in Fields(s) :: k in Fields(t) && Fields(t)[k] == Fields(s)[k]
  {
    hide Fields, Meaning;
    FieldsAre(s);
    FieldsAre(t);
    forall k | k in Fields(s) ensures k in Fields(t) && Fields(t)[k] == Fields(s)[k] {
      assert HasKey(s, k);
      var i :| 0 <= i < |s| && s[i].key == k;
      assert s[i] in t;
      var n :| 0 <= n < |t| && t[n] == s[i];
    }
  }

  lemma {:induction false} SortedValuesAre(ms: seq<Member>)
    ensures |SortedValues(ms)| == |ms|
    ensures forall i | 0 <= i < |ms| :: SortedValues(ms)[i] == Member(ms[i].key, Sorted(ms[i].value))
  {
    hide Sorted;
    if |ms| > 0 {
      SortedValuesAre(ms[1..]);
    }
  }

  lemma {:induction false} SortedItemsAre(items: seq<Json>)
    ensures |SortedItems(items)| == |items|
    ensures forall i | 0 <= i < |items| :: SortedItems(items)[i] == Sorted(items[i])
  {
    hide Sorted;
    if |items| > 0 {
      SortedItemsAre(items[1..]);
    }
  }

  lemma {:induction false} ItemMeaningsAre(items: seq<Json>)
    ensures |ItemMeanings(items)| == |items|
    ensures forall i | 0 <= i < |items| :: ItemMeanings(items)[i] == Meaning(items[i])
  {
    hide Meaning;
    if |items| > 0 {
      ItemMeaningsAre(items[1..]);
    }
  }

  /** No repeated name at any depth, as in every value of the program. */
  predicate Distinct(v: Json) { Named(v, Mode(true, false, 0, _ => true)) }

  lemma DistinctParts(v: Json)
    requires Distinct(v)
    ensures v.Arr? ==> forall i | 0 <= i < |v.items| :: Distinct(v.items[i])
    ensures v.Obj? ==> DistinctNames(v.members) && forall i | 0 <= i < |v.members| :: Distinct(v.members[i].value)
  {
  }

  lemma SortedObject(ms: seq<Member>)
    requires DistinctNames(ms)
    ensures DistinctNames(SortedValues(ms)) && Ascending(SortMembers(SortedValues(ms)))
    ensures forall x :: x in SortMembers(SortedValues(ms)) <==> x in SortedValues(ms)
    ensures |SortMembers(SortedValues(ms))| == |ms|
  {
    hide SortedValues, SortMembers, KeyBefore;
    SortedValuesAre(ms);
    SortedMembers(SortedValues(ms));
    SameMembers(SortMembers(SortedValues(ms)), SortedValues(ms));
    assert |multiset(SortMembers(SortedValues(ms)))| == |multiset(SortedValues(ms))|;
  }

  lemma {:induction false} SortedMeansSame(v: Json)
    requires Distinct(v)
    ensures Meaning(Sorted(v)) == Meaning(v)
    decreases v
  {
    hide Distinct, SortMembers, SortedValues, SortedItems, ItemMeanings, Fields;
    DistinctParts(v);
    match v
    case Arr(items) =>
      forall i | 0 <= i < |items| ensures Meaning(Sorted(items[i])) == Meaning(items[i]) {
        SortedMeansSame(items[i]);
      }
      SortedItemsAre(items);
      ItemMeaningsAre(items);
      ItemMeaningsAre(SortedItems(items));
      assert ItemMeanings(SortedItems(items)) == ItemMeanings(items);
    case Obj(ms) =>
      forall i | 0 <= i < |ms| ensures Meaning(Sorted(ms[i].value)) == Meaning(ms[i].value) {
        SortedMeansSame(ms[i].value);
      }
      SortedFields(ms);
    case _ =>
  }

  lemma SortedFields(ms: seq<Member>)
    requires DistinctNames(ms) && forall i | 0 <= i < |ms| :: Meaning(Sorted(ms[i].value)) == Meaning(ms[i].value)
    ensures Fields(SortMembers(SortedValues(ms))) == Fields(ms)
  {
    hide SortMembers, SortedValues, Meaning, Sorted;
    SortedObject(ms);
    SortedValuesAre(ms);
    AscendingDistinct(SortMembers(SortedValues(ms)));
    FieldsUnordered(SortMembers(SortedValues(ms)), SortedValues(ms));
    SameFields(ms, SortedValues(ms));
  }

  lemma SameFields(ms: seq<Member>, ns: seq<Member>)
    requires |ns| == |ms| && DistinctNames(ms) && DistinctNames(ns)
    requires forall i | 0 <= i < |ms| :: ns[i].key == ms[i].key && Meaning(ns[i].value) == Meaning(ms[i].value)
    ensures Fields(ns) == Fields(ms)
    decreases |ms|
  {
    hide Meaning;
    if |ms| > 0 {
      SameFields(ms[1..], ns[1..]);
    }
  }

  /** Values that mean the same sort to the same. */
  lemma {:induction false} SameMeaningSortsSame(v: Json, w: Json)
    requires Distinct(v) && Distinct(w) && Meaning(v) == Meaning(w)
    ensures Sorted(v) == Sorted(w)
    decreases v
  {
    hide Distinct, SortMembers, SortedValues, SortedItems, ItemMeanings, Fields;
    DistinctParts(v);
    DistinctParts(w);
    match v
    case Arr(items) =>
      ItemMeaningsAre(items);
      ItemMeaningsAre(w.items);
      SortedItemsAre(items);
      SortedItemsAre(w.items);
      forall i | 0 <= i < |items| ensures Sorted(items[i]) == Sorted(w.items[i]) {
        SameMeaningSortsSame(items[i], w.items[i]);
      }
      assert SortedItems(items) == SortedItems(w.items);
    case Obj(ms) =>
      FieldsAre(ms);
      FieldsAre(w.members);
      forall i, k | 0 <= i < |ms| && 0 <= k < |w.members| && ms[i].key == w.members[k].key
        ensures Sorted(ms[i].value) == Sorted(w.members[k].value)
      {
        SameMeaningSortsSame(ms[i].value, w.members[k].value);
      }
      SortedWithin(ms, w.members);
      SortedWithin(w.members, ms);
      SortedObject(ms);
      SortedObject(w.members);
      AscendingAgree(SortMembers(SortedValues(ms)), SortMembers(SortedValues(w.members)));
    case _ =>
  }

  lemma SortedWithin(ms: seq<Member>, ns: seq<Member>)
    requires DistinctNames(ms) && DistinctNames(ns) && forall k | k in Fields(ms) :: k in Fields(ns)
    requires forall i, k | 0 <= i < |ms| && 0 <= k < |ns| && ms[i].key == ns[k].key :: Sorted(ms[i].value) == Sorted(ns[k].value)
    ensures forall x | x in SortedValues(ms) :: x in SortedValues(ns)
  {
    hide Fields, Sorted, SortedValues, Meaning;
    FieldsAre(ms);
    FieldsAre(ns);
    SortedValuesAre(ms);
    SortedValuesAre(ns);
    forall x | x in SortedValues(ms) ensures x in SortedValues(ns) {
      var i :| 0 <= i < |ms| && SortedValues(ms)[i] == x;
      assert HasKey(ns, ms[i].key);
      var k :| 0 <= k < |ns| && ns[k].key == ms[i].key;
      assert SortedValues(ns)[k] == x;
    }
  }

  // ---- the canonical text ----

  predicate Finite(v: Json, m: Mode) { Numeric(v, m) && Distinct(v) }

  lemma {:induction false} SortedFits(v: Json, depth: nat, m: Mode)
    requires Fits(v, depth, m) && Distinct(v)
    ensures Fits(Sorted(v), depth, m)
    decreases v
  {
    hide Distinct, SortMembers, SortedValues, SortedItems, Fits;
    DistinctParts(v);
    match v
    case Arr(items) =>
      FitItems(items, depth, m);
      SortedItemsAre(items);
      forall i | 0 <= i < |items| ensures Fits(SortedItems(items)[i], depth + 1, m) {
        SortedFits(items[i], depth + 1, m);
      }
      if |items| > 0 {
        ArrayFits(SortedItems(items), depth, m);
      }
    case Obj(ms) =>
      FitMembers(ms, depth, m);
      SortedValuesAre(ms);
      SortedObject(ms);
      forall i | 0 <= i < |ms| ensures Fits(SortedValues(ms)[i].value, depth + 1, m) {
        SortedFits(ms[i].value, depth + 1, m);
      }
      if |ms| > 0 {
        SortedMembersFit(ms, SortMembers(SortedValues(ms)), depth, m);
        ObjectFits(SortMembers(SortedValues(ms)), depth, m);
      }
    case _ =>
  }

  lemma SortedMembersFit(ms: seq<Member>, ns: seq<Member>, depth: nat, m: Mode)
    requires MembersFit(ms, depth + 1, {}, m) && Ascending(ns) && forall x :: x in ns <==> x in SortedValues(ms)
    requires |SortedValues(ms)| == |ms| && forall i | 0 <= i < |ms| :: Fits(SortedValues(ms)[i].value, depth + 1, m)
    ensures MembersFit(ns, depth + 1, {}, m)
  {
    hide Fits, Sorted, SortedValues, KeyBefore;
    SortedValuesAre(ms);
    AscendingDistinct(ns);
    forall i | 0 <= i < |ns| ensures Fits(ns[i].value, depth + 1, m) && (m.reserved || ns[i].key !in RESERVED) {
      assert ns[i] in ns;
      var k :| 0 <= k < |ms| && SortedValues(ms)[k] == ns[i];
    }
  }

  /** `parseJSON` reads the canonical text of a value back: the members come in order of their names, and the value means
      the same. */
  lemma CanonicalReads(v: Json, m: Mode)
    requires Fits(v, 0, m) && !m.repeats
    ensures Parse(Canonical(v), m) == Some(Sorted(v)) && Meaning(Sorted(v)) == Meaning(v)
  {
    hide Fits, Print, ParseValue, Sorted, Meaning;
    FitsDistinct(v, 0, m);
    SortedFits(v, 0, m);
    RoundTrip(Sorted(v), m);
    SortedMeansSame(v);
  }

  lemma FitsDistinct(v: Json, depth: nat, m: Mode)
    requires Fits(v, depth, m) && !m.repeats
    ensures Distinct(v)
  {
    NamedDistinct(v, m);
  }

  lemma {:induction false} NamedDistinct(v: Json, m: Mode)
    requires Named(v, m) && !m.repeats
    ensures Distinct(v)
    decreases v
  {
    match v
    case Arr(items) =>
      forall i | 0 <= i < |items| ensures Distinct(items[i]) {
        NamedDistinct(items[i], m);
      }
    case Obj(ms) =>
      forall i | 0 <= i < |ms| ensures Distinct(ms[i].value) {
        NamedDistinct(ms[i].value, m);
      }
    case _ =>
  }

  /** Two values, however deep, have the same canonical text exactly when they mean the same: the order of members never
      shows, and nothing else is lost. */
  lemma CanonicalSeparates(v: Json, w: Json, m: Mode)
    requires Finite(v, m) && Finite(w, m)
    ensures Canonical(v) == Canonical(w) <==> Meaning(v) == Meaning(w)
  {
    hide Finite, Print, Sorted, Meaning, Distinct;
    var deep := Mode(true, false, Height(v) + Height(w), m.finite);
    FiniteFits(v, deep, m);
    FiniteFits(w, deep, m);
    if Canonical(v) == Canonical(w) {
      CanonicalReads(v, deep);
      CanonicalReads(w, deep);
    }
    if Meaning(v) == Meaning(w) {
      SameMeaningSortsSame(v, w);
    }
  }

  lemma FiniteFits(v: Json, deep: Mode, m: Mode)
    requires Finite(v, m) && deep.reserved && !deep.repeats && deep.finite == m.finite && Height(v) <= deep.limit
    ensures Fits(v, 0, deep) && Distinct(v)
  {
    SameNumbers(v, deep, m);
    DistinctNamed(v, deep);
  }

  lemma {:induction false} SameNumbers(v: Json, deep: Mode, m: Mode)
    requires Numeric(v, m) && deep.finite == m.finite
    ensures Numeric(v, deep)
    decreases v
  {
    hide IsNumber;
    match v
    case Arr(items) =>
      forall i | 0 <= i < |items| ensures Numeric(items[i], deep) {
        SameNumbers(items[i], deep, m);
      }
    case Obj(ms) =>
      forall i | 0 <= i < |ms| ensures Numeric(ms[i].value, deep) {
        SameNumbers(ms[i].value, deep, m);
      }
    case _ =>
  }

  lemma {:induction false} DistinctNamed(v: Json, deep: Mode)
    requires Distinct(v) && deep.reserved
    ensures Named(v, deep)
    decreases v
  {
    match v
    case Arr(items) =>
      forall i | 0 <= i < |items| ensures Named(items[i], deep) {
        DistinctNamed(items[i], deep);
      }
    case Obj(ms) =>
      forall i | 0 <= i < |ms| ensures Named(ms[i].value, deep) {
        DistinctNamed(ms[i].value, deep);
      }
    case _ =>
  }
}
