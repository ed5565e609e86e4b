/** What the printer writes (`experiments/inference-boundary/json.ts:58-65`): nothing shorter spells the value, no half of a
    surrogate pair is written, and the names of every object stand in the order of their code units. */
module JsonCanonical {
  import opened Text
  import opened Json
  import opened JsonRoundTrip
  import opened JsonTheorems
  import opened JsonGrammar

  // ---- order ----

  /** The first difference decides; a text comes after its own beginnings. */
  ghost predicate ComesBefore(a: Chars, b: Chars) {
    || (|a| < |b| && a == b[..|a|])
    || exists i :: DiffersAt(a, b, i) && a[i] < b[i]
  }

  predicate DiffersAt(a: Chars, b: Chars, i: int) { 0 <= i < |a| && i < |b| && a[i] != b[i] && a[..i] == b[..i] }

  lemma {:induction false} BeforeExact(a: Chars, b: Chars)
    ensures KeyBefore(a, b) <==> ComesBefore(a, b)
  {
    if |a| > 0 && |b| > 0 {
      if a[0] == b[0] {
        BeforeExact(a[1..], b[1..]);
        assert a == [a[0]] + a[1..] && b == [b[0]] + b[1..];
        if i :| DiffersAt(a[1..], b[1..], i) && a[1..][i] < b[1..][i] {
          assert a[..i + 1] == [a[0]] + a[1..][..i] && b[..i + 1] == [b[0]] + b[1..][..i];
          assert DiffersAt(a, b, i + 1);
        }
        if i :| DiffersAt(a, b, i) && a[i] < b[i] {
          assert a[1..][..i - 1] == a[..i][1..] && b[1..][..i - 1] == b[..i][1..];
          assert DiffersAt(a[1..], b[1..], i - 1);
        }
        if |a| < |b| && a == b[..|a|] {
          assert a[1..] == b[1..][..|a| - 1];
        }
        if |a| < |b| && a[1..] == b[1..][..|a| - 1] {
          assert a == b[..|a|];
        }
      } else if a[0] < b[0] {
        assert DiffersAt(a, b, 0);
      }
    }
  }

  ghost predicate NamesInOrder(members: seq<Member>) {
    forall i, k | 0 <= i < k < |members| :: ComesBefore(members[i].key, members[k].key)
  }

  /** At every depth. */
  ghost predicate InOrder(v: Json)
    decreases v
  {
    match v
    case Arr(items) => forall i | 0 <= i < |items| :: InOrder(items[i])
    case Obj(members) => NamesInOrder(members) && forall i | 0 <= i < |members| :: InOrder(members[i].value)
    case _ => true
  }

  lemma AscendingInOrder(members: seq<Member>)
    requires Ascending(members)
    ensures NamesInOrder(members)
  {
    hide KeyBefore, ComesBefore;
    forall i, k | 0 <= i < k < |members| ensures ComesBefore(members[i].key, members[k].key) {
      BeforeExact(members[i].key, members[k].key);
    }
  }

  /** The value that the canonical text reads as has its names in order everywhere. */
  lemma {:induction false} CanonicalInOrder(v: Json)
    requires Distinct(v)
    ensures InOrder(Sorted(v))
  {
    hide NamesInOrder, SortMembers, SortedValues, SortedItems, Named;
    DistinctParts(v);
    match v
    case Arr(items) =>
      SortedItemsAre(items);
      forall i | 0 <= i < |items| ensures InOrder(SortedItems(items)[i]) {
        CanonicalInOrder(items[i]);
      }
    case Obj(members) =>
      SortedObject(members);
      SortedValuesAre(members);
      var sorted := SortMembers(SortedValues(members));
      AscendingInOrder(sorted);
      forall i | 0 <= i < |sorted| ensures InOrder(sorted[i].value) {
        assert sorted[i] in sorted;
        var k :| 0 <= k < |members| && SortedValues(members)[k] == sorted[i];
        CanonicalInOrder(members[k].value);
      }
    case _ =>
  }

  // ---- nothing shorter ----

  /** Without lone halves of surrogate pairs. */
  predicate Paired(s: Chars) {
    || |s| == 0
    || (|s| >= 2 && High(s[0]) && Low(s[1]) && Paired(s[2..]))
    || (!High(s[0]) && !Low(s[0]) && Paired(s[1..]))
  }

  predicate AllPaired(v: Json)
    decreases v
  {
    match v
    case Str(s) => Paired(s)
    case Arr(items) => forall i | 0 <= i < |items| :: AllPaired(items[i])
    case Obj(members) => forall i | 0 <= i < |members| :: Paired(members[i].key) && AllPaired(members[i].value)
    case _ => true
  }

  /** Whatever the string, what is printed has no lone halves. */
  lemma {:induction false} EscapePaired(s: Chars)
    ensures Paired(Escape(s))
  {
    if |s| == 0 {
    } else if |s| >= 2 && High(s[0]) && Low(s[1]) {
      EscapePaired(s[2..]);
      assert Escape(s)[2..] == Escape(s[2..]);
    } else {
      EscapePaired(s[1..]);
      UnitPaired(s[0]);
      PairedBoth(EscapeUnit(s[0]), Escape(s[1..]));
    }
  }

  lemma UnitPaired(u: Unit)
    ensures forall i | 0 <= i < |EscapeUnit(u)| :: !High(EscapeUnit(u)[i]) && !Low(EscapeUnit(u)[i])
  {
  }

  lemma {:induction false} PairedBoth(a: Chars, b: Chars)
    requires Paired(b) && forall i | 0 <= i < |a| :: !High(a[i]) && !Low(a[i])
    ensures Paired(a + b)
  {
    if |a| == 0 {
      assert a + b == b;
    } else {
      PairedBoth(a[1..], b);
      assert (a + b)[1..] == a[1..] + b;
    }
  }

  lemma ShortUnit(t: Chars, u: Unit)
    requires UnitSpelt(t, u) && !High(u) && !Low(u)
    ensures |EscapeUnit(u)| <= |t|
  {
    hide HexSpelt, HexUnit;
    if HexSpelt(t, u) {
      HexIsLong(t, u);
    }
  }

  lemma {:induction false} ShortInside(t: Chars, s: Chars)
    requires InsideSpelt(t, s) && Paired(s)
    ensures |Escape(s)| <= |t|
    decreases |s|
  {
    hide UnitSpelt, EscapeUnit;
    if |s| > 0 {
      var n :| FirstUnitAt(t, n, s[0]) && InsideSpelt(t[n..], s[1..]);
      if |s| >= 2 && High(s[0]) && Low(s[1]) {
        var k :| FirstUnitAt(t[n..], k, s[1..][0]) && InsideSpelt(t[n..][k..], s[1..][1..]);
        assert s[1..][1..] == s[2..];
        ShortInside(t[n..][k..], s[2..]);
      } else {
        ShortUnit(t[..n], s[0]);
        ShortInside(t[n..], s[1..]);
      }
    }
  }

  lemma ShortString(t: Chars, s: Chars)
    requires StringSpelt(t, s) && Paired(s)
    ensures |Quote(s)| <= |t|
  {
    hide InsideSpelt, Escape;
    ShortInside(t[1..|t| - 1], s);
  }

  lemma {:induction false} ShortValue(t: Chars, v: Json)
    requires Spelt(t, v) && AllPaired(v)
    ensures |Print(v)| <= |t|
    decreases v, 0
  {
    hide StringSpelt, ListSpelt, MembersSpelt, NumberSpelt, Quote, PrintItems, PrintMembers;
    Words();
    match v
    case Str(s) => ShortString(t, s);
    case Arr(items) => ShortItems(t[1..|t| - 1], items);
    case Obj(members) => ShortMembers(t[1..|t| - 1], members);
    case _ =>
  }

  lemma {:induction false} ShortPadded(t: Chars, v: Json)
    requires Padded(t, v) && AllPaired(v)
    ensures |Print(v)| <= |t|
    decreases v, 1
  {
    hide Spelt, Print, AllPaired;
    var a, b :| PadAt(t, a, b) && Spelt(t[a..b], v);
    ShortValue(t[a..b], v);
  }

  lemma {:induction false} ShortItems(t: Chars, items: seq<Json>)
    requires ListSpelt(t, items) && forall i | 0 <= i < |items| :: AllPaired(items[i])
    ensures |PrintItems(items)| <= |t|
    decreases items, 0
  {
    hide Padded, Print, AllPaired;
    if |items| == 1 {
      ShortPadded(t, items[0]);
    } else if |items| > 1 {
      var n :| CommaAt(t, n) && Padded(t[..n], items[0]) && ListSpelt(t[n + 1..], items[1..]);
      ShortPadded(t[..n], items[0]);
      ShortItems(t[n + 1..], items[1..]);
    }
  }

  lemma {:induction false} ShortMember(t: Chars, member: Member)
    requires MemberSpelt(t, member) && Paired(member.key) && AllPaired(member.value)
    ensures |PrintMember(member)| <= |t|
    decreases member, 2
  {
    hide StringSpelt, Padded, Print, Quote, AllPaired, Paired;
    var a, b, n :| ColonAt(t, a, b, n) && StringSpelt(t[a..b], member.key) && Padded(t[n + 1..], member.value);
    ShortString(t[a..b], member.key);
    ShortPadded(t[n + 1..], member.value);
  }

  lemma {:induction false} ShortMembers(t: Chars, members: seq<Member>)
    requires MembersSpelt(t, members) && forall i | 0 <= i < |members| :: Paired(members[i].key) && AllPaired(members[i].value)
    ensures |PrintMembers(members)| <= |t|
    decreases members, 0
  {
    hide MemberSpelt, PrintMember, AllPaired, Paired;
    if |members| == 1 {
      ShortMember(t, members[0]);
    } else if |members| > 1 {
      var n :| CommaAt(t, n) && MemberSpelt(t[..n], members[0]) && MembersSpelt(t[n + 1..], members[1..]);
      ShortMember(t[..n], members[0]);
      ShortMembers(t[n + 1..], members[1..]);
    }
  }

  /** No text that reads as the value is shorter than its print, unless the value has lone halves of surrogate pairs, which are
      written as escapes. */
  lemma PrintIsShortest(t: Chars, v: Json, m: Mode)
    requires Parse(t, m) == Some(v) && AllPaired(v)
    ensures |Print(v)| <= |t|
  {
    hide Parse, Padded, Print, AllPaired, Fits;
    ParseExact(t, v, m);
    ShortPadded(t, v);
  }

  /** What a string is printed as: always without lone halves, and read back as the string. */
  lemma QuoteExact(s: Chars)
    ensures StringSpelt(Quote(s), s) && Paired(Quote(s))
  {
    hide Escape, ParseString;
    EscapePaired(s);
    PairedBoth([QUOTE], Escape(s) + [QUOTE]) by {
      PairedThen(Escape(s));
    }
    assert [QUOTE] + (Escape(s) + [QUOTE]) == Quote(s);
    EscapedReads(s);
    assert Quote(s)[1..|Quote(s)| - 1] == Escape(s);
    InsideExact(Escape(s), s);
  }

  lemma {:induction false} PairedThen(a: Chars)
    requires Paired(a)
    ensures Paired(a + [QUOTE])
  {
    var t := a + [QUOTE];
    if |a| == 0 {
      assert t == [QUOTE] && t[1..] == [];
    } else if |a| >= 2 && High(a[0]) && Low(a[1]) && Paired(a[2..]) {
      PairedThen(a[2..]);
      assert t[2..] == a[2..] + [QUOTE];
    } else {
      PairedThen(a[1..]);
      assert t[1..] == a[1..] + [QUOTE];
    }
  }
}
