/** The operator-interval check of `collectDataset` (`experiments/baseline/collect.ts:41-45`): sort by start, then one pass
    with the last interval of each operator. */
module Intervals {
  datatype Interval = Interval(operator: string, start: int, end: int)

  predicate Ordered(s: seq<Interval>) { forall i | 0 <= i < |s| :: s[i].start <= s[i].end }

  predicate Positive(s: seq<Interval>) { forall i | 0 <= i < |s| :: s[i].start < s[i].end }

  /** Half-open overlap, as in lines 52-53. */
  predicate Overlap(a: Interval, b: Interval) {
    (if a.start > b.start then a.start else b.start) < (if a.end < b.end then a.end else b.end)
  }

  predicate Clash(a: Interval, b: Interval) { a.operator == b.operator && Overlap(a, b) }

  /** No two entries of the list clash. */
  predicate Disjoint(s: seq<Interval>) {
    forall i, k | 0 <= i < k < |s| :: !Clash(s[i], s[k])
  }

  // ---- the sort ----

  /** A stable sort: an entry goes after those that start no later. */
  function Insert(x: Interval, s: seq<Interval>): seq<Interval> {
    if |s| == 0 || s[|s| - 1].start <= x.start then s + [x]
    else Insert(x, s[..|s| - 1]) + [s[|s| - 1]]
  }

  function SortByStart(s: seq<Interval>): seq<Interval> {
    if |s| == 0 then [] else Insert(s[|s| - 1], SortByStart(s[..|s| - 1]))
  }

  predicate ByStart(s: seq<Interval>) {
    forall i, k | 0 <= i < k < |s| :: s[i].start <= s[k].start
  }

  lemma LastByStart(s: seq<Interval>, x: Interval)
    requires ByStart(s) && forall i | 0 <= i < |s| :: s[i].start <= x.start
    ensures ByStart(s + [x])
  {
  }

  lemma {:induction false} Inserted(x: Interval, s: seq<Interval>)
    requires ByStart(s)
    ensures ByStart(Insert(x, s)) && multiset(Insert(x, s)) == multiset(s) + multiset{x}
    ensures forall y | y in Insert(x, s) :: y == x || y in s
  {
    if |s| > 0 && s[|s| - 1].start > x.start {
      var init, last := s[..|s| - 1], s[|s| - 1];
      Inserted(x, init);
      assert s == init + [last];
      var rest := Insert(x, init);
      hide Insert;
      forall i | 0 <= i < |rest| ensures rest[i].start <= last.start {
        assert rest[i] in rest;
      }
      LastByStart(rest, last);
      assert multiset(s) == multiset(init) + multiset{last};
    } else {
      LastByStart(s, x);
    }
  }

  lemma {:induction false} Sorted(s: seq<Interval>)
    ensures ByStart(SortByStart(s)) && multiset(SortByStart(s)) == multiset(s)
  {
    if |s| > 0 {
      Sorted(s[..|s| - 1]);
      Inserted(s[|s| - 1], SortByStart(s[..|s| - 1]));
      assert s == s[..|s| - 1] + [s[|s| - 1]];
    }
  }

  // ---- the pass ----

  predicate AfterAt(s: seq<Interval>, i: nat, k: nat) {
    i < k < |s| && s[i].operator == s[k].operator ==> s[i].end <= s[k].start
  }

  /** Each entry starts only when every earlier one of its operator has ended. */
  predicate InTurn(s: seq<Interval>) {
    forall i: nat, k: nat | i < k < |s| :: AfterAt(s, i, k)
  }

  lemma TurnTaken(s: seq<Interval>, n: nat)
    requires n < |s| && InTurn(s[..n])
    requires forall i | 0 <= i < n && s[i].operator == s[n].operator :: s[i].end <= s[n].start
    ensures InTurn(s[..n + 1])
  {
    var all := s[..n + 1];
    forall i: nat, k: nat ensures AfterAt(all, i, k) {
      if k < n {
        assert AfterAt(s[..n], i, k);
      }
    }
  }

  /** Lines 42-45. */
  method Sweep(s: seq<Interval>) returns (ok: bool)
    requires Ordered(s)
    ensures ok <==> InTurn(s)
  {
    var lastByOperator: map<string, Interval> := map[];
    for n := 0 to |s|
      invariant InTurn(s[..n])
      invariant forall i | 0 <= i < n :: s[i].operator in lastByOperator && s[i].end <= lastByOperator[s[i].operator].end
      invariant forall o | o in lastByOperator :: exists i :: 0 <= i < n && s[i] == lastByOperator[o] && s[i].operator == o
    {
      var interval := s[n];
      if interval.operator in lastByOperator && interval.start < lastByOperator[interval.operator].end {
        var i :| 0 <= i < n && s[i] == lastByOperator[interval.operator];
        assert !AfterAt(s, i, n);
        return false;
      }
      ghost var before := lastByOperator;
      lastByOperator := lastByOperator[interval.operator := interval];
      TurnTaken(s, n);
      forall o | o in lastByOperator ensures exists i :: 0 <= i < n + 1 && s[i] == lastByOperator[o] && s[i].operator == o {
        if o == interval.operator {
          assert s[n] == lastByOperator[o];
        } else {
          var i :| 0 <= i < n && s[i] == before[o] && s[i].operator == o;
        }
      }
    }
    assert s[..|s|] == s;
    return true;
  }

  lemma SameOrdered(s: seq<Interval>, t: seq<Interval>)
    requires multiset(s) == multiset(t)
    ensures Ordered(s) ==> Ordered(t)
  {
    forall i | 0 <= i < |t| ensures t[i] in s {
      assert t[i] in multiset(t);
    }
  }

  // ---- against the pairwise definition ----

  /** Of two entries of one operator, the one that the sort puts first ends before the other starts. */
  predicate Parted(earlier: Interval, later: Interval) {
    earlier.operator == later.operator ==>
      if earlier.start <= later.start then earlier.end <= later.start else later.end <= earlier.start
  }

  predicate AllParted(s: seq<Interval>) {
    forall i, k | 0 <= i < k < |s| :: Parted(s[i], s[k])
  }

  lemma InTurnLast(s: seq<Interval>, x: Interval)
    ensures InTurn(s + [x]) <==> InTurn(s) && forall y | y in s && y.operator == x.operator :: y.end <= x.start
  {
    var all := s + [x];
    if InTurn(all) {
      forall i: nat, k: nat | i < k < |s| ensures AfterAt(s, i, k) {
        assert AfterAt(all, i, k);
      }
      forall y | y in s && y.operator == x.operator ensures y.end <= x.start {
        var i :| 0 <= i < |s| && s[i] == y;
        assert AfterAt(all, i, |s|);
      }
    }
    if InTurn(s) && forall y | y in s && y.operator == x.operator :: y.end <= x.start {
      assert all[..|s|] == s && all[..|all|] == all;
      TurnTaken(all, |s|);
    }
  }

  lemma {:induction false} InsertInTurn(x: Interval, s: seq<Interval>)
    requires ByStart(s)
    ensures InTurn(Insert(x, s)) <==> InTurn(s) && forall y | y in s :: Parted(y, x)
  {
    hide InTurn;
    if |s| == 0 || s[|s| - 1].start <= x.start {
      InTurnLast(s, x);
      assert forall y | y in s :: y.start <= x.start;
    } else {
      var init, last := s[..|s| - 1], s[|s| - 1];
      assert s == init + [last];
      InsertInTurn(x, init);
      Inserted(x, init);
      InTurnLast(Insert(x, init), last);
      InTurnLast(init, last);
      assert forall y :: y in Insert(x, init) <==> y == x || y in init by {
        assert forall y :: y in Insert(x, init) <==> y in multiset(Insert(x, init));
      }
      LastParts(x, init, last, Insert(x, init));
    }
  }

  /** What the last entry adds, and that the new one goes in before it. */
  lemma LastParts(x: Interval, init: seq<Interval>, last: Interval, inserted: seq<Interval>)
    requires last.start > x.start && forall y :: y in inserted <==> y == x || y in init
    ensures (forall y | y in init + [last] :: Parted(y, x)) <==> (forall y | y in init :: Parted(y, x)) && Parted(last, x)
    ensures (forall y | y in inserted && y.operator == last.operator :: y.end <= last.start) <==>
              (forall y | y in init && y.operator == last.operator :: y.end <= last.start) && Parted(last, x)
  {
    assert x in inserted && last in init + [last];
    assert forall y | y in init :: y in init + [last] && y in inserted;
  }

  /** Sorting and looking at what comes before is the same as looking at the pairs of the input. */
  lemma {:induction false} SortedInTurn(s: seq<Interval>)
    ensures InTurn(SortByStart(s)) <==> AllParted(s)
  {
    hide Parted, Insert;
    if |s| > 0 {
      var init, last := s[..|s| - 1], s[|s| - 1];
      SortedInTurn(init);
      Sorted(init);
      InsertInTurn(last, SortByStart(init));
      assert forall y :: y in SortByStart(init) <==> y in init by {
        assert forall y :: y in SortByStart(init) <==> y in multiset(SortByStart(init));
      }
      PartedLast(s);
    }
  }

  lemma PartedLast(s: seq<Interval>)
    requires |s| > 0
    ensures var init := s[..|s| - 1]; AllParted(s) <==> AllParted(init) && forall y | y in init :: Parted(y, s[|s| - 1])
  {
    hide Parted;
    var init := s[..|s| - 1];
    if AllParted(s) {
      forall y | y in init ensures Parted(y, s[|s| - 1]) {
        var i :| 0 <= i < |init| && init[i] == y;
        assert s[i] == y;
      }
    }
    if AllParted(init) && forall y | y in init :: Parted(y, s[|s| - 1]) {
      forall i, k | 0 <= i < k < |s| ensures Parted(s[i], s[k]) {
        assert s[i] == init[i] && init[i] in init;
        assert k < |init| ==> s[k] == init[k];
      }
    }
  }

  /** Entry b is empty and starts inside entry a of its operator, or together with it but later in the input. */
  predicate Hidden(s: seq<Interval>, a: nat, b: nat) {
    && a < |s| && b < |s| && a != b && s[a].operator == s[b].operator && s[b].start == s[b].end
    && (s[a].start < s[b].start || (s[a].start == s[b].start && a < b)) && s[b].start < s[a].end
  }

  lemma PartedOrHidden(s: seq<Interval>, i: nat, k: nat)
    requires Ordered(s) && i < k < |s|
    ensures Parted(s[i], s[k]) <==> !Clash(s[i], s[k]) && !Hidden(s, i, k) && !Hidden(s, k, i)
  {
  }

  /** Exactly what the pass accepts, for every input in any order: no two intervals of one operator overlap, and no empty one
      lies hidden in another. */
  lemma SweepIsExact(intervals: seq<Interval>)
    requires Ordered(intervals)
    ensures InTurn(SortByStart(intervals)) <==> Disjoint(intervals) && forall a: nat, b: nat :: !Hidden(intervals, a, b)
  {
    hide Hidden, Clash, Parted, InTurn, SortByStart;
    SortedInTurn(intervals);
    forall i: nat, k: nat | i < k < |intervals|
      ensures Parted(intervals[i], intervals[k]) <==>
              !Clash(intervals[i], intervals[k]) && !Hidden(intervals, i, k) && !Hidden(intervals, k, i)
    {
      PartedOrHidden(intervals, i, k);
    }
    forall a: nat, b: nat | Hidden(intervals, a, b) ensures a < b < |intervals| || b < a < |intervals| {
      HiddenInside(intervals, a, b);
    }
  }

  lemma HiddenInside(s: seq<Interval>, a: nat, b: nat)
    requires Hidden(s, a, b)
    ensures (a < b < |s| || b < a < |s|) && s[b].start == s[b].end
  {
  }

  /** The check on intervals in any order. */
  method CheckOperators(intervals: seq<Interval>) returns (ok: bool)
    requires Ordered(intervals)
    ensures ok <==> InTurn(SortByStart(intervals))
    ensures ok <==> Disjoint(intervals) && forall a: nat, b: nat :: !Hidden(intervals, a, b)
  {
    hide Hidden, Disjoint, InTurn, SortByStart;
    SweepIsExact(intervals);
    Sorted(intervals);
    SameOrdered(intervals, SortByStart(intervals));
    ok := Sweep(SortByStart(intervals));
  }

  /** What the one pass accepts has no pairwise overlap of one operator; and when every interval has a length, whatever the
      order of the input, it accepts exactly that. */
  lemma SweepIsPairwise(intervals: seq<Interval>)
    requires Ordered(intervals)
    ensures InTurn(SortByStart(intervals)) ==> Disjoint(intervals)
    ensures Positive(intervals) ==> (InTurn(SortByStart(intervals)) <==> Disjoint(intervals))
  {
    hide Hidden, Clash, InTurn, SortByStart;
    SweepIsExact(intervals);
    if Positive(intervals) {
      forall a: nat, b: nat ensures !Hidden(intervals, a, b) {
        if Hidden(intervals, a, b) {
          HiddenInside(intervals, a, b);
        }
      }
    }
  }

  /** An empty interval inside another is refused although nothing overlaps; and the input order decides whether one at the
      same start is. */
  lemma EmptyIntervals(o: string)
    ensures var long, inside, first := Interval(o, 0, 10), Interval(o, 5, 5), Interval(o, 0, 0);
            && Disjoint([long, inside]) && !InTurn(SortByStart([long, inside]))
            && InTurn(SortByStart([first, long])) && !InTurn(SortByStart([long, first]))
  {
    var long, inside, first := Interval(o, 0, 10), Interval(o, 5, 5), Interval(o, 0, 0);
    SortTwo(long, inside);
    SortTwo(first, long);
    SortTwo(long, first);
    assert !AfterAt([long, inside], 0, 1) && !AfterAt([long, first], 0, 1);
  }

  lemma SortTwo(a: Interval, b: Interval)
    requires a.start <= b.start
    ensures SortByStart([a, b]) == [a, b]
  {
    assert [a, b][..1] == [a] && [a][..0] == [];
    assert SortByStart([a]) == [a];
  }
}
