/** How the input is split into chunks does not matter, and exactly when the line-end normalisation lets that be so. */
module ChatChunks {
  import opened Text
  import opened Json
  import opened ChatModel

  // ---- normalisation ----

  /** A carriage return right before a CRLF: normalising once leaves a CRLF, normalising again would not. */
  predicate TrapAt(t: Chars, i: nat) {
    i + 2 < |t| && t[i] == RETURN && t[i + 1] == RETURN && t[i + 2] == NEWLINE
  }

  ghost predicate NoTrap(t: Chars) { forall i: nat :: !TrapAt(t, i) }

  predicate CrlfAt(t: Chars, i: nat) {
    i + 1 < |t| && t[i] == RETURN && t[i + 1] == NEWLINE
  }

  ghost predicate NoCrlf(t: Chars) { forall i: nat :: !CrlfAt(t, i) }

  lemma {:induction false} NormalizeNothing(t: Chars)
    requires NoCrlf(t)
    ensures Normalize(t) == t
  {
    if |t| > 0 {
      assert !CrlfAt(t, 0);
      forall i: nat ensures !CrlfAt(t[1..], i) {
        assert !CrlfAt(t, i + 1);
      }
      NormalizeNothing(t[1..]);
      assert [t[0]] + t[1..] == t;
    }
  }

  /** The cut between x and y is not inside a CRLF. */
  predicate CleanCut(x: Chars, y: Chars) {
    !(|x| > 0 && |y| > 0 && x[|x| - 1] == RETURN && y[0] == NEWLINE)
  }

  lemma NormalizeCrlf(rest: Chars)
    ensures Normalize([RETURN, NEWLINE] + rest) == [NEWLINE] + Normalize(rest)
  {
    assert ([RETURN, NEWLINE] + rest)[2..] == rest;
  }

  lemma NormalizeUnit(u: Unit, rest: Chars)
    requires CleanCut([u], rest)
    ensures Normalize([u] + rest) == [u] + Normalize(rest)
  {
    assert ([u] + rest)[1..] == rest;
  }

  lemma {:induction false} NormalizeParts(x: Chars, y: Chars)
    requires CleanCut(x, y)
    ensures Normalize(x + y) == Normalize(x) + Normalize(y)
    decreases |x|
  {
    hide Normalize;
    if |x| == 0 {
      EmptyIsEmpty();
      assert x == [] && x + y == y && [] + Normalize(y) == Normalize(y);
    } else if |x| >= 2 && x[0] == RETURN && x[1] == NEWLINE {
      NormalizeParts(x[2..], y);
      NormalizeCrlf(x[2..]);
      NormalizeCrlf(x[2..] + y);
      assert x == [RETURN, NEWLINE] + x[2..] && x + y == [RETURN, NEWLINE] + (x[2..] + y);
    } else {
      NormalizeParts(x[1..], y);
      NormalizeUnit(x[0], x[1..]);
      NormalizeUnit(x[0], x[1..] + y);
      assert x == [x[0]] + x[1..] && x + y == [x[0]] + (x[1..] + y);
    }
  }

  lemma {:induction false} LastKept(t: Chars)
    requires |t| > 0
    ensures |Normalize(t)| > 0 && Normalize(t)[|Normalize(t)| - 1] == t[|t| - 1]
  {
    if |t| >= 2 && t[0] == RETURN && t[1] == NEWLINE {
      if |t| > 2 {
        LastKept(t[2..]);
      }
    } else if |t| > 1 {
      LastKept(t[1..]);
    }
  }

  lemma NormalizeReturnLast(t: Chars)
    requires |t| > 0 && t[|t| - 1] == RETURN
    ensures Normalize(t) == Normalize(t[..|t| - 1]) + [RETURN]
  {
    assert t == t[..|t| - 1] + [RETURN];
    NormalizeParts(t[..|t| - 1], [RETURN]);
    assert Normalize([RETURN]) == [RETURN];
  }

  lemma {:induction false} NormalizedHasNoCrlf(t: Chars)
    requires NoTrap(t)
    ensures NoCrlf(Normalize(t))
  {
    if |t| >= 2 && t[0] == RETURN && t[1] == NEWLINE {
      TrapSuffix(t, 2);
      NormalizedHasNoCrlf(t[2..]);
      PrefixNoCrlf(NEWLINE, Normalize(t[2..]));
    } else if |t| > 0 {
      TrapSuffix(t, 1);
      NormalizedHasNoCrlf(t[1..]);
      if t[0] == RETURN && |t| >= 2 {
        assert !TrapAt(t, 0);
        assert t[1] != NEWLINE && !(|t| >= 3 && t[1] == RETURN && t[2] == NEWLINE);
        assert Normalize(t[1..])[0] == t[1];
      }
      PrefixNoCrlf(t[0], Normalize(t[1..]));
    }
  }

  lemma PrefixNoCrlf(u: Unit, t: Chars)
    requires NoCrlf(t) && CleanCut([u], t)
    ensures NoCrlf([u] + t)
  {
    forall i: nat ensures !CrlfAt([u] + t, i) {
      if i > 0 {
        assert !CrlfAt(t, i - 1);
      }
    }
  }

  lemma TrapSuffix(t: Chars, n: nat)
    requires NoTrap(t) && n <= |t|
    ensures NoTrap(t[n..])
  {
    forall i: nat ensures !TrapAt(t[n..], i) {
      assert !TrapAt(t, i + n);
    }
  }

  lemma TrapPrefix(x: Chars, y: Chars)
    requires NoTrap(x + y)
    ensures NoTrap(x)
  {
    forall i: nat ensures !TrapAt(x, i) {
      assert !TrapAt(x + y, i);
    }
  }

  /** Without a trap, normalising the kept text again changes nothing. */
  lemma NormalizeAgain(x: Chars, y: Chars)
    requires NoTrap(x + y)
    ensures Normalize(Normalize(x) + y) == Normalize(x + y)
  {
    hide Normalize, NoTrap, NoCrlf;
    TrapPrefix(x, y);
    NormalizedHasNoCrlf(x);
    NormalizeNothing(Normalize(x));
    if |x| > 0 {
      LastKept(x);
    }
    if CleanCut(x, y) {
      NormalizeParts(x, y);
      EmptyIsEmpty();
      NormalizeParts(Normalize(x), y);
    } else {
      var head := x[..|x| - 1];
      assert x + y == head + ([RETURN] + y);
      NormalizeReturnLast(x);
      NormalizeParts(head, [RETURN] + y);
      TrapPrefix(head, [RETURN] + y);
      NormalizedHasNoCrlf(head);
      NormalizeNothing(Normalize(head));
      NormalizeParts(Normalize(head), [RETURN] + y);
      assert Normalize(x) + y == Normalize(head) + ([RETURN] + y);
    }
  }

  lemma EmptyIsEmpty()
    ensures Normalize([]) == []
  {
  }

  lemma NormalizedHasNoTrap(x: Chars, y: Chars)
    requires NoTrap(x + y)
    ensures NoTrap(Normalize(x) + y)
  {
    hide Normalize;
    TrapPrefix(x, y);
    NormalizedHasNoCrlf(x);
    var u := Normalize(x);
    if |x| > 0 {
      LastKept(x);
      if x[|x| - 1] == RETURN {
        NormalizeReturnLast(x);
        if |x| > 1 {
          LastKept(x[..|x| - 1]);
        }
      }
    }
    EmptyIsEmpty();
    forall i: nat ensures !TrapAt(u + y, i) {
      assert !CrlfAt(u, i + 1);
      var back := i - |u|;
      if back >= -2 && |x| + back >= 0 {
        assert !TrapAt(x + y, |x| + back);
      }
    }
  }

  /** The kept text may be normalised at every possible cut without a difference exactly when no carriage return comes right
      before a CRLF. */
  lemma NormalisationExact(t: Chars)
    ensures (forall k | 0 <= k <= |t| :: Normalize(Normalize(t[..k]) + t[k..]) == Normalize(t)) <==> NoTrap(t)
  {
    hide Normalize;
    if NoTrap(t) {
      forall k | 0 <= k <= |t| ensures Normalize(Normalize(t[..k]) + t[k..]) == Normalize(t) {
        assert t[..k] + t[k..] == t;
        NormalizeAgain(t[..k], t[k..]);
      }
    } else {
      var i: nat :| TrapAt(t, i);
      TrapShows(t, i);
    }
  }

  lemma TrapShows(t: Chars, i: nat)
    requires TrapAt(t, i)
    ensures Normalize(Normalize(t[..i + 3]) + t[i + 3..]) != Normalize(t)
  {
    hide Normalize;
    var head, rest := t[..i], t[i + 3..];
    var trap := [RETURN, RETURN, NEWLINE];
    assert t[..i + 3] == head + trap;
    assert t == head + (trap + rest);
    TrapParts(rest);
    NormalizeParts(head, trap);
    NormalizeParts(head, trap + rest);
    assert Normalize(t[..i + 3]) + rest == Normalize(head) + ([RETURN, NEWLINE] + rest);
    NormalizeParts(Normalize(head), [RETURN, NEWLINE] + rest);
  }

  lemma TrapParts(rest: Chars)
    ensures Normalize([RETURN, RETURN, NEWLINE]) == [RETURN, NEWLINE]
    ensures Normalize([RETURN, RETURN, NEWLINE] + rest) == [RETURN, NEWLINE] + Normalize(rest)
    ensures Normalize([RETURN, NEWLINE] + rest) == [NEWLINE] + Normalize(rest)
  {
    EmptyIsEmpty();
    assert ([RETURN, NEWLINE] + rest)[2..] == rest;
    assert ([RETURN, RETURN, NEWLINE] + rest)[1..] == [RETURN, NEWLINE] + rest;
    assert [RETURN, RETURN, NEWLINE][1..] == [RETURN, NEWLINE];
    assert [RETURN, NEWLINE][2..] == [];
  }

  // ---- blocks ----

  lemma {:induction false} FindBlankMore(t: Chars, z: Chars)
    requires FindBlank(t).Some?
    ensures FindBlank(t + z) == FindBlank(t)
  {
    if !(t[0] == NEWLINE && t[1] == NEWLINE) {
      assert (t + z)[1..] == t[1..] + z;
      FindBlankMore(t[1..], z);
    }
  }

  lemma {:induction false} FindBlankEnds(t: Chars)
    requires FindBlank(t).Some?
    ensures t[FindBlank(t).value] == NEWLINE && t[FindBlank(t).value + 1] == NEWLINE
  {
    if !(t[0] == NEWLINE && t[1] == NEWLINE) {
      FindBlankEnds(t[1..]);
    }
  }

  /** How much of the text the complete blocks take, up to and including a refused one. */
  function Consumed(c: Config, s: Core, t: Chars): (n: nat)
    ensures n <= |t|
    decreases |t|
  {
    var end := FindBlank(t);
    if end.None? then 0
    else
      var first := Block(c, s, t[..end.value]);
      end.value + 2 + (if first.Denied? then 0 else Consumed(c, first.value, t[end.value + 2..]))
  }

  function Resume<T>(first: Step<Stream>, later: Step<T>): Step<T> {
    match first
    case Denied(why, output, semantic) => Denied(why, output, semantic)
    case Next(_, output, semantic) => Then(output, semantic, later)
  }

  lemma ResumeThen(output: Frames, semantic: bool, first: Step<Stream>, later: Step<Stream>)
    ensures Resume(Then(output, semantic, first), later) == Then(output, semantic, Resume(first, later))
  {
    if first.Next? {
      assert output + (first.output + later.output) == output + first.output + later.output;
    }
  }

  /** The first complete block, whatever comes after it. */
  lemma FirstBlock(c: Config, s: Core, t: Chars, more: Chars)
    requires FindBlank(t).Some?
    ensures var e, first := FindBlank(t).value + 2, Block(c, s, t[..FindBlank(t).value]);
            Drain(c, s, t[..e] + more) ==
              if first.Denied? then Denied(first.why, first.output, first.semantic)
              else Then(first.output, first.semantic, Drain(c, first.value, more))
  {
    hide Block, FindBlank;
    var end := FindBlank(t).value;
    CutBlank(t, end + 2);
    FindBlankMore(t[..end + 2], more);
    assert (t[..end + 2] + more)[..end] == t[..end];
    assert (t[..end + 2] + more)[end + 2..] == more;
  }

  /** After the blocks that are complete, what follows them is all that matters. */
  lemma {:induction false} DrainMore(c: Config, s: Core, t: Chars, z: Chars)
    ensures var n, first := Consumed(c, s, t), Drain(c, s, t);
            Drain(c, s, t[..n] + z) == Resume(first, if first.Next? then Drain(c, first.value.core, z) else first)
    decreases |t|
  {
    hide Block, FindBlank, Drain;
    var end := FindBlank(t);
    if end.None? {
      assert t[..0] + z == z;
      DrainedNothing(c, s, t, z);
    } else {
      var e := end.value + 2;
      var n := Consumed(c, s, t);
      var first := Block(c, s, t[..end.value]);
      Slices(t, e, n, z);
      FirstBlock(c, s, t, t[e..n] + z);
      FirstBlock(c, s, t, t[e..]);
      if first.Next? {
        DrainMore(c, first.value, t[e..], z);
        var rest := Drain(c, first.value, t[e..]);
        ResumeThen(first.output, first.semantic, rest, if rest.Next? then Drain(c, rest.value.core, z) else rest);
      }
    }
  }

  lemma Slices(t: Chars, e: nat, n: nat, z: Chars)
    requires e <= n <= |t|
    ensures t[..n] + z == t[..e] + (t[e..n] + z) && t[..e] + t[e..] == t
    ensures t[e..][..n - e] == t[e..n] && t[e..][n - e..] == t[n..]
  {
  }

  /** What is kept is what the complete blocks left, and they end with a newline. */
  lemma {:induction false} DrainKeepsRest(c: Config, s: Core, t: Chars)
    ensures var n, first := Consumed(c, s, t), Drain(c, s, t);
            && (n == 0 || t[n - 1] == NEWLINE)
            && (first.Next? ==> first.value.buffer == t[n..] && FindBlank(t[n..]) == None)
    decreases |t|
  {
    hide Block, FindBlank;
    var end := FindBlank(t);
    if end.None? {
      assert t[0..] == t;
    } else {
      var e := end.value + 2;
      FindBlankEnds(t);
      var first := Block(c, s, t[..end.value]);
      if first.Next? {
        DrainKeepsRest(c, first.value, t[e..]);
        Slices(t, e, Consumed(c, s, t), []);
      }
    }
  }

  lemma DrainedNothing(c: Config, s: Core, t: Chars, z: Chars)
    requires FindBlank(t).None?
    ensures Drain(c, s, t) == Next(Stream(t, s), [], false)
    ensures Resume(Drain(c, s, t), Drain(c, s, z)) == Drain(c, s, z)
  {
    hide Block, FindBlank;
    var later := Drain(c, s, z);
    assert [] + later.output == later.output;
  }

  lemma {:induction false} CutBlank(t: Chars, e: nat)
    requires FindBlank(t).Some? && e == FindBlank(t).value + 2
    ensures FindBlank(t[..e]) == FindBlank(t)
  {
    if !(t[0] == NEWLINE && t[1] == NEWLINE) {
      assert t[..e][1..] == t[1..][..e - 1];
      CutBlank(t[1..], e - 1);
    }
  }

  // ---- chunks ----

  /** Between chunks: no complete block is kept, and no CRLF. */
  ghost predicate Settled(s: Stream) { FindBlank(s.buffer) == None && NoCrlf(s.buffer) }

  lemma PushTwice(c: Config, s: Stream, x: Chars, y: Chars)
    requires NoTrap(s.buffer + x + y)
    ensures var first := Push(c, s, x);
            && Push(c, s, x + y) == Resume(first, if first.Next? then Push(c, first.value, y) else first)
            && (first.Next? ==> Settled(first.value) && NoTrap(first.value.buffer + y))
  {
    hide Normalize, NoTrap, NoCrlf, Drain, Consumed, FindBlank;
    var b := s.buffer + x;
    var u := Normalize(b);
    var first := Drain(c, s.core, u);
    var n := Consumed(c, s.core, u);
    assert b + y == s.buffer + (x + y);
    NormalizeAgain(b, y);
    var rest := u[n..];
    assert u + y == u[..n] + (rest + y);
    TrapPrefix(b, y);
    NormalizedHasNoCrlf(b);
    CrlfParts(u, n);
    DrainMore(c, s.core, u, Normalize(rest + y));
    DrainKeepsRest(c, s.core, u);
    NormalizeParts(u[..n], rest + y);
    NormalizeNothing(u[..n]);
    NormalizedHasNoTrap(b, y);
    assert (u + y)[n..] == rest + y;
    TrapSuffix(u + y, n);
  }

  lemma CrlfParts(t: Chars, n: nat)
    requires NoCrlf(t) && n <= |t|
    ensures NoCrlf(t[..n]) && NoCrlf(t[n..])
  {
    forall i: nat ensures !CrlfAt(t[..n], i) {
      assert !CrlfAt(t, i);
    }
    forall i: nat ensures !CrlfAt(t[n..], i) {
      assert !CrlfAt(t, i + n);
    }
  }

  lemma {:induction false} FeedIsPush(c: Config, s: Stream, chunks: seq<Chars>)
    requires Settled(s) && NoTrap(s.buffer + Concat(chunks))
    ensures Feed(c, s, chunks) == Push(c, s, Concat(chunks))
    decreases |chunks|
  {
    hide Push, NoTrap, Settled;
    if |chunks| == 0 {
      PushNothing(c, s);
    } else {
      assert s.buffer + chunks[0] + Concat(chunks[1..]) == s.buffer + Concat(chunks);
      PushTwice(c, s, chunks[0], Concat(chunks[1..]));
      var first := Push(c, s, chunks[0]);
      if first.Next? {
        FeedIsPush(c, first.value, chunks[1..]);
      }
    }
  }

  lemma PushNothing(c: Config, s: Stream)
    requires Settled(s)
    ensures Push(c, s, []) == Next(s, [], false)
  {
    assert s.buffer + [] == s.buffer;
    NormalizeNothing(s.buffer);
  }

  /** Two ways of cutting the same input, without a carriage return right before a CRLF, show the same frames, mean the
      same, end in the same state, and fail in the same way or not at all. */
  lemma SplittingInvisible(c: Config, xs: seq<Chars>, ys: seq<Chars>)
    requires Concat(xs) == Concat(ys) && NoTrap(Concat(xs))
    ensures Feed(c, Stream([], START), xs) == Feed(c, Stream([], START), ys)
  {
    hide Feed, Push, NoTrap;
    var s := Stream([], START);
    assert s.buffer + Concat(xs) == Concat(xs);
    assert Settled(s);
    FeedIsPush(c, s, xs);
    FeedIsPush(c, s, ys);
  }
}
