/** The message-history loop of `validateRequest` (`experiments/inference-boundary/protocol.ts:22-53`): which calls are open,
    which ids were used, and where a turn may change. */
module History {
  import opened Text

  /** `valid` is the outcome of the checks on the call alone: its id's form, its type, its arguments. */
  datatype CallRef = CallRef(id: string, valid: bool)

  /** None as content is null; None as calls is an absent field. */
  datatype Message =
    | System(content: string)
    | User(content: string)
    | Assistant(text: Option<string>, calls: Option<seq<CallRef>>)
    | Tool(id: string, output: string)

  /** Schema 2 or 1, and whether the profile is OpenCode's. */
  datatype Rules = Rules(second: bool, opencode: bool)

  const MAX_MESSAGES := 64
  const MAX_CALLS := 8

  /** What JavaScript's `trim` removes. */
  predicate Trimmed(c: char) {
    var u := c as int;
    9 <= u <= 13 || u == 32 || u == 0xA0 || u == 0x1680 || 0x2000 <= u <= 0x200A || u == 0x2028 || u == 0x2029 ||
    u == 0x202F || u == 0x205F || u == 0x3000 || u == 0xFEFF
  }

  predicate Blank(s: string) { forall i | 0 <= i < |s| :: Trimmed(s[i]) }

  // ---- what a history must be ----

  function CallsOf(m: Message): seq<CallRef> {
    if m.Assistant? && m.calls.Some? then m.calls.value else []
  }

  function Ids(calls: seq<CallRef>): set<string> {
    set i | 0 <= i < |calls| :: calls[i].id
  }

  /** Every id called in the messages. */
  function Called(ms: seq<Message>): set<string> {
    if |ms| == 0 then {} else Called(ms[..|ms| - 1]) + Ids(CallsOf(ms[|ms| - 1]))
  }

  /** Every id answered in the messages. */
  function Answered(ms: seq<Message>): set<string> {
    if |ms| == 0 then {} else Answered(ms[..|ms| - 1]) + (if ms[|ms| - 1].Tool? then {ms[|ms| - 1].id} else {})
  }

  predicate DistinctIds(calls: seq<CallRef>) {
    forall i, k | 0 <= i < k < |calls| :: calls[i].id != calls[k].id
  }

  /** What the message itself must look like. */
  predicate Formed(r: Rules, m: Message, first: bool, total: nat) {
    match m
    case System(content) => r.second ==> !Blank(content) && first && total >= 2
    case User(content) => r.second ==> !Blank(content)
    case Assistant(text, calls) =>
      && (r.second && text.Some? ==> !Blank(text.value) || (r.opencode && text.value == "" && calls.Some?))
      && (r.second && text.None? ==> calls.Some?)
      && (calls.Some? ==> 1 <= |calls.value| <= MAX_CALLS && forall i | 0 <= i < |calls.value| :: calls.value[i].valid)
    case Tool(_, _) => true
  }

  /** Whether the turn changes here, so that no call may be open. */
  predicate Turns(r: Rules, m: Message) {
    m.System? || m.User? || (r.second && m.Assistant?)
  }

  /** A message fits after the earlier ones: new calls have new ids, an answer belongs to an open call, and a turn changes
      only when every call was answered. */
  predicate Follows(r: Rules, earlier: seq<Message>, m: Message) {
    && (forall i | 0 <= i < |CallsOf(m)| :: CallsOf(m)[i].id !in Called(earlier)) && DistinctIds(CallsOf(m))
    && (m.Tool? ==> m.id in Called(earlier) && m.id !in Answered(earlier))
    && (Turns(r, m) ==> Called(earlier) <= Answered(earlier))
  }

  predicate GoodHistory(r: Rules, ms: seq<Message>) {
    && 1 <= |ms| <= MAX_MESSAGES && Called(ms) <= Answered(ms)
    && forall i | 0 <= i < |ms| :: Formed(r, ms[i], i == 0, |ms|) && Follows(r, ms[..i], ms[i])
  }

  // ---- the loop ----

  /** Lines 36-44: the calls of one assistant message. */
  method AddCalls(calls: seq<CallRef>, open0: set<string>, seen0: set<string>) returns (pending: set<string>, seen: set<string>, ok: bool)
    ensures ok <==> 1 <= |calls| <= MAX_CALLS && (forall i | 0 <= i < |calls| :: calls[i].valid && calls[i].id !in seen0) && DistinctIds(calls)
    ensures ok ==> pending == open0 + Ids(calls) && seen == seen0 + Ids(calls)
  {
    hide Ids, DistinctIds;
    pending, seen := open0, seen0;
    if |calls| == 0 || |calls| > MAX_CALLS {
      return pending, seen, false;
    }
    NoCalls();
    assert calls[..0] == [];
    for k := 0 to |calls|
      invariant forall i | 0 <= i < k :: calls[i].valid && calls[i].id !in seen0
      invariant DistinctIds(calls[..k])
      invariant pending == open0 + Ids(calls[..k]) && seen == seen0 + Ids(calls[..k])
    {
      var call := calls[k];
      IdsMore(calls, k);
      DistinctMore(calls, k);
      if !call.valid || call.id in seen {
        return pending, seen, false;
      }
      pending, seen := pending + {call.id}, seen + {call.id};
    }
    assert calls[..|calls|] == calls;
    return pending, seen, true;
  }

  lemma DistinctMore(calls: seq<CallRef>, k: nat)
    requires k < |calls| && DistinctIds(calls[..k])
    ensures DistinctIds(calls[..k + 1]) <==> calls[k].id !in Ids(calls[..k])
    ensures DistinctIds(calls) ==> DistinctIds(calls[..k + 1])
  {
    var more := calls[..k + 1];
    if calls[k].id in Ids(calls[..k]) {
      var i :| 0 <= i < k && calls[..k][i].id == calls[k].id;
      assert more[i].id == more[k].id;
    } else {
      forall i, n | 0 <= i < n < |more| ensures more[i].id != more[n].id {
        if n == k {
          assert calls[..k][i].id in Ids(calls[..k]);
        } else {
          assert more[i] == calls[..k][i] && more[n] == calls[..k][n];
        }
      }
    }
  }

  lemma IdsNew(calls: seq<CallRef>, seen: set<string>)
    requires forall i | 0 <= i < |calls| :: calls[i].id !in seen
    ensures Ids(calls) !! seen
  {
  }

  lemma IdsMore(calls: seq<CallRef>, k: nat)
    requires k < |calls|
    ensures Ids(calls[..k + 1]) == Ids(calls[..k]) + {calls[k].id}
  {
    var more := calls[..k + 1];
    forall x | x in Ids(more) ensures x in Ids(calls[..k]) + {calls[k].id} {
      var i :| 0 <= i < |more| && more[i].id == x;
      if i < k {
        assert calls[..k][i].id == x;
      }
    }
    forall x | x in Ids(calls[..k]) + {calls[k].id} ensures x in Ids(more) {
      if x == calls[k].id {
        assert more[k].id == x;
      } else {
        var i :| 0 <= i < k && calls[..k][i].id == x;
        assert more[i].id == x;
      }
    }
  }

  lemma MoreOf(ms: seq<Message>, i: nat)
    requires i < |ms|
    ensures Called(ms[..i + 1]) == Called(ms[..i]) + Ids(CallsOf(ms[i]))
    ensures Answered(ms[..i + 1]) == Answered(ms[..i]) + (if ms[i].Tool? then {ms[i].id} else {})
  {
    assert ms[..i + 1][..i] == ms[..i];
  }

  /** The whole loop accepts exactly the good histories. */
  method ValidateHistory(r: Rules, ms: seq<Message>) returns (ok: bool)
    ensures ok <==> GoodHistory(r, ms)
  {
    hide Called, Answered, Ids, Blank, DistinctIds;
    if |ms| == 0 || |ms| > MAX_MESSAGES {
      return false;
    }
    var systemSeen := false;
    var pending: set<string>, seen: set<string> := {}, {};
    NothingYet();
    assert ms[..0] == [];
    for i := 0 to |ms|
      invariant forall k | 0 <= k < i :: Formed(r, ms[k], k == 0, |ms|) && Follows(r, ms[..k], ms[k])
      invariant seen == Called(ms[..i]) && pending == Called(ms[..i]) - Answered(ms[..i])
      invariant Answered(ms[..i]) <= Called(ms[..i]) && (systemSeen ==> i > 0)
    {
      var m := ms[i];
      MoreOf(ms, i);
      if r.second && m.Assistant? {
        if pending != {} || (m.text.Some? && Blank(m.text.value) && !(r.opencode && m.text.value == "" && m.calls.Some?)) ||
           (m.text.None? && m.calls.None?) {
          assert Called(ms[..i]) <= Answered(ms[..i]) ==> pending == {};
          return false;
        }
      }
      if r.second && (m.System? || m.User?) {
        if Blank(m.content) {
          return false;
        }
        if m.System? {
          if systemSeen || i != 0 || |ms| < 2 {
            return false;
          }
          systemSeen := true;
        }
      }
      if m.Assistant? {
        NoCalls();
        if m.calls.Some? {
          var accepted;
          pending, seen, accepted := AddCalls(m.calls.value, pending, seen);
          if !accepted {
            return false;
          }
          IdsNew(m.calls.value, Called(ms[..i]));
        }
      } else if m.Tool? {
        NoCalls();
        if m.id !in pending {
          return false;
        }
        pending := pending - {m.id};
      } else {
        NoCalls();
        if pending != {} {
          assert Called(ms[..i]) <= Answered(ms[..i]) ==> pending == {};
          return false;
        }
      }
    }
    assert ms[..|ms|] == ms;
    assert forall x :: x in Called(ms) && x !in Answered(ms) <==> x in pending;
    return pending == {};
  }

  lemma NothingYet()
    ensures Called([]) == {} && Answered([]) == {}
  {
  }

  lemma NoCalls()
    ensures Ids([]) == {} && DistinctIds([])
  {
  }

  // ---- what an accepted history means ----

  lemma {:induction false} CalledBy(ms: seq<Message>, i: nat, k: nat)
    requires i < k <= |ms|
    ensures Ids(CallsOf(ms[i])) <= Called(ms[..k])
    ensures ms[i].Tool? ==> ms[i].id in Answered(ms[..k])
    ensures Answered(ms[..i]) <= Answered(ms[..k])
  {
    hide Ids, CallsOf;
    MoreOf(ms, k - 1);
    if i < k - 1 {
      CalledBy(ms, i, k - 1);
    }
  }

  lemma {:induction false} AnsweredAt(ms: seq<Message>, k: nat, id: string)
    requires k <= |ms| && id in Answered(ms[..k])
    ensures exists j :: 0 <= j < k && IsAnswer(ms, j, id)
  {
    if k > 0 {
      MoreOf(ms, k - 1);
      if ms[k - 1].Tool? && ms[k - 1].id == id {
        assert IsAnswer(ms, k - 1, id);
      } else {
        AnsweredAt(ms, k - 1, id);
      }
    }
  }

  predicate IsAnswer(ms: seq<Message>, j: int, id: string) {
    0 <= j < |ms| && ms[j].Tool? && ms[j].id == id
  }

  /** In an accepted history every call is answered exactly once, after it was made, and before the turn changes. */
  lemma EachCallAnsweredOnce(r: Rules, ms: seq<Message>, i: nat, id: string)
    requires GoodHistory(r, ms) && i < |ms| && id in Ids(CallsOf(ms[i]))
    ensures exists j :: i < j < |ms| && OnlyAnswer(r, ms, i, j, id)
  {
    hide Called, Answered;
    assert ms[..|ms|] == ms;
    CalledBy(ms, i, |ms|);
    AnsweredAt(ms, |ms|, id);
    var j :| 0 <= j < |ms| && IsAnswer(ms, j, id);
    AnswerAfter(r, ms, i, j, id);
    forall k | IsAnswer(ms, k, id) ensures k == j {
      if k < j {
        CalledBy(ms, k, j);
      } else if k > j {
        CalledBy(ms, j, k);
      }
    }
    forall k | i < k < j ensures !Turns(r, ms[k]) {
      CalledBy(ms, i, k);
      CalledBy(ms, k, j);
      assert Follows(r, ms[..k], ms[k]) && Follows(r, ms[..j], ms[j]);
    }
    assert OnlyAnswer(r, ms, i, j, id);
  }

  predicate OnlyAnswer(r: Rules, ms: seq<Message>, i: nat, j: nat, id: string)
    requires i < j < |ms|
  {
    && IsAnswer(ms, j, id) && (forall k | 0 <= k < |ms| && k != j :: !IsAnswer(ms, k, id))
    && (forall k | i < k < j :: !Turns(r, ms[k]))
  }

  lemma AnswerAfter(r: Rules, ms: seq<Message>, i: nat, j: nat, id: string)
    requires GoodHistory(r, ms) && i < |ms| && id in Ids(CallsOf(ms[i])) && IsAnswer(ms, j, id)
    ensures i < j
  {
    hide Called, Answered;
    assert Follows(r, ms[..j], ms[j]) && Follows(r, ms[..i], ms[i]);
    var n :| 0 <= n < |CallsOf(ms[i])| && CallsOf(ms[i])[n].id == id;
    assert CallsOf(ms[i])[n].id !in Called(ms[..i]);
    if j < i {
      CalledGrow(ms, j, i);
    }
  }

  lemma {:induction false} CalledGrow(ms: seq<Message>, i: nat, k: nat)
    requires i <= k <= |ms|
    ensures Called(ms[..i]) <= Called(ms[..k])
  {
    hide Ids;
    if i < k {
      MoreOf(ms, k - 1);
      CalledGrow(ms, i, k - 1);
    }
  }
}
