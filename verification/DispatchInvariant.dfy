/** What the dispatch tables keep over every transaction. */
module DispatchInvariant {
  import opened Authority
  import opened Scheduling
  import opened StoreModel

  // ---- charges ----

  /** The sum of the allowances of a task's dispatches. */
  function Used(dispatches: seq<Dispatch>, taskId: string): Totals {
    if |dispatches| == 0 then ZERO
    else
      var rest := Used(dispatches[..|dispatches| - 1], taskId);
      var d := dispatches[|dispatches| - 1];
      if d.input.request.taskId == taskId then Plus(rest, Charge(d.input.allowance)) else rest
  }

  function DispatchCount(dispatches: seq<Dispatch>, taskId: string): nat {
    if |dispatches| == 0 then 0
    else
      DispatchCount(dispatches[..|dispatches| - 1], taskId) +
      (if dispatches[|dispatches| - 1].input.request.taskId == taskId then 1 else 0)
  }

  ghost predicate CostsKnown(dispatches: seq<Dispatch>, taskId: string) {
    forall i | 0 <= i < |dispatches| && dispatches[i].input.request.taskId == taskId ::
      dispatches[i].input.allowance.providerCostMicros.Some?
  }

  /** The dispatch at the end of the rows was charged within the ceilings of its own request, together with everything
      the task was ever charged before, released or not. */
  ghost predicate Charged(earlier: seq<Dispatch>, d: Dispatch) {
    var task, b := d.input.request.taskId, d.input.request.envelope.budgets;
    && AtMost(Plus(Used(earlier, task), Charge(d.input.allowance)), Ceiling(b))
    && DispatchCount(earlier, task) + 1 <= b.attempts
    && DispatchCount(earlier, task) <= b.retries
    && (b.providerCostMicros.Some? ==> CostsKnown(earlier, task) && d.input.allowance.providerCostMicros.Some?)
    && Nonnegative(Charge(d.input.allowance))
    && AtMost(Ceiling(b), FULL)
    && Timely(earlier, d)
    && d.createdMs >= 1
  }

  predicate Nonnegative(t: Totals) {
    0 <= t.requests && 0 <= t.subattempts && 0 <= t.attemptMs && 0 <= t.outputTokens && 0 <= t.cost
  }

  predicate OfTask(d: Dispatch, taskId: string) {
    d.input.request.taskId == taskId
  }

  /** Even at its full allowance the attempt ends within its request's validity and within the task's total time counted
      from every earlier dispatch; and the clock is not behind all of them. */
  ghost predicate Timely(earlier: seq<Dispatch>, d: Dispatch) {
    var task := d.input.request.taskId;
    && d.createdMs + d.input.allowance.attemptMs <= d.input.request.envelope.expiresMs
    && (forall i | 0 <= i < |earlier| && OfTask(earlier[i], task) ::
          d.createdMs + d.input.allowance.attemptMs <= earlier[i].createdMs + d.input.request.envelope.budgets.totalMs)
    && (DispatchCount(earlier, task) > 0 ==> exists i :: 0 <= i < |earlier| && OfTask(earlier[i], task) && earlier[i].createdMs <= d.createdMs)
  }

  ghost predicate AllCharged(dispatches: seq<Dispatch>) {
    forall i | 0 <= i < |dispatches| :: Charged(dispatches[..i], dispatches[i])
  }

  /** What the charging loop computes when it does not refuse: the true sums, the true count, and the earliest time. */
  lemma {:induction false} TallyIsSum(dispatches: seq<Dispatch>, releases: map<string, Reconciliation>, taskId: string, ceiling: Budgets)
    requires TallyTask(dispatches, releases, taskId, ceiling).Ok?
    requires forall i | 0 <= i < |dispatches| :: dispatches[i].createdMs >= 1
    ensures var t := TallyTask(dispatches, releases, taskId, ceiling).value;
            && t.used == Used(dispatches, taskId) && t.count == DispatchCount(dispatches, taskId)
            && (ceiling.providerCostMicros.Some? ==> CostsKnown(dispatches, taskId))
            && (forall i | 0 <= i < |dispatches| && OfTask(dispatches[i], taskId) ::
                  1 <= t.first <= dispatches[i].createdMs)
            && 0 <= t.first && (t.first == 0 <==> t.count == 0)
            && AtMost(t.used, FULL)
    ensures forall i | 0 <= i < |dispatches| && dispatches[i].input.request.taskId == taskId :: dispatches[i].input.id in releases
  {
    if |dispatches| > 0 {
      var init := dispatches[..|dispatches| - 1];
      assert forall i | 0 <= i < |init| :: init[i] == dispatches[i];
      TallyIsSum(init, releases, taskId, ceiling);
    }
  }

  lemma {:induction false} FirstIsReached(dispatches: seq<Dispatch>, releases: map<string, Reconciliation>, taskId: string, ceiling: Budgets)
    requires TallyTask(dispatches, releases, taskId, ceiling).Ok?
    requires TallyTask(dispatches, releases, taskId, ceiling).value.first != 0
    ensures exists i :: && 0 <= i < |dispatches| && OfTask(dispatches[i], taskId)
                        && dispatches[i].createdMs == TallyTask(dispatches, releases, taskId, ceiling).value.first
  {
    var init, d := dispatches[..|dispatches| - 1], dispatches[|dispatches| - 1];
    var earlier := TallyTask(init, releases, taskId, ceiling).value;
    var first := TallyTask(dispatches, releases, taskId, ceiling).value.first;
    if OfTask(d, taskId) && d.createdMs == first {
    } else {
      FirstIsReached(init, releases, taskId, ceiling);
      var i :| 0 <= i < |init| && OfTask(init[i], taskId) && init[i].createdMs == earlier.first;
      assert dispatches[i] == init[i];
    }
  }

  lemma AllowanceNonnegative(r: DispatchRequest)
    requires CheckRequest(r).Pass?
    ensures Nonnegative(Charge(r.allowance)) && AtMost(Ceiling(r.request.envelope.budgets), FULL)
    ensures r.request.envelope.budgets.providerCostMicros.Some? ==> r.allowance.providerCostMicros.Some?
  {
    BudgetsValid(Bounded(r));
    BudgetsValid(r.request.envelope);
    hide Validate, ValidateDecision;
  }

  lemma BudgetsValid(e: Envelope)
    requires Validate(e).Pass?
    ensures ValidBudgets(e.budgets)
  {
  }

  /** An admission that passes `reserve` is charged. */
  lemma ReservedIsCharged(db: Db, r: DispatchRequest, facts: Eligibility, now: int, epoch: int)
    requires AllCharged(db.dispatches) && CheckRequest(r).Pass? && Reserve(db, r, facts, now).Pass? && now >= 1
    ensures Charged(db.dispatches, Dispatch(r, facts, epoch, now))
  {
    hide CheckRequest, Reserve, Used, CostsKnown, Timely;
    AllowanceNonnegative(r);
    assert forall i | 0 <= i < |db.dispatches| :: Charged(db.dispatches[..i], db.dispatches[i]);
    ChargedNow(db, r, facts, now, epoch);
  }

  lemma ChargedNow(db: Db, r: DispatchRequest, facts: Eligibility, now: int, epoch: int)
    requires Reserve(db, r, facts, now).Pass? && now >= 1
    requires forall i | 0 <= i < |db.dispatches| :: db.dispatches[i].createdMs >= 1
    requires Nonnegative(Charge(r.allowance)) && AtMost(Ceiling(r.request.envelope.budgets), FULL)
    requires r.request.envelope.budgets.providerCostMicros.Some? ==> r.allowance.providerCostMicros.Some?
    ensures Charged(db.dispatches, Dispatch(r, facts, epoch, now))
  {
    TallyIsSum(db.dispatches, db.releases, r.request.taskId, r.request.envelope.budgets);
    hide Used, CostsKnown;
    if DispatchCount(db.dispatches, r.request.taskId) > 0 {
      FirstIsReached(db.dispatches, db.releases, r.request.taskId, r.request.envelope.budgets);
    }
  }

  lemma ChargedMore(dispatches: seq<Dispatch>, d: Dispatch)
    requires AllCharged(dispatches) && Charged(dispatches, d)
    ensures AllCharged(dispatches + [d])
  {
    hide Charged;
    var rows := dispatches + [d];
    forall i | 0 <= i < |rows| ensures Charged(rows[..i], rows[i]) {
      assert rows[..i] == if i < |dispatches| then dispatches[..i] else dispatches;
    }
  }

  lemma {:induction false} UsedNonnegative(dispatches: seq<Dispatch>, taskId: string)
    requires forall i | 0 <= i < |dispatches| :: Nonnegative(Charge(dispatches[i].input.allowance))
    ensures Nonnegative(Used(dispatches, taskId))
  {
    if |dispatches| > 0 {
      UsedNonnegative(dispatches[..|dispatches| - 1], taskId);
    }
  }

  /** Partial sums only grow, so with the last charge inside its ceilings no intermediate sum left the safe range. */
  lemma {:induction false} PartialSumsGrow(dispatches: seq<Dispatch>, taskId: string, n: nat)
    requires n <= |dispatches| && forall i | 0 <= i < |dispatches| :: Nonnegative(Charge(dispatches[i].input.allowance))
    ensures Nonnegative(Used(dispatches[..n], taskId)) && AtMost(Used(dispatches[..n], taskId), Used(dispatches, taskId))
    decreases |dispatches|
  {
    UsedNonnegative(dispatches[..n], taskId);
    if n < |dispatches| {
      var init := dispatches[..|dispatches| - 1];
      PartialSumsGrow(init, taskId, n);
      assert init[..n] == dispatches[..n];
    } else {
      assert dispatches[..n] == dispatches;
    }
  }

  // ---- attempts ----

  function AttemptCount(attempts: seq<Attempt>, taskId: string): nat {
    if |attempts| == 0 then 0
    else AttemptCount(attempts[..|attempts| - 1], taskId) + (if attempts[|attempts| - 1].taskId == taskId then 1 else 0)
  }

  /** Attempt i belongs to dispatch i, and its epoch is its rank among the attempts of its task. */
  ghost predicate Aligned(dispatches: seq<Dispatch>, attempts: seq<Attempt>) {
    && |attempts| == |dispatches|
    && (forall i | 0 <= i < |attempts| ::
          && attempts[i].key == dispatches[i].input.id && attempts[i].taskId == dispatches[i].input.request.taskId
          && attempts[i].epoch == dispatches[i].epoch)
    && (forall i, k | 0 <= i < k < |attempts| :: attempts[i].key != attempts[k].key)
  }

  ghost predicate EpochsRanked(attempts: seq<Attempt>) {
    forall i | 0 <= i < |attempts| :: attempts[i].epoch == AttemptCount(attempts[..i], attempts[i].taskId) + 1
  }

  /** At most one attempt of the whole store is unresolved. */
  ghost predicate OneActive(attempts: seq<Attempt>) {
    forall i, k | 0 <= i < k < |attempts| :: Terminal(attempts[i].state) || Terminal(attempts[k].state)
  }

  /** An attempt is terminal exactly when its dispatch was released. */
  ghost predicate ReleasedTerminal(attempts: seq<Attempt>, releases: map<string, Reconciliation>) {
    && (forall i | 0 <= i < |attempts| :: Terminal(attempts[i].state) <==> attempts[i].key in releases)
    && (forall key | key in releases :: IsKey(attempts, key))
  }

  // ---- events ----

  datatype Folded = Nothing | Folded(state: AttemptState, revision: int) | Broken

  /** Replaying one event over what the earlier ones said. */
  function Apply(f: Folded, e: Event): Folded {
    match e.change
    case Assign => if f.Nothing? && e.revision == 1 then Folded.Folded(Assigned, 1) else Broken
    case Move(from, to) =>
      if f.Folded? && f.state == from && to in Edges(from) && e.revision == f.revision + 1 then Folded.Folded(to, e.revision) else Broken
  }

  function Replay(events: seq<Event>, key: string): Folded {
    if |events| == 0 then Nothing
    else
      var earlier := Replay(events[..|events| - 1], key);
      var e := events[|events| - 1];
      if e.key == key then Apply(earlier, e) else earlier
  }

  function EventCount(events: seq<Event>, key: string): nat {
    if |events| == 0 then 0
    else EventCount(events[..|events| - 1], key) + (if events[|events| - 1].key == key then 1 else 0)
  }

  /** Every attempt row is what its events replay to, and counts them; no event is about anything else. */
  ghost predicate RowsReplay(attempts: seq<Attempt>, events: seq<Event>) {
    && (forall i | 0 <= i < |attempts| :: RowReplays(attempts[i], events))
    && (forall k | 0 <= k < |events| :: IsKey(attempts, events[k].key))
  }

  ghost predicate IsKey(attempts: seq<Attempt>, key: string) {
    exists i :: 0 <= i < |attempts| && attempts[i].key == key
  }

  predicate RowReplays(a: Attempt, events: seq<Event>) {
    Replay(events, a.key) == Folded.Folded(a.state, a.revision) && EventCount(events, a.key) == a.revision
  }

  ghost predicate DispatchesGood(db: Db) {
    match db
    case Db(_, _, _, _, attempts, events, dispatches, _, releases, _, _, _) =>
      && AllCharged(dispatches) && Aligned(dispatches, attempts) && EpochsRanked(attempts) && OneActive(attempts)
      && ReleasedTerminal(attempts, releases) && RowsReplay(attempts, events)
  }

  lemma EmptyDispatchesGood()
    ensures DispatchesGood(EMPTY)
  {
  }

  // ---- admission ----

  lemma {:induction false} ActiveZero(attempts: seq<Attempt>)
    ensures ActiveOf(attempts) == 0 <==> forall i | 0 <= i < |attempts| :: Terminal(attempts[i].state)
  {
    if |attempts| > 0 {
      ActiveZero(attempts[..|attempts| - 1]);
    }
  }

  lemma {:induction false} MaxEpochIsCount(attempts: seq<Attempt>, taskId: string)
    requires EpochsRanked(attempts)
    ensures MaxEpoch(attempts, taskId) == AttemptCount(attempts, taskId)
  {
    if |attempts| > 0 {
      var init := attempts[..|attempts| - 1];
      assert forall i | 0 <= i < |init| :: init[..i] == attempts[..i] && init[i] == attempts[i];
      MaxEpochIsCount(init, taskId);
    }
  }

  lemma RankedMore(attempts: seq<Attempt>, a: Attempt)
    requires EpochsRanked(attempts) && a.epoch == AttemptCount(attempts, a.taskId) + 1
    ensures EpochsRanked(attempts + [a])
  {
    var rows := attempts + [a];
    forall i | 0 <= i < |rows| ensures rows[i].epoch == AttemptCount(rows[..i], rows[i].taskId) + 1 {
      assert rows[..i] == if i < |attempts| then attempts[..i] else attempts;
    }
  }

  lemma {:induction false} UnknownKey(attempts: seq<Attempt>, events: seq<Event>, key: string)
    requires (forall k | 0 <= k < |events| :: IsKey(attempts, events[k].key)) && !IsKey(attempts, key)
    ensures Replay(events, key) == Nothing && EventCount(events, key) == 0
  {
    if |events| > 0 {
      UnknownKey(attempts, events[..|events| - 1], key);
    }
  }

  lemma ReplayMore(events: seq<Event>, e: Event, key: string)
    ensures Replay(events + [e], key) == if e.key == key then Apply(Replay(events, key), e) else Replay(events, key)
    ensures EventCount(events + [e], key) == EventCount(events, key) + if e.key == key then 1 else 0
  {
    assert (events + [e])[..|events|] == events;
  }

  lemma AssignedReplays(attempts: seq<Attempt>, events: seq<Event>, a: Attempt, e: Event)
    requires RowsReplay(attempts, events) && (forall i | 0 <= i < |attempts| :: attempts[i].key != a.key)
    requires a.state == Assigned && a.revision == 1 && e.key == a.key && e.revision == 1 && e.change == Assign
    ensures RowsReplay(attempts + [a], events + [e])
  {
    UnknownKey(attempts, events, a.key);
    var rows, more := attempts + [a], events + [e];
    forall i | 0 <= i < |rows| ensures RowReplays(rows[i], more) {
      ReplayMore(events, e, rows[i].key);
      assert i < |attempts| ==> RowReplays(attempts[i], events);
    }
    forall k | 0 <= k < |more| ensures IsKey(rows, more[k].key) {
      if k < |events| {
        assert IsKey(attempts, events[k].key);
        var i :| 0 <= i < |attempts| && attempts[i].key == events[k].key;
        assert rows[i].key == more[k].key;
      } else {
        assert rows[|attempts|].key == more[k].key;
      }
    }
  }

  lemma AdmittedKeeps(db: Db, r: DispatchRequest, facts: Eligibility, now: int)
    requires DispatchesGood(db) && CheckRequest(r).Pass? && Reserve(db, r, facts, now).Pass? && now >= 1
    requires FindDispatch(db.dispatches, r.id).None?
    ensures DispatchesGood(Admitted(db, r, facts, now))
  {
    hide CheckRequest, AllCharged, RowsReplay, EpochsRanked, Charged, Reserve, ReleasedTerminal, Aligned, OneActive, MaxEpoch, AttemptCount,
         FindDispatch, ActiveOf, IsKey;
    var later := Admitted(db, r, facts, now);
    var a := later.attempts[|db.attempts|];
    ReservedIsCharged(db, r, facts, now, a.epoch);
    ReservedWhenIdle(db, r, facts, now);
    ChargedMore(db.dispatches, later.dispatches[|db.dispatches|]);
    MaxEpochIsCount(db.attempts, r.request.taskId);
    RankedMore(db.attempts, a);
    ActiveZero(db.attempts);
    KeyIsNew(db, r.id);
    AssignedReplays(db.attempts, db.events, a, later.events[|db.events|]);
    NotKey(db.attempts, r.id);
    ReleasedMore(db.attempts, db.releases, a);
    AlignedMore(db.dispatches, db.attempts, later.dispatches[|db.dispatches|], a);
    OneActiveMore(db.attempts, a);
  }

  lemma NotKey(attempts: seq<Attempt>, key: string)
    requires forall i | 0 <= i < |attempts| :: attempts[i].key != key
    ensures !IsKey(attempts, key)
  {
  }

  lemma AlignedMore(dispatches: seq<Dispatch>, attempts: seq<Attempt>, d: Dispatch, a: Attempt)
    requires Aligned(dispatches, attempts) && forall i | 0 <= i < |attempts| :: attempts[i].key != a.key
    requires a.key == d.input.id && a.taskId == d.input.request.taskId && a.epoch == d.epoch
    ensures Aligned(dispatches + [d], attempts + [a])
  {
  }

  lemma OneActiveMore(attempts: seq<Attempt>, a: Attempt)
    requires forall i | 0 <= i < |attempts| :: Terminal(attempts[i].state)
    ensures OneActive(attempts + [a])
  {
  }

  lemma ReleasedMore(attempts: seq<Attempt>, releases: map<string, Reconciliation>, a: Attempt)
    requires ReleasedTerminal(attempts, releases) && !Terminal(a.state) && !IsKey(attempts, a.key)
    ensures ReleasedTerminal(attempts + [a], releases)
  {
    var rows := attempts + [a];
    forall key | key in releases ensures IsKey(rows, key) {
      assert IsKey(attempts, key);
      var i :| 0 <= i < |attempts| && attempts[i].key == key;
      assert rows[i].key == key;
    }
  }

  lemma ReleasedMoved(attempts: seq<Attempt>, releases: map<string, Reconciliation>, i: nat, a: Attempt)
    requires ReleasedTerminal(attempts, releases) && i < |attempts| && a.key == attempts[i].key
    requires Terminal(a.state) <==> Terminal(attempts[i].state)
    ensures ReleasedTerminal(attempts[i := a], releases)
  {
    forall key | key in releases ensures IsKey(attempts[i := a], key) {
      assert IsKey(attempts, key);
      var k :| 0 <= k < |attempts| && attempts[k].key == key;
      assert attempts[i := a][k].key == key;
    }
  }

  lemma ReleasedEnded(attempts: seq<Attempt>, releases: map<string, Reconciliation>, i: nat, a: Attempt, proof: Reconciliation)
    requires ReleasedTerminal(attempts, releases) && i < |attempts| && a.key == attempts[i].key && Terminal(a.state)
    requires forall x, y | 0 <= x < y < |attempts| :: attempts[x].key != attempts[y].key
    ensures ReleasedTerminal(attempts[i := a], releases[a.key := proof])
  {
    var rows := attempts[i := a];
    forall key | key in releases[a.key := proof] ensures IsKey(rows, key) {
      if key == a.key {
        assert rows[i].key == key;
      } else {
        assert IsKey(attempts, key);
        var k :| 0 <= k < |attempts| && attempts[k].key == key;
        assert rows[k].key == key;
      }
    }
  }

  lemma ReservedWhenIdle(db: Db, r: DispatchRequest, facts: Eligibility, now: int)
    requires Reserve(db, r, facts, now).Pass?
    ensures ActiveOf(db.attempts) == 0
  {
  }

  lemma KeyIsNew(db: Db, id: string)
    requires Aligned(db.dispatches, db.attempts) && FindDispatch(db.dispatches, id).None?
    ensures forall i | 0 <= i < |db.attempts| :: db.attempts[i].key != id
  {
  }

  // ---- moving one attempt ----

  lemma MovedReplays(attempts: seq<Attempt>, events: seq<Event>, i: nat, to: AttemptState, messageId: MessageId)
    requires RowsReplay(attempts, events) && i < |attempts| && to in Edges(attempts[i].state)
    requires forall x, y | 0 <= x < y < |attempts| :: attempts[x].key != attempts[y].key
    ensures var a := attempts[i];
            RowsReplay(attempts[i := a.(state := to, revision := a.revision + 1)],
                       events + [Event(messageId, a.key, a.taskId, a.epoch, a.revision + 1, Move(a.state, to))])
  {
    var a := attempts[i];
    var e := Event(messageId, a.key, a.taskId, a.epoch, a.revision + 1, Move(a.state, to));
    var rows, more := attempts[i := a.(state := to, revision := a.revision + 1)], events + [e];
    forall n | 0 <= n < |rows| ensures RowReplays(rows[n], more) {
      ReplayMore(events, e, rows[n].key);
      assert RowReplays(attempts[n], events);
    }
    forall k | 0 <= k < |more| ensures IsKey(rows, more[k].key) {
      if k < |events| {
        assert IsKey(attempts, events[k].key);
        var n :| 0 <= n < |attempts| && attempts[n].key == events[k].key;
        assert rows[n].key == more[k].key;
      } else {
        assert rows[i].key == more[k].key;
      }
    }
  }

  lemma {:induction false} CountSame(attempts: seq<Attempt>, rows: seq<Attempt>, taskId: string)
    requires |attempts| == |rows| && forall i | 0 <= i < |rows| :: rows[i].taskId == attempts[i].taskId
    ensures AttemptCount(rows, taskId) == AttemptCount(attempts, taskId)
  {
    if |attempts| > 0 {
      CountSame(attempts[..|attempts| - 1], rows[..|rows| - 1], taskId);
    }
  }

  lemma RanksSame(attempts: seq<Attempt>, rows: seq<Attempt>)
    requires EpochsRanked(attempts) && |attempts| == |rows|
    requires forall i | 0 <= i < |rows| :: rows[i].taskId == attempts[i].taskId && rows[i].epoch == attempts[i].epoch
    ensures EpochsRanked(rows)
  {
    forall i | 0 <= i < |rows| ensures rows[i].epoch == AttemptCount(rows[..i], rows[i].taskId) + 1 {
      CountSame(attempts[..i], rows[..i], rows[i].taskId);
    }
  }

  /** A move along an edge that does not end the attempt. */
  lemma MoveKeeps(db: Db, i: nat, to: AttemptState, messageId: MessageId)
    requires DispatchesGood(db) && i < |db.attempts| && to in Edges(db.attempts[i].state) && !Terminal(to)
    ensures DispatchesGood(Moved(db, i, to, messageId))
  {
    hide AllCharged, RowsReplay, EpochsRanked, ReleasedTerminal;
    var later := Moved(db, i, to, messageId);
    assert Edges(db.attempts[i].state) != {} ==> !Terminal(db.attempts[i].state);
    MovedReplays(db.attempts, db.events, i, to, messageId);
    RanksSame(db.attempts, later.attempts);
    ReleasedMoved(db.attempts, db.releases, i, later.attempts[i]);
  }

  /** A move that ends the attempt, together with the release of its dispatch. */
  lemma ReleaseKeeps(db: Db, i: nat, to: AttemptState, messageId: MessageId, proof: Reconciliation)
    requires DispatchesGood(db) && i < |db.attempts| && to in Edges(db.attempts[i].state) && Terminal(to)
    requires db.attempts[i].key == proof.dispatchId
    ensures var moved := Moved(db, i, to, messageId);
            DispatchesGood(moved.(releases := moved.releases[proof.dispatchId := proof]))
  {
    hide AllCharged, RowsReplay, EpochsRanked, ReleasedTerminal;
    var later := Moved(db, i, to, messageId);
    MovedReplays(db.attempts, db.events, i, to, messageId);
    RanksSame(db.attempts, later.attempts);
    ReleasedEnded(db.attempts, db.releases, i, later.attempts[i], proof);
  }

  // ---- the transactions ----

  lemma StoppedKeeps(db: Db, owner: bool, taskId: string)
    requires DispatchesGood(db)
    ensures DispatchesGood(Stopped(db, owner, taskId).db)
  {
    hide DispatchesGood;
    StopsIrrelevant(db, taskId);
    var at := FindAssigned(db.attempts, taskId);
    if at.Some? {
      MoveKeeps(db.(stops := db.stops + {taskId}), at.value, Stopping, Derived(db.attempts[at.value].key, "stop"));
    }
  }

  lemma StopsIrrelevant(db: Db, taskId: string)
    requires DispatchesGood(db)
    ensures DispatchesGood(db.(stops := db.stops + {taskId}))
  {
  }

  lemma ReconciledKeeps(db: Db, owner: bool, proof: Reconciliation, generation: string)
    requires DispatchesGood(db)
    ensures DispatchesGood(Reconciled(db, owner, proof, generation).db)
  {
    hide DispatchesGood;
    var attempt := FindAttempt(db.attempts, proof.dispatchId);
    if attempt.Some? && GoodEvidence(proof) {
      var a := db.attempts[attempt.value];
      if CheckTransition(proof.expectedRevision, a.state, proof.to, a.state, a.revision).Pass? {
        ReleaseKeeps(db, attempt.value, proof.to, Derived(proof.dispatchId, "terminal"), proof);
      }
    }
  }

  /** Restarting turns every attempt that may be running into an unknown one, and leaves the rest alone. */
  lemma {:induction false} RecoveredKeeps(db: Db, n: nat)
    requires DispatchesGood(db) && n <= |db.attempts| && Recovered(db, n).Ok?
    ensures var later := Recovered(db, n).value;
            && DispatchesGood(later) && later == db.(attempts := later.attempts, events := later.events)
            && (forall i | 0 <= i < n :: !Resumable(later.attempts[i].state))
            && (forall i | n <= i < |db.attempts| :: later.attempts[i] == db.attempts[i])
            && db.events <= later.events
  {
    hide DispatchesGood;
    if n > 0 {
      RecoveredKeeps(db, n - 1);
      var earlier := Recovered(db, n - 1).value;
      if Resumable(earlier.attempts[n - 1].state) {
        MoveKeeps(earlier, n - 1, Unknown, Random(|earlier.events|));
      }
    }
  }
}
