/** When exactly each transaction of the store succeeds and what it then writes, as conditions on the tables and the request
    (`internal/store/grants.go`, `internal/store/dispatch.go`). */
module StoreExact {
  import opened Text
  import opened Authority
  import opened Scheduling
  import opened AuthorityExact
  import opened StoreModel
  import opened GrantInvariant
  import opened DispatchInvariant
  import opened StoreTheorems

  // ---- authority and expiry ----

  /** The grant that is the head of a task. */
  predicate IsHead(db: Db, taskId: string, g: Grant) {
    Head(db, taskId) == Some(g)
  }

  /** No row invalidates the grant. */
  predicate Standing(db: Db, g: Grant) {
    forall i | 0 <= i < |db.invalidations| :: db.invalidations[i].grantId != g.id
  }

  /** The request speaks of the head of its task, which stands, and asks to execute inside it now. */
  predicate Authorized(db: Db, r: Request, now: int) {
    var head := Head(db, r.taskId);
    head.Some? && head.value.id == r.grantId && Standing(db, head.value) && MayExecute(head.value, r, now)
  }

  lemma StandingIsLive(db: Db, g: Grant)
    ensures Standing(db, g) <==> !Invalidated(db.invalidations, g.id)
  {
  }

  /** A head that is not due stands after the expiry if and only if it stood before. */
  lemma ExpirySpares(db: Db, g: Grant, now: int)
    requires GrantsGood(db) && Head(db, g.taskId) == Some(g) && now < g.envelope.expiresMs
    ensures Standing(ExpireGrants(db, now), g) <==> Standing(db, g)
  {
    hide GrantsGood, IsDue, Standing, Due;
    StandingIsLive(db, g);
    StandingIsLive(ExpireGrants(db, now), g);
    var ids := Due(db, db.grants, now);
    GrantsDistinct(db);
    DueMembers(db, db.grants, now);
    ExpireAllAppends(db, ids, now);
    FindInvalidationMore(db.invalidations, Marks(ids, now), g.id);
    if Invalidated(Marks(ids, now), g.id) {
      MarksOf(ids, now, g.id);
      var i :| 0 <= i < |db.grants| && db.grants[i].id == g.id && IsDue(db, db.grants[i], now);
      SameGrant(db, i, g, now);
    }
  }

  lemma GrantsDistinct(db: Db)
    requires GrantsGood(db)
    ensures DistinctIds(db.grants)
  {
  }

  lemma SameGrant(db: Db, i: nat, g: Grant, now: int)
    requires GrantsGood(db) && i < |db.grants| && db.grants[i].id == g.id && Head(db, g.taskId) == Some(g) && IsDue(db, db.grants[i], now)
    ensures g.envelope.expiresMs <= now
  {
    hide Within, Replacement, ValidateGrant;
    FindGrantAt(db.grants, i);
  }

  lemma {:induction false} MarksOf(ids: seq<string>, now: int, id: string)
    ensures Invalidated(Marks(ids, now), id) <==> id in ids
  {
    if |ids| > 0 {
      MarksOf(ids[1..], now, id);
      assert ids == [ids[0]] + ids[1..];
      assert Marks(ids, now)[1..] == Marks(ids[1..], now);
    }
  }

  /** What an expiry writes: one row for each standing head whose time is up, by id, with the clock as the actor. */
  predicate ExpiryRows(db: Db, rows: seq<Invalidation>, now: int) {
    && (forall k | 0 <= k < |rows| :: ExpiryRow(db, rows[k], now))
    && (forall k | 1 <= k < |rows| :: Before(rows[k - 1].grantId, rows[k].grantId))
    && (forall i | 0 <= i < |db.grants| && HeadOver(db, db.grants[i], now) :: Listed(rows, db.grants[i].id))
  }

  predicate ExpiryRow(db: Db, row: Invalidation, now: int) {
    && row == Invalidation(row.grantId, "expired", "clock", now)
    && exists i :: 0 <= i < |db.grants| && db.grants[i].id == row.grantId && HeadOver(db, db.grants[i], now)
  }

  predicate Listed(rows: seq<Invalidation>, id: string) {
    exists k :: 0 <= k < |rows| && rows[k].grantId == id
  }

  predicate HeadOver(db: Db, g: Grant, now: int) {
    g.taskId in db.heads && db.heads[g.taskId] == g.id && g.envelope.expiresMs <= now && Standing(db, g)
  }

  lemma OverIsDue(db: Db, g: Grant, now: int)
    ensures HeadOver(db, g, now) <==> IsDue(db, g, now)
  {
  }

  predicate Ascending(ids: seq<string>) {
    forall k | 1 <= k < |ids| :: Before(ids[k - 1], ids[k])
  }

  lemma {:induction false} InsertAscends(ids: seq<string>, id: string)
    requires Ascending(ids) && id !in ids
    ensures Ascending(InsertById(ids, id)) && InsertById(ids, id) != []
    ensures InsertById(ids, id)[0] == id || (ids != [] && InsertById(ids, id)[0] == ids[0])
  {
    if |ids| > 0 && !Before(id, ids[0]) {
      BeforeTotal(id, ids[0]);
      assert forall k | 1 <= k < |ids[1..]| :: ids[1..][k - 1] == ids[k] && ids[1..][k] == ids[k + 1];
      InsertAscends(ids[1..], id);
      var rest := InsertById(ids[1..], id);
      assert rest[0] == id || rest[0] == ids[1];
      forall k | 1 <= k < |[ids[0]] + rest| ensures Before(([ids[0]] + rest)[k - 1], ([ids[0]] + rest)[k]) {
        if k > 1 {
          assert Before(rest[k - 2], rest[k - 1]);
        }
      }
    }
  }

  lemma {:induction false} DueAscends(db: Db, grants: seq<Grant>, now: int)
    requires DistinctIds(grants)
    ensures Ascending(Due(db, grants, now))
  {
    hide IsDue;
    if |grants| > 0 {
      var init, g := grants[..|grants| - 1], grants[|grants| - 1];
      DueAscends(db, init, now);
      DueMembers(db, init, now);
      assert g.id !in Due(db, init, now);
      InsertAscends(Due(db, init, now), g.id);
    }
  }

  lemma {:induction false} MarksAre(ids: seq<string>, now: int)
    ensures |Marks(ids, now)| == |ids|
    ensures forall k | 0 <= k < |ids| :: Marks(ids, now)[k] == Invalidation(ids[k], "expired", "clock", now)
  {
    if |ids| > 0 {
      MarksAre(ids[1..], now);
    }
  }

  lemma RowsOfDue(db: Db, now: int)
    requires DistinctIds(db.grants)
    ensures ExpiryRows(db, Marks(Due(db, db.grants, now), now), now)
  {
    hide IsDue, HeadOver, InsertById, Due, Marks, Before, ExpiryRow, Listed;
    var ids := Due(db, db.grants, now);
    DueMembers(db, db.grants, now);
    DueAscends(db, db.grants, now);
    MarksAre(ids, now);
    var rows := Marks(ids, now);
    forall k | 0 <= k < |rows| ensures ExpiryRow(db, rows[k], now) {
      assert ids[k] in ids;
      DueRow(db, ids[k], now);
    }
    forall i | 0 <= i < |db.grants| && HeadOver(db, db.grants[i], now) ensures Listed(rows, db.grants[i].id) {
      OverIsDue(db, db.grants[i], now);
      assert db.grants[i].id in ids;
      var k :| 0 <= k < |ids| && ids[k] == db.grants[i].id;
      IsListed(rows, k);
    }
  }

  lemma DueRow(db: Db, id: string, now: int)
    requires exists i :: 0 <= i < |db.grants| && db.grants[i].id == id && IsDue(db, db.grants[i], now)
    ensures ExpiryRow(db, Invalidation(id, "expired", "clock", now), now)
  {
    hide IsDue, HeadOver;
    var i :| 0 <= i < |db.grants| && db.grants[i].id == id && IsDue(db, db.grants[i], now);
    OverIsDue(db, db.grants[i], now);
  }

  lemma IsListed(rows: seq<Invalidation>, k: nat)
    requires k < |rows|
    ensures Listed(rows, rows[k].grantId)
  {
  }

  /** `expireGrants`. */
  lemma ExpiryExact(db: Db, now: int)
    requires GrantsGood(db)
    ensures var later := ExpireGrants(db, now);
            && db.invalidations <= later.invalidations && later == db.(invalidations := later.invalidations)
            && ExpiryRows(db, later.invalidations[|db.invalidations|..], now)
  {
    hide GrantsGood, ExpiryRows, Due, Marks, ExpireAll;
    GrantsDistinct(db);
    RowsOfDue(db, now);
    ExpireAllAppends(db, Due(db, db.grants, now), now);
    var rows := Marks(Due(db, db.grants, now), now);
    assert (db.invalidations + rows)[|db.invalidations|..] == rows;
  }

  lemma HeadOfTask(db: Db, taskId: string)
    requires GrantsGood(db) && Head(db, taskId).Some?
    ensures Head(db, taskId).value.taskId == taskId
    ensures FindGrant(db.grants, Head(db, taskId).value.id) == Head(db, taskId)
  {
    hide Within, Replacement, ValidateGrant;
    HeadIsNewest(db, taskId);
    FindGrantAt(db.grants, Newest(db.grants, taskId).value);
  }

  /** `checkExecution`, after the expiry of the same moment. */
  lemma AuthorizedExact(db: Db, r: Request, now: int)
    requires GrantsGood(db)
    ensures CheckAuthority(ExpireGrants(db, now), r, now).Pass? <==> Authorized(db, r, now)
  {
    hide GrantsGood, CheckGrant, MayExecute, ExpireGrants, Standing;
    ExpireKeeps(db, now);
    var expired := ExpireGrants(db, now);
    var head, found := Head(db, r.taskId), FindGrant(db.grants, r.grantId);
    assert Head(expired, r.taskId) == head;
    if head.Some? {
      HeadOfTask(db, r.taskId);
      CheckGrantExact(head.value, r, now);
      StandingIsLive(expired, head.value);
      if now < head.value.envelope.expiresMs {
        ExpirySpares(db, head.value, now);
      }
      ExecutesInTime(head.value, r, now);
    }
  }

  lemma ExecutesInTime(g: Grant, r: Request, now: int)
    ensures MayExecute(g, r, now) ==> now < g.envelope.expiresMs
  {
  }

  /** `CheckExecution`. */
  lemma CheckExecutionExact(db: Db, r: Request, now: int)
    requires GrantsGood(db)
    ensures var t := CheckExecution(db, r, now);
            && (t.reply.Ok? <==> ValidId(r.grantId) && ValidId(r.taskId) && Authorized(db, r, now))
            && t.db == (if ValidId(r.grantId) && ValidId(r.taskId) then ExpireGrants(db, now) else db)
  {
    hide GrantsGood, CheckAuthority, ExpireGrants, Authorized, ValidId;
    AuthorizedExact(db, r, now);
  }

  // ---- pages of the signal ----

  /** `ExecutionInvalidations`: the rows after the cursor, at most as many as asked for. */
  lemma PageExact(db: Db, after: int, limit: int, now: int)
    ensures var t := ExecutionInvalidations(db, after, limit, now);
            && (t.reply.Ok? <==> 0 <= after <= MAX_SAFE && 1 <= limit <= 128)
            && (t.reply.Ok? ==>
                  && t.db == ExpireGrants(db, now)
                  && |t.reply.value| == Smaller(limit, if after <= |t.db.invalidations| then |t.db.invalidations| - after else 0)
                  && forall k | 0 <= k < |t.reply.value| :: t.reply.value[k] == t.db.invalidations[after + k])
  {
    hide ExpireGrants;
  }

  function Smaller(a: int, b: int): int { if a <= b then a else b }

  /** A consumer that reads page after page, each time after what it has, while nothing is due. */
  function ReadOn(db: Db, after: nat, limit: int, now: int): seq<Invalidation>
    requires ExpireGrants(db, now) == db && 1 <= limit <= 128 && after <= |db.invalidations| <= MAX_SAFE
    decreases |db.invalidations| - after
  {
    var page := ExecutionInvalidations(db, after, limit, now).reply;
    if page.Refused? || page.value == [] || after + |page.value| > |db.invalidations| then []
    else page.value + ReadOn(db, after + |page.value|, limit, now)
  }

  /** It reads every row exactly once, in order, whatever the page size. */
  lemma {:induction false} PagesCover(db: Db, after: nat, limit: int, now: int)
    requires ExpireGrants(db, now) == db && 1 <= limit <= 128 && after <= |db.invalidations| <= MAX_SAFE
    ensures ReadOn(db, after, limit, now) == db.invalidations[after..]
    decreases |db.invalidations| - after
  {
    hide ExpireGrants, ExecutionInvalidations;
    PageExact(db, after, limit, now);
    var page := ExecutionInvalidations(db, after, limit, now).reply.value;
    if page != [] {
      PagesCover(db, after + |page|, limit, now);
      assert page + db.invalidations[after + |page|..] == db.invalidations[after..];
    }
  }

  // ---- dispatch ----

  /** A request to dispatch that is well formed: a valid decision and envelope, and an allowance of one attempt inside it. */
  predicate Formed(r: DispatchRequest) {
    && ValidId(r.id) && ValidId(r.request.grantId) && ValidId(r.request.taskId)
    && DecisionStands(r.decision) && EnvelopeStands(r.request.envelope)
    && EnvelopeStands(r.request.envelope.(budgets := r.allowance)) && BudgetsInside(r.allowance, r.request.envelope.budgets)
    && r.allowance.attempts == 1 && r.allowance.retries == 0 && r.allowance.concurrency == 1
    && r.allowance.totalMs == r.allowance.attemptMs
  }

  lemma FormedExact(r: DispatchRequest)
    ensures CheckRequest(r).Pass? <==> Formed(r)
  {
    hide ValidateDecision, DecisionStands, Validate, EnvelopeStands, Within, ValidId;
    ValidateDecisionExact(r.decision);
    ValidateExact(r.request.envelope);
    WithinExact(Bounded(r), r.request.envelope);
  }

  /** Nothing anywhere is unresolved. */
  predicate AllResolved(attempts: seq<Attempt>) {
    forall i | 0 <= i < |attempts| :: attempts[i].state == Succeeded || attempts[i].state == Failed || attempts[i].state == Cancelled || attempts[i].state == Expired
  }

  /** What the task already used and what is wanted now stay below the ceilings, in every dimension. */
  predicate WithinCeilings(used: Totals, want: Budgets, ceiling: Budgets) {
    && used.requests + want.requests <= ceiling.requests && used.subattempts + want.subattempts <= ceiling.subattempts
    && used.attemptMs + want.attemptMs <= ceiling.totalMs && used.outputTokens + want.providerOutputTokens <= ceiling.providerOutputTokens
    && used.cost + (if want.providerCostMicros.Some? then want.providerCostMicros.value else 0) <=
       (if ceiling.providerCostMicros.Some? then ceiling.providerCostMicros.value else MAX_SAFE)
  }

  /** What was used before is known in the dimensions that have a ceiling now. */
  predicate PriorKnown(d: Dispatch, ceiling: Budgets) {
    && (d.input.decision.selected.limitsProfile == NATIVE ==> ceiling.providerOutputTokens <= 0)
    && (ceiling.providerCostMicros.Some? ==> d.input.allowance.providerCostMicros.Some?)
  }

  /** The attempt fits into the task's total time counted from an earlier dispatch. */
  predicate InTimeAfter(d: Dispatch, now: int, want: Budgets, ceiling: Budgets) {
    now - d.createdMs < ceiling.totalMs && want.attemptMs <= ceiling.totalMs - (now - d.createdMs)
  }

  /** The task can afford the attempt: number, time and sums, counting everything it was ever charged. */
  predicate Affordable(dispatches: seq<Dispatch>, r: DispatchRequest, facts: Eligibility, now: int) {
    var ceiling, want, task := r.request.envelope.budgets, r.allowance, r.request.taskId;
    && (forall i | 0 <= i < |dispatches| && OfTask(dispatches[i], task) :: PriorKnown(dispatches[i], ceiling))
    && DispatchCount(dispatches, task) < ceiling.attempts && DispatchCount(dispatches, task) <= ceiling.retries
    && (forall i | 0 <= i < |dispatches| && OfTask(dispatches[i], task) :: InTimeAfter(dispatches[i], now, want, ceiling))
    && (DispatchCount(dispatches, task) > 0 ==> exists i :: 0 <= i < |dispatches| && OfTask(dispatches[i], task) && dispatches[i].createdMs <= now)
    && now + want.attemptMs <= r.request.envelope.expiresMs && now + want.attemptMs <= facts.validUntilMs
    && now + want.attemptMs <= facts.localEnvelope.expiresMs
    && WithinCeilings(Used(dispatches, task), want, ceiling)
  }

  /** Every task was only ever charged within what a sum can hold, so the loop refuses only what is unknown or unreleased. */
  lemma {:induction false} TallyExact(dispatches: seq<Dispatch>, releases: map<string, Reconciliation>, taskId: string, ceiling: Budgets)
    requires AllCharged(dispatches)
    ensures TallyTask(dispatches, releases, taskId, ceiling).Ok? <==>
            forall i | 0 <= i < |dispatches| && OfTask(dispatches[i], taskId) ::
              dispatches[i].input.id in releases && PriorKnown(dispatches[i], ceiling)
  {
    hide Charged, PriorKnown, TallyRow;
    if |dispatches| > 0 {
      var n := |dispatches| - 1;
      var init, d := dispatches[..n], dispatches[n];
      assert AllCharged(init) by {
        ChargedPrefix(dispatches, n);
      }
      TallyExact(init, releases, taskId, ceiling);
      assert forall i | 0 <= i < n :: init[i] == dispatches[i];
      if TallyTask(init, releases, taskId, ceiling).Ok? && OfTask(d, taskId) {
        CreatedLater(init);
        TallyIsSum(init, releases, taskId, ceiling);
        assert Charged(dispatches[..n], d);
        RowFits(init, d, taskId);
        RowExact(TallyTask(init, releases, taskId, ceiling).value, d, d.input.id in releases, ceiling);
      }
    }
  }

  lemma ChargedPrefix(dispatches: seq<Dispatch>, n: nat)
    requires AllCharged(dispatches) && n <= |dispatches|
    ensures AllCharged(dispatches[..n])
  {
    hide Charged;
    forall i | 0 <= i < n ensures Charged(dispatches[..n][..i], dispatches[..n][i]) {
      assert dispatches[..n][..i] == dispatches[..i];
    }
  }

  lemma CreatedLater(dispatches: seq<Dispatch>)
    requires AllCharged(dispatches)
    ensures forall i | 0 <= i < |dispatches| :: dispatches[i].createdMs >= 1
  {
    forall i | 0 <= i < |dispatches| ensures dispatches[i].createdMs >= 1 {
      assert Charged(dispatches[..i], dispatches[i]);
    }
  }

  lemma RowFits(earlier: seq<Dispatch>, d: Dispatch, taskId: string)
    requires Charged(earlier, d) && OfTask(d, taskId)
    ensures AtMost(Plus(Used(earlier, taskId), Charge(d.input.allowance)), FULL)
  {
  }

  lemma RowExact(t: Tally, d: Dispatch, released: bool, ceiling: Budgets)
    requires AtMost(Plus(t.used, Charge(d.input.allowance)), FULL)
    ensures TallyRow(t, d, released, ceiling).Ok? <==> released && PriorKnown(d, ceiling)
  {
  }

  lemma ChargeExact(dispatches: seq<Dispatch>, releases: map<string, Reconciliation>, r: DispatchRequest, facts: Eligibility, now: int)
    requires AllCharged(dispatches) && Nonnegative(Charge(r.allowance))
    requires TallyTask(dispatches, releases, r.request.taskId, r.request.envelope.budgets).Ok?
    ensures CheckCharge(TallyTask(dispatches, releases, r.request.taskId, r.request.envelope.budgets).value, r, facts, now).Pass? <==>
            Affordable(dispatches, r, facts, now)
  {
    hide TallyTask, AllCharged, PriorKnown, Used, DispatchCount;
    var ceiling, task := r.request.envelope.budgets, r.request.taskId;
    var t := TallyTask(dispatches, releases, task, ceiling).value;
    TallyExact(dispatches, releases, task, ceiling);
    CreatedLater(dispatches);
    TallyIsSum(dispatches, releases, task, ceiling);
    if t.first != 0 {
      FirstIsReached(dispatches, releases, task, ceiling);
      var i :| 0 <= i < |dispatches| && OfTask(dispatches[i], task) && dispatches[i].createdMs == t.first;
      FirstIsEarliest(dispatches, t.first, i, task, now, r.allowance, ceiling);
    }
    SumsExact(t.used, r.allowance, ceiling);
  }

  lemma SumsExact(used: Totals, want: Budgets, ceiling: Budgets)
    requires Nonnegative(Charge(want))
    ensures AtMost(used, Ceiling(ceiling)) && AtMost(Plus(used, Charge(want)), Ceiling(ceiling)) <==> WithinCeilings(used, want, ceiling)
  {
  }

  lemma FirstIsEarliest(dispatches: seq<Dispatch>, first: int, i: nat, task: string, now: int, want: Budgets, ceiling: Budgets)
    requires i < |dispatches| && OfTask(dispatches[i], task) && dispatches[i].createdMs == first
    requires forall k | 0 <= k < |dispatches| && OfTask(dispatches[k], task) :: first <= dispatches[k].createdMs
    ensures now - first < ceiling.totalMs && want.attemptMs <= ceiling.totalMs - (now - first) <==>
            forall k | 0 <= k < |dispatches| && OfTask(dispatches[k], task) :: InTimeAfter(dispatches[k], now, want, ceiling)
    ensures now >= first <==> exists k :: 0 <= k < |dispatches| && OfTask(dispatches[k], task) && dispatches[k].createdMs <= now
  {
    if forall k | 0 <= k < |dispatches| && OfTask(dispatches[k], task) :: InTimeAfter(dispatches[k], now, want, ceiling) {
      assert InTimeAfter(dispatches[i], now, want, ceiling);
    }
  }

  /** The runner has what the decision asks for. */
  predicate Equipped(wanted: Resources, capacity: Resources) {
    && wanted.cpu <= capacity.cpu && wanted.memoryBytes <= capacity.memoryBytes && wanted.diskBytes <= capacity.diskBytes
    && wanted.processes <= capacity.processes
  }

  lemma ResolvedExact(db: Db)
    requires DispatchesGood(db)
    ensures AllResolved(db.attempts) <==> ActiveOf(db.attempts) == 0
    ensures AllResolved(db.attempts) ==> forall i | 0 <= i < |db.dispatches| :: db.dispatches[i].input.id in db.releases
    ensures AllResolved(db.attempts) ==> forall taskId :: ActiveOfTask(db.attempts, taskId) == 0
    ensures AllCharged(db.dispatches)
  {
    hide AllCharged, EpochsRanked, OneActive, RowsReplay;
    ActiveZero(db.attempts);
    if AllResolved(db.attempts) {
      forall i | 0 <= i < |db.dispatches| ensures db.dispatches[i].input.id in db.releases {
        assert Terminal(db.attempts[i].state) && db.attempts[i].key == db.dispatches[i].input.id;
      }
      forall taskId ensures ActiveOfTask(db.attempts, taskId) == 0 {
        NoneOfTask(db.attempts, taskId);
      }
    }
  }

  lemma {:induction false} NoneOfTask(attempts: seq<Attempt>, taskId: string)
    requires forall i | 0 <= i < |attempts| :: Terminal(attempts[i].state)
    ensures ActiveOfTask(attempts, taskId) == 0
  {
    if |attempts| > 0 {
      NoneOfTask(attempts[..|attempts| - 1], taskId);
    }
  }

  /** `reserve`. */
  lemma ReserveExact(db: Db, r: DispatchRequest, facts: Eligibility, now: int)
    requires DispatchesGood(db) && CheckRequest(r).Pass?
    ensures Reserve(db, r, facts, now).Pass? <==>
            Equipped(r.decision.resources, facts.capacity) && AllResolved(db.attempts) && Affordable(db.dispatches, r, facts, now)
  {
    hide DispatchesGood, CheckRequest, AllCharged, AllResolved, Affordable, TallyTask, CheckCharge;
    ResolvedExact(db);
    AllowanceNonnegative(r);
    var task, ceiling := r.request.taskId, r.request.envelope.budgets;
    TallyExact(db.dispatches, db.releases, task, ceiling);
    if TallyTask(db.dispatches, db.releases, task, ceiling).Ok? {
      ChargeExact(db.dispatches, db.releases, r, facts, now);
    }
    AffordableIsKnown(db.dispatches, r, facts, now);
  }

  lemma AffordableIsKnown(dispatches: seq<Dispatch>, r: DispatchRequest, facts: Eligibility, now: int)
    ensures Affordable(dispatches, r, facts, now) ==>
            forall i | 0 <= i < |dispatches| && OfTask(dispatches[i], r.request.taskId) :: PriorKnown(dispatches[i], r.request.envelope.budgets)
  {
    hide PriorKnown, InTimeAfter, WithinCeilings, Used, DispatchCount;
  }

  predicate NoDispatch(dispatches: seq<Dispatch>, id: string) {
    forall i | 0 <= i < |dispatches| :: dispatches[i].input.id != id
  }

  /** The newest row of the facts of an id. */
  predicate NewestFacts(rows: seq<Eligibility>, id: string, facts: Eligibility) {
    exists i :: 0 <= i < |rows| && rows[i] == facts && facts.id == id && forall k | i < k < |rows| :: rows[k].id != id
  }

  lemma LastIsNewest(rows: seq<Eligibility>, id: string)
    requires |rows| > 0 && rows[|rows| - 1].id == id
    ensures NewestFacts(rows, id, rows[|rows| - 1])
  {
  }

  lemma NewestStays(rows: seq<Eligibility>, id: string, facts: Eligibility)
    requires |rows| > 0 && NewestFacts(rows[..|rows| - 1], id, facts) && rows[|rows| - 1].id != id
    ensures NewestFacts(rows, id, facts)
  {
    var init := rows[..|rows| - 1];
    var i :| 0 <= i < |init| && init[i] == facts && facts.id == id && forall k | i < k < |init| :: init[k].id != id;
    forall k | i < k < |rows| ensures rows[k].id != id {
      assert k < |init| ==> rows[k] == init[k];
    }
    assert rows[i] == facts;
  }

  lemma {:induction false} LatestExact(rows: seq<Eligibility>, id: string)
    ensures var found := LatestFacts(rows, id);
            && (found.Some? ==> NewestFacts(rows, id, found.value))
            && (found.None? ==> forall i | 0 <= i < |rows| :: rows[i].id != id)
  {
    hide NewestFacts;
    if |rows| > 0 && rows[|rows| - 1].id != id {
      var init := rows[..|rows| - 1];
      LatestExact(init, id);
      var found := LatestFacts(init, id);
      if found.Some? {
        NewestStays(rows, id, found.value);
      } else {
        assert forall i | 0 <= i < |init| :: rows[i] == init[i];
      }
    } else if |rows| > 0 {
      LastIsNewest(rows, id);
    }
  }

  /** A new dispatch is admitted: asked for in form, under the live head of a task that is not stopped, on the newest facts, which
      serve it, placed on an enabled runner that has what it takes, with nothing unresolved anywhere, and affordable. */
  ghost predicate MayDispatch(db: Db, r: DispatchRequest, now: int, w: Placement, digests: Digests) {
    && Formed(r) && NoDispatch(db.dispatches, r.id) && r.request.taskId !in db.stops && Authorized(db, r.request, now)
    && (exists facts :: NewestFacts(db.eligibility, r.decision.eligibilityId, facts) && Placed(db, r, facts, now, w, digests))
    && AllResolved(db.attempts) && AttemptCount(db.attempts, r.request.taskId) != MAX_SAFE
  }

  predicate Placed(db: Db, r: DispatchRequest, facts: Eligibility, now: int, w: Placement, digests: Digests) {
    && FactsServe(r.request, r.decision, facts, now, digests)
    && w.profileFound && w.selects && w.runnerEnabled
    && Equipped(r.decision.resources, facts.capacity) && Affordable(db.dispatches, r, facts, now)
  }

  /** What an admission writes beside the expiry: one attempt, one event and one dispatch, of the next epoch of the task. */
  predicate DispatchedTo(db: Db, t: Tx<Dispatch>, r: DispatchRequest, facts: Eligibility, now: int) {
    var epoch := AttemptCount(db.attempts, r.request.taskId) + 1;
    && t.reply == Ok(Dispatch.Dispatch(r, facts, epoch, now))
    && t.db == ExpireGrants(db, now).(
         attempts := db.attempts + [Attempt(r.id, r.request.taskId, epoch, Assigned, 1)],
         events := db.events + [Event(Derived(r.id, "message"), r.id, r.request.taskId, epoch, 1, Assign)],
         dispatches := db.dispatches + [Dispatch.Dispatch(r, facts, epoch, now)])
  }

  lemma NoDispatchExact(dispatches: seq<Dispatch>, id: string)
    ensures FindDispatch(dispatches, id).None? <==> NoDispatch(dispatches, id)
  {
  }

  lemma NewestIsLatest(rows: seq<Eligibility>, id: string, facts: Eligibility)
    requires NewestFacts(rows, id, facts)
    ensures LatestFacts(rows, id) == Some(facts)
  {
    LatestExact(rows, id);
    var i :| 0 <= i < |rows| && rows[i] == facts && facts.id == id && forall k | i < k < |rows| :: rows[k].id != id;
    var found := LatestFacts(rows, id);
    if found.Some? {
      var j :| 0 <= j < |rows| && rows[j] == found.value && found.value.id == id && forall k | j < k < |rows| :: rows[k].id != id;
    }
  }

  lemma PlacementExact(db: Db, r: DispatchRequest, facts: Eligibility, now: int, w: Placement, digests: Digests)
    requires Good(db) && CheckRequest(r).Pass?
    ensures AdmissionRefusal(ExpireGrants(db, now), r, facts, now, w, digests).Pass? <==>
            Placed(db, r, facts, now, w, digests) && AllResolved(db.attempts) && AttemptCount(db.attempts, r.request.taskId) != MAX_SAFE
  {
    hide Good, GrantsGood, DispatchesGood, CheckRequest, CheckDispatch, FactsServe, AllResolved, Affordable, Reserve, Equipped, MaxEpoch, AttemptCount;
    GoodParts(db);
    ExpireKeeps(db, now);
    var expired := ExpireGrants(db, now);
    CheckDispatchExact(r.request, r.decision, facts, now, digests);
    SameTables(db, expired);
    ReserveExact(expired, r, facts, now);
    ResolvedExact(expired);
    EpochsCount(db, r.request.taskId);
  }

  lemma GoodParts(db: Db)
    requires Good(db)
    ensures GrantsGood(db) && DispatchesGood(db)
  {
  }

  lemma SameTables(db: Db, later: Db)
    requires DispatchesGood(db) && later == db.(invalidations := later.invalidations)
    ensures DispatchesGood(later)
  {
  }

  lemma EpochsCount(db: Db, taskId: string)
    requires DispatchesGood(db)
    ensures MaxEpoch(db.attempts, taskId) == AttemptCount(db.attempts, taskId)
  {
    MaxEpochIsCount(db.attempts, taskId);
  }

  lemma AllowedExact(db: Db, r: Request, now: int)
    requires GrantsGood(db)
    ensures DispatchAllowed(ExpireGrants(db, now), r, now).Pass? <==> r.taskId !in db.stops && Authorized(db, r, now)
  {
    hide GrantsGood, CheckAuthority, Authorized, ExpireGrants;
    ExpireKeeps(db, now);
    AuthorizedExact(db, r, now);
  }

  /** `Dispatch`, in full: when a new dispatch is admitted and what it writes; and a known one is only read. */
  lemma DispatchExact(db: Db, r: DispatchRequest, now: int, w: Placement, digests: Digests)
    requires Good(db)
    ensures var t := Dispatched(db, r, now, w, digests);
            && (t.reply.Ok? && NoDispatch(db.dispatches, r.id) <==> MayDispatch(db, r, now, w, digests))
            && (MayDispatch(db, r, now, w, digests) ==>
                  exists facts :: NewestFacts(db.eligibility, r.decision.eligibilityId, facts) && DispatchedTo(db, t, r, facts, now))
            && (!MayDispatch(db, r, now, w, digests) ==> t.db.dispatches == db.dispatches && t.db.attempts == db.attempts && t.db.events == db.events)
            && (!NoDispatch(db.dispatches, r.id) ==>
                  t.db == db && (t.reply.Ok? <==> Formed(r) && Find(db.dispatches, r.id).input == r) &&
                  (t.reply.Ok? ==> t.reply.value == Find(db.dispatches, r.id)))
  {
    hide Good, GrantsGood, DispatchesGood, CheckRequest, Formed, Authorized, DispatchAllowed, Placed, AllResolved, AdmissionRefusal, ExpireGrants,
         NewestFacts, FindDispatch, LatestFacts, MaxEpoch, AttemptCount, NoDispatch;
    GoodParts(db);
    FormedExact(r);
    NoDispatchExact(db.dispatches, r.id);
    AllowedExact(db, r.request, now);
    ExpireKeeps(db, now);
    LatestExact(db.eligibility, r.decision.eligibilityId);
    EpochsCount(db, r.request.taskId);
    var facts := LatestFacts(db.eligibility, r.decision.eligibilityId);
    if facts.Some? && CheckRequest(r).Pass? {
      PlacementExact(db, r, facts.value, now, w, digests);
      forall other | NewestFacts(db.eligibility, r.decision.eligibilityId, other) ensures other == facts.value {
        NewestIsLatest(db.eligibility, r.decision.eligibilityId, other);
      }
    } else if facts.None? {
      NoNewest(db.eligibility, r.decision.eligibilityId);
    }
  }

  lemma NoNewest(rows: seq<Eligibility>, id: string)
    requires forall i | 0 <= i < |rows| :: rows[i].id != id
    ensures forall facts :: !NewestFacts(rows, id, facts)
  {
  }

  function Find(dispatches: seq<Dispatch>, id: string): Dispatch
    requires !NoDispatch(dispatches, id)
  {
    NoDispatchExact(dispatches, id);
    dispatches[FindDispatch(dispatches, id).value]
  }
}
