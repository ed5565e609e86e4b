/** The promises of the store, for every reachable state. */
module StoreResults {
  import opened Text
  import opened Authority
  import opened Scheduling
  import opened StoreModel
  import opened GrantInvariant
  import opened DispatchInvariant
  import opened StoreTheorems

  // ---- charges ----

  /** Row i is the task's most recent dispatch. */
  predicate MostRecent(dispatches: seq<Dispatch>, taskId: string, i: nat) {
    i < |dispatches| && OfTask(dispatches[i], taskId) && forall k | i < k < |dispatches| :: !OfTask(dispatches[k], taskId)
  }

  lemma {:induction false} UpToMostRecent(dispatches: seq<Dispatch>, taskId: string, i: nat)
    requires MostRecent(dispatches, taskId, i)
    ensures Used(dispatches, taskId) == Plus(Used(dispatches[..i], taskId), Charge(dispatches[i].input.allowance))
    ensures DispatchCount(dispatches, taskId) == DispatchCount(dispatches[..i], taskId) + 1
  {
    if i < |dispatches| - 1 {
      var init := dispatches[..|dispatches| - 1];
      assert init[..i] == dispatches[..i];
      UpToMostRecent(init, taskId, i);
    }
  }

  /** Whatever was approved, stopped, reconciled or restarted in between: all a task was ever charged, released or not,
      lies within the ceilings of its most recently admitted request, in number of dispatches and in each of the five
      dimensions; under a cost cap every earlier cost is known; and no partial sum leaves the safe integers. */
  lemma ChargesConserved(ops: seq<Op>, site: Site, taskId: string, i: nat)
    requires MostRecent(Run(ops, site).dispatches, taskId, i)
    ensures var rows := Run(ops, site).dispatches;
            var b := rows[i].input.request.envelope.budgets;
            && AtMost(Used(rows, taskId), Ceiling(b))
            && DispatchCount(rows, taskId) <= b.attempts && DispatchCount(rows, taskId) <= b.retries + 1
            && (b.providerCostMicros.Some? ==> CostsKnown(rows, taskId))
            && forall n | 0 <= n <= |rows| :: Nonnegative(Used(rows[..n], taskId)) && AtMost(Used(rows[..n], taskId), FULL)
  {
    hide Run, Step, Used, DispatchCount, AtMost, Good, Charged;
    RunsAreGood(ops, site);
    ChargesOfGood(Run(ops, site));
    ConservedRows(Run(ops, site).dispatches, taskId, i);
  }

  lemma ChargesOfGood(db: Db)
    requires Good(db)
    ensures AllCharged(db.dispatches)
  {
    hide AllCharged, GrantsGood, Aligned, EpochsRanked, OneActive, ReleasedTerminal, RowsReplay;
  }

  lemma ConservedRows(rows: seq<Dispatch>, taskId: string, i: nat)
    requires AllCharged(rows) && MostRecent(rows, taskId, i)
    ensures var b := rows[i].input.request.envelope.budgets;
            && AtMost(Used(rows, taskId), Ceiling(b))
            && DispatchCount(rows, taskId) <= b.attempts && DispatchCount(rows, taskId) <= b.retries + 1
            && (b.providerCostMicros.Some? ==> CostsKnown(rows, taskId))
            && forall n | 0 <= n <= |rows| :: Nonnegative(Used(rows[..n], taskId)) && AtMost(Used(rows[..n], taskId), FULL)
  {
    hide AllCharged, Charged;
    UpToMostRecent(rows, taskId, i);
    ChargedAt(rows, taskId, i);
    ChargesNonnegative(rows);
    hide Used, DispatchCount;
    forall n | 0 <= n <= |rows| ensures Nonnegative(Used(rows[..n], taskId)) && AtMost(Used(rows[..n], taskId), FULL) {
      PartialSumsGrow(rows, taskId, n);
    }
  }

  lemma ChargesNonnegative(rows: seq<Dispatch>)
    requires AllCharged(rows)
    ensures forall i | 0 <= i < |rows| :: Nonnegative(Charge(rows[i].input.allowance))
  {
    hide Used, DispatchCount, Timely, AtMost, Ceiling, Nonnegative;
    forall i | 0 <= i < |rows| ensures Nonnegative(Charge(rows[i].input.allowance)) {
      assert Charged(rows[..i], rows[i]);
    }
  }

  lemma ChargedAt(rows: seq<Dispatch>, taskId: string, i: nat)
    requires AllCharged(rows) && MostRecent(rows, taskId, i)
    ensures var b := rows[i].input.request.envelope.budgets;
            && AtMost(Plus(Used(rows[..i], taskId), Charge(rows[i].input.allowance)), Ceiling(b)) && AtMost(Ceiling(b), FULL)
            && DispatchCount(rows[..i], taskId) + 1 <= b.attempts && DispatchCount(rows[..i], taskId) <= b.retries
            && (b.providerCostMicros.Some? ==> CostsKnown(rows, taskId))
  {
    hide Used, DispatchCount, Timely, AtMost, Ceiling;
    assert Charged(rows[..i], rows[i]);
    assert forall k | 0 <= k < i :: rows[..i][k] == rows[k];
  }

  // ---- attempts ----

  /** At most one attempt of the whole store is unresolved; a task's epochs are 1 to n; an attempt is terminal exactly when
      its dispatch was released; and every attempt row is the replay of its own append-only events, as many as its
      revision. */
  lemma AttemptsAreAccounted(ops: seq<Op>, site: Site)
    ensures var db := Run(ops, site);
            && |db.attempts| == |db.dispatches|
            && (forall i, k | 0 <= i < k < |db.attempts| :: Terminal(db.attempts[i].state) || Terminal(db.attempts[k].state))
            && (forall i | 0 <= i < |db.attempts| :: db.attempts[i].epoch == AttemptCount(db.attempts[..i], db.attempts[i].taskId) + 1)
            && (forall i | 0 <= i < |db.attempts| :: Terminal(db.attempts[i].state) <==> db.dispatches[i].input.id in db.releases)
            && (forall i | 0 <= i < |db.attempts| :: RowReplays(db.attempts[i], db.events))
  {
    hide Run, GrantsGood, AllCharged, RowReplays;
    RunsAreGood(ops, site);
  }

  /** While any attempt anywhere is unresolved, nothing new is dispatched. */
  lemma UnresolvedBlocksAll(ops: seq<Op>, site: Site, i: nat, r: DispatchRequest, now: int, w: Placement)
    requires i < |Run(ops, site).attempts| && !Terminal(Run(ops, site).attempts[i].state)
    ensures Dispatched(Run(ops, site), r, now, w, site.digests).db.dispatches == Run(ops, site).dispatches
  {
    hide Run, GrantsGood, DispatchesGood, CheckRequest, DispatchAllowed, CheckDispatch;
    RunsAreGood(ops, site);
    var db := Run(ops, site);
    ExpireKeeps(db, now);
    ActiveZero(db.attempts);
  }

  // ---- grants ----

  /** A task's grants carry exactly the revisions 1 to n, in the order of insertion and with the head at n; at most the head
      is live, every other one was invalidated, and each at most once. */
  lemma GrantsAreAccounted(ops: seq<Op>, site: Site, taskId: string, i: nat, now: int)
    requires i < |Run(ops, site).grants| && Run(ops, site).grants[i].taskId == taskId
    ensures var db := Run(ops, site);
            var n := CountOfTask(db.grants, taskId);
            && db.grants[i].revision == CountOfTask(db.grants[..i], taskId) + 1
            && (forall m :: HasRank(db.grants, taskId, m) <==> 1 <= m <= n)
            && Head(db, taskId).Some? && Head(db, taskId).value.revision == n
            && (IsLive(db, db.grants[i], now) ==> Head(db, taskId) == Some(db.grants[i]))
            && (Head(db, taskId) != Some(db.grants[i]) ==> Invalidated(db.invalidations, db.grants[i].id))
            && InvalidatedOnce(db.grants, db.invalidations)
  {
    hide Run, DispatchesGood;
    RunsAreGood(ops, site);
    var db := Run(ops, site);
    HeadIsNewest(db, taskId);
    GoodRanks(db, taskId);
    RevisionsAreRanks(db, taskId);
    FindGrantAt(db.grants, i);
    if IsLive(db, db.grants[i], now) {
      OnlyHeadIsLive(db, i, now);
    }
    hide Continuing, AllValid, WithinApproval, InvalidatedOnce, HasRank;
  }

  /** Over a task's whole history no route key comes back older, even when the grants between dropped the route. */
  lemma RoutesMoveForward(ops: seq<Op>, site: Site, i: nat, k: nat, n: Route, o: Route)
    requires i < k < |Run(ops, site).grants| && Run(ops, site).grants[i].taskId == Run(ops, site).grants[k].taskId
    requires n in Run(ops, site).grants[k].envelope.routes && o in Run(ops, site).grants[i].envelope.routes
    ensures RouteForward(n, o)
    ensures NotOlder(Run(ops, site).grants[k].envelope.brief, Run(ops, site).grants[i].envelope.brief)
    ensures NotOlder(Run(ops, site).grants[k].envelope.plan, Run(ops, site).grants[i].envelope.plan)
  {
    hide Run, DispatchesGood, Replacement, RouteForward, NotOlder;
    RunsAreGood(ops, site);
    ReplacementForward(Run(ops, site).grants[k].envelope, Run(ops, site).grants[i].envelope);
  }

  // ---- containment of authority ----

  lemma LocalScopeBounded(r: DispatchRequest, facts: Eligibility)
    requires Within(Bounded(r), r.request.envelope).Pass? && Within(r.request.envelope, LocalScope(facts, r.request.envelope)).Pass?
    ensures Within(Bounded(r), LocalScope(facts, r.request.envelope)).Pass?
  {
    hide Within;
    WithinTransitive(Bounded(r), r.request.envelope, LocalScope(facts, r.request.envelope));
  }

  lemma CheckedWithinGrant(g: Grant, r: Request, now: int)
    requires CheckGrant(g, r, now).Pass?
    ensures Within(r.envelope, g.envelope).Pass? && r.grantId == g.id && r.taskId == g.taskId
    ensures g.envelope.notBeforeMs <= now < g.envelope.expiresMs
  {
    hide ValidateGrant, Within;
  }

  lemma AllowedByHead(db: Db, r: Request, now: int)
    requires DispatchAllowed(db, r, now).Pass?
    ensures Head(db, r.taskId).Some? && Within(r.envelope, Head(db, r.taskId).value.envelope).Pass?
    ensures Head(db, r.taskId).value.id == r.grantId && !Invalidated(db.invalidations, r.grantId) && r.taskId !in db.stops
    ensures now < Head(db, r.taskId).value.envelope.expiresMs
  {
    hide CheckGrant, Within;
    var g := FindGrant(db.grants, r.grantId).value;
    CheckedWithinGrant(g, r, now);
    HeadFound(db, r.taskId, r.grantId);
  }

  lemma HeadFound(db: Db, taskId: string, id: string)
    requires Head(db, taskId).Some? && Head(db, taskId).value.id == id
    ensures Head(db, taskId) == FindGrant(db.grants, id)
  {
  }

  /** Every dispatch that is admitted, after any history of approvals, restrictions, invalidations and expiry, has its
      allowance inside the envelope last explicitly approved for the task and inside the local scope of the newest facts under
      the id that its decision names, under the task's live head grant, with the task not stopped. */
  lemma AdmissionContained(ops: seq<Op>, site: Site, r: DispatchRequest, now: int, w: Placement)
    requires Dispatched(Run(ops, site), r, now, w, site.digests).db.dispatches != Run(ops, site).dispatches
    ensures var db := Run(ops, site);
            var task := r.request.taskId;
            && task in db.approved && Within(Bounded(r), db.approved[task]).Pass?
            && Head(db, task).Some? && Head(db, task).value.id == r.request.grantId && IsLive(db, Head(db, task).value, now)
            && task !in db.stops
            && var facts := LatestFacts(db.eligibility, r.decision.eligibilityId);
            && facts.Some? && Within(Bounded(r), LocalScope(facts.value, r.request.envelope)).Pass?
            && Dispatched(db, r, now, w, site.digests).reply.Ok?
            && Dispatched(db, r, now, w, site.digests).reply.value.facts == facts.value
  {
    hide Run, DispatchesGood, GrantsGood, CheckRequest, DispatchAllowed, CheckDispatch, Reserve, Within, LatestFacts, ExpireGrants;
    RunsAreGood(ops, site);
    var db := Run(ops, site);
    var task := r.request.taskId;
    ExpireKeeps(db, now);
    var expired := ExpireGrants(db, now);
    var facts := LatestFacts(expired.eligibility, r.decision.eligibilityId).value;
    AllowedByHead(expired, r.request, now);
    assert Head(db, task) == Head(expired, task);
    LiveBefore(db, expired, Head(db, task).value, now);
    RequestBounded(r);
    HeadWithinApproval(db, task);
    WithinTransitive(Bounded(r), r.request.envelope, Head(db, task).value.envelope);
    WithinTransitive(Bounded(r), Head(db, task).value.envelope, db.approved[task]);
    DispatchWithinLocal(r.request, r.decision, facts, now, site.digests);
    LocalScopeBounded(r, facts);
  }

  lemma LiveBefore(db: Db, expired: Db, g: Grant, now: int)
    requires db.invalidations <= expired.invalidations && !Invalidated(expired.invalidations, g.id) && now < g.envelope.expiresMs
    ensures IsLive(db, g, now)
  {
    var more := expired.invalidations[|db.invalidations|..];
    assert expired.invalidations == db.invalidations + more;
    FindInvalidationMore(db.invalidations, more, g.id);
  }

  lemma RequestBounded(r: DispatchRequest)
    requires CheckRequest(r).Pass?
    ensures Within(Bounded(r), r.request.envelope).Pass?
  {
    hide Validate, ValidateDecision, Within;
  }

  // ---- sticky refusals ----

  lemma StillInvalidated(db: Db, later: Db, id: string)
    requires Later(db, later) && Invalidated(db.invalidations, id)
    ensures Invalidated(later.invalidations, id)
  {
    var more := later.invalidations[|db.invalidations|..];
    assert later.invalidations == db.invalidations + more;
    FindInvalidationMore(db.invalidations, more, id);
  }

  lemma InvalidatedRefused(db: Db, r: Request, now: int)
    requires Good(db) && Invalidated(db.invalidations, r.grantId)
    ensures CheckExecution(db, r, now).reply.Refused?
  {
    hide Good, CheckGrant, Later, ExpireGrants, FindInvalidation;
    GrantsOfGood(db);
    ExpiryIsLater(db, now);
    StillInvalidated(db, ExpireGrants(db, now), r.grantId);
  }

  /** An invalidated grant never passes a check again, whatever follows and whatever the clock says. */
  lemma InvalidatedForever(ops: seq<Op>, more: seq<Op>, site: Site, r: Request, now: int)
    requires Invalidated(Run(ops, site).invalidations, r.grantId)
    ensures CheckExecution(Run(ops + more, site), r, now).reply.Refused?
  {
    hide Run, Step, Good, CheckExecution, Later, Invalidated;
    HistoryOnlyGrows(ops, more, site);
    RunsAreGood(ops + more, site);
    StillInvalidated(Run(ops, site), Run(ops + more, site), r.grantId);
    InvalidatedRefused(Run(ops + more, site), r, now);
  }

  lemma GrantsOfGood(db: Db)
    requires Good(db)
    ensures GrantsGood(db) && DispatchesGood(db)
  {
  }

  lemma ReadExpires(db: Db, after: int, limit: int, seen: int, site: Site)
    requires 0 <= after <= MAX_SAFE && 1 <= limit <= 128
    ensures Step(db, ReadInvalidations(after, limit, seen), site) == ExpireGrants(db, seen)
  {
    hide ExpireGrants;
  }

  lemma RunMore(ops: seq<Op>, op: Op, site: Site)
    ensures Run(ops + [op], site) == Step(Run(ops, site), op, site)
  {
    hide Step;
    assert (ops + [op])[..|ops|] == ops;
  }

  lemma StoppedRefuses(db: Db, site: Site, taskId: string, r: DispatchRequest, caller: Caller, ack: Ack, due: int, now: int, w: Placement)
    requires Good(db) && taskId in db.stops && r.request.taskId == taskId
    ensures Dispatched(db, r, now, w, site.digests).db.dispatches == db.dispatches
    ensures KnownAs(db, r) ==> Delivery(db, caller, r.id, due, now, w, site.digests).reply.Refused?
    ensures KnownAs(db, r) ==> Acknowledged(db, caller, r.id, ack, due, now, w, site.digests, site.generation).db.acks == db.acks
  {
    hide Good, GrantsGood, DispatchesGood, CheckRequest, CheckAuthority, CheckDispatch, AdmissionRefusal, ExpireGrants, ValidAck, ValidId,
         LatestFacts, FindAttempt, Admitted, CheckPlacement, MessageTaken;
    GrantsOfGood(db);
    ExpireKeeps(db, now);
    ExpireKeeps(db, due);
  }

  /** The dispatch request is on record under its id. */
  predicate KnownAs(db: Db, r: DispatchRequest) {
    var at := FindDispatch(db.dispatches, r.id);
    at.Some? && db.dispatches[at.value].input == r
  }

  /** A stop is sticky: after it nothing of the task is dispatched, delivered or newly acknowledged. */
  lemma StopIsSticky(ops: seq<Op>, more: seq<Op>, site: Site, taskId: string, r: DispatchRequest, caller: Caller, ack: Ack,
                     due: int, now: int, w: Placement)
    requires taskId in Run(ops, site).stops && r.request.taskId == taskId
    ensures var db := Run(ops + more, site);
            && Dispatched(db, r, now, w, site.digests).db.dispatches == db.dispatches
            && (KnownAs(db, r) ==>
                  && Delivery(db, caller, r.id, due, now, w, site.digests).reply.Refused?
                  && Acknowledged(db, caller, r.id, ack, due, now, w, site.digests, site.generation).db.acks == db.acks)
  {
    hide Run, Step, Good, Dispatched, Delivery, Acknowledged, KnownAs;
    HistoryOnlyGrows(ops, more, site);
    RunsAreGood(ops + more, site);
    StoppedRefuses(Run(ops + more, site), site, taskId, r, caller, ack, due, now, w);
  }

  /** Repeating an admitted dispatch, at any later time, only reads it. */
  lemma ReplayIsRead(ops: seq<Op>, more: seq<Op>, site: Site, i: nat, now: int, w: Placement)
    requires i < |Run(ops, site).dispatches|
    ensures var d := Run(ops, site).dispatches[i];
            Dispatched(Run(ops + more, site), d.input, now, w, site.digests) == Tx(Run(ops + more, site), Ok(d))
  {
    hide Run, Step, Good, CheckRequest, GrantsGood, Dispatched;
    HistoryOnlyGrows(ops, more, site);
    RunsAreGood(ops + more, site);
    GrantsOfGood(Run(ops + more, site));
    RowsWereChecked(ops + more, site);
    RepeatReads(Run(ops + more, site), i, now, w, site.digests);
  }

  lemma StepDispatches(db: Db, op: Op, site: Site)
    requires Good(db)
    ensures var later := Step(db, op, site).dispatches;
            later == db.dispatches ||
            (|later| == |db.dispatches| + 1 && later[..|db.dispatches|] == db.dispatches && CheckRequest(later[|db.dispatches|].input).Pass?)
  {
    hide GrantsGood, DispatchesGood, InvalidateExecution, ChangeExecution, ExpireGrants, CheckAuthority, CheckRequest, Dispatched,
         Deliverable, Recovered, Published, Acknowledged, Stopped, Reconciled;
    match op
    case Approve(expectedId, g, now) => ChangeTouches(db, expectedId, g, true, now);
    case Restrict(expectedId, g, now) => ChangeTouches(db, expectedId, g, false, now);
    case Invalidate(taskId, expectedId, actor, reason, now) => InvalidateTouches(db, taskId, expectedId, actor, reason, now);
    case CheckAuthorityOf(r, now) => ExpireKeeps(db, now);
    case ReadInvalidations(after, limit, now) => ExpireKeeps(db, now);
    case Publish(owner, expected, facts, w) => PublicationDispatchesNothing(db, owner, expected, facts, w);
    case Admit(r, now, w) => AdmissionAdds(db, r, now, w, site.digests);
    case Deliver(caller, id, due, now, w) => ExpireKeeps(db, due);
    case Acknowledge(caller, id, ack, due, now, w) => AcknowledgementDispatchesNothing(db, caller, id, ack, due, now, w, site);
    case Stop(owner, taskId) => StopTouches(db, owner, taskId);
    case Reconcile(owner, proof) => ReconcileTouches(db, owner, proof, site.generation);
    case Restart(now, boot) =>
      ExpireKeeps(db, now);
      RecoveryTouches(ExpireGrants(db, now).(boot := boot), |db.attempts|);
  }

  lemma PublicationDispatchesNothing(db: Db, owner: bool, expected: int, v: Eligibility, w: Placement)
    ensures Published(db, owner, expected, v, w).db.dispatches == db.dispatches
  {
    hide ValidateFacts, PairedElsewhere, LatestFacts;
  }

  lemma AcknowledgementDispatchesNothing(db: Db, caller: Caller, id: string, ack: Ack, due: int, now: int, w: Placement, site: Site)
    requires GrantsGood(db)
    ensures Acknowledged(db, caller, id, ack, due, now, w, site.digests, site.generation).db.dispatches == db.dispatches
  {
    hide GrantsGood, ExpireGrants, ValidAck, ValidId, FindDispatch, Deliverable, MessageTaken;
    ExpireKeeps(db, due);
  }

  lemma AdmissionAdds(db: Db, r: DispatchRequest, now: int, w: Placement, digests: Digests)
    requires GrantsGood(db)
    ensures var later := Dispatched(db, r, now, w, digests).db.dispatches;
            later == db.dispatches ||
            (|later| == |db.dispatches| + 1 && later[..|db.dispatches|] == db.dispatches && CheckRequest(later[|db.dispatches|].input).Pass?)
  {
    hide GrantsGood, ExpireGrants, CheckRequest, AdmissionRefusal, DispatchAllowed, FindDispatch, LatestFacts, MaxEpoch;
    ExpireKeeps(db, now);
  }

  lemma {:induction false} RecoveryTouches(db: Db, n: nat)
    requires n <= |db.attempts|
    ensures Recovered(db, n).Ok? ==> Recovered(db, n).value.dispatches == db.dispatches
  {
    hide CheckTransition;
    if n > 0 {
      RecoveryTouches(db, n - 1);
    }
  }

  /** Every retained dispatch passed the checks of its own request. */
  lemma {:induction false} RowsWereChecked(ops: seq<Op>, site: Site)
    ensures forall i | 0 <= i < |Run(ops, site).dispatches| :: CheckRequest(Run(ops, site).dispatches[i].input).Pass?
  {
    hide CheckRequest, Step, Good;
    if |ops| > 0 {
      var db := Run(ops[..|ops| - 1], site);
      RowsWereChecked(ops[..|ops| - 1], site);
      RunsAreGood(ops[..|ops| - 1], site);
      StepDispatches(db, ops[|ops| - 1], site);
      var later := Run(ops, site).dispatches;
      assert forall i | 0 <= i < |db.dispatches| && later != db.dispatches :: later[i] == later[..|db.dispatches|][i];
    }
  }

  lemma RepeatReads(db: Db, i: nat, now: int, w: Placement, digests: Digests)
    requires DispatchesGood(db) && i < |db.dispatches| && CheckRequest(db.dispatches[i].input).Pass?
    ensures Dispatched(db, db.dispatches[i].input, now, w, digests) == Tx(db, Ok(db.dispatches[i]))
  {
    hide CheckRequest, FindDispatch, ExpireGrants, AdmissionRefusal, DispatchAllowed, LatestFacts;
    DispatchAt(db, i);
  }

  lemma DispatchAt(db: Db, i: nat)
    requires DispatchesGood(db) && i < |db.dispatches|
    ensures FindDispatch(db.dispatches, db.dispatches[i].input.id) == Some(i)
  {
    hide AllCharged, RowsReplay, EpochsRanked, OneActive, ReleasedTerminal, FindDispatch;
    assert forall k | 0 <= k < |db.dispatches| :: db.attempts[k].key == db.dispatches[k].input.id;
  }

  /** The signal of invalidations can be replayed from any cursor: a row once read is at the same place for ever. */
  lemma SignalReplays(ops: seq<Op>, more: seq<Op>, site: Site, after: int, limit: int, now: int, later: int)
    requires ExecutionInvalidations(Run(ops, site), after, limit, now).reply.Ok?
    ensures var first := ExecutionInvalidations(Run(ops, site), after, limit, now).reply.value;
            var again := ExecutionInvalidations(Run(ops + [ReadInvalidations(after, limit, now)] + more, site), after, limit, later).reply;
            again.Ok? && first <= again.value
  {
    hide Run, Step, Good, ExpireGrants, GrantsGood;
    var read := ops + [ReadInvalidations(after, limit, now)];
    RunMore(ops, ReadInvalidations(after, limit, now), site);
    ReadExpires(Run(ops, site), after, limit, now, site);
    HistoryOnlyGrows(read, more, site);
    RunsAreGood(read + more, site);
    GrantsOfGood(Run(read + more, site));
    ExpireKeeps(Run(read + more, site), later);
  }
}
