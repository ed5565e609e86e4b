/** What it takes for an expiry to stick (`internal/store/dispatch.go:244-258`, `:525-531`, `:627-636`,
    `internal/store/grants.go:282-293`, `internal/store/store.go:263-286`): the heads that are due at a reading of the clock
    are invalidated for good exactly if the transaction that expired them commits. */
module StoreExpiry {
  import opened Text
  import opened Authority
  import opened Scheduling
  import opened StoreModel
  import opened GrantInvariant
  import opened StoreTheorems
  import opened StoreResults

  predicate HeadDue(db: Db, grantId: string, seen: int) {
    exists g :: g in db.grants && g.id == grantId && Head(db, g.taskId) == Some(g) && g.envelope.expiresMs <= seen
  }

  lemma DueIsInvalidated(db: Db, grantId: string, seen: int)
    requires Good(db) && HeadDue(db, grantId, seen)
    ensures Invalidated(ExpireGrants(db, seen).invalidations, grantId)
  {
    hide Good, Later, ExpireGrants, FindInvalidation;
    GrantsOfGood(db);
    ExpireKeeps(db, seen);
    var g :| g in db.grants && g.id == grantId && Head(db, g.taskId) == Some(g) && g.envelope.expiresMs <= seen;
    var i :| 0 <= i < |db.grants| && db.grants[i] == g;
    if Invalidated(db.invalidations, g.id) {
      ExpiryIsLater(db, seen);
      StillInvalidated(db, ExpireGrants(db, seen), g.id);
    } else {
      assert IsDue(db, db.grants[i], seen);
    }
  }

  /** The caller and the message are such that the acknowledgement is looked at as a new one. */
  predicate NewToStore(db: Db, caller: Caller, id: string, ack: Ack) {
    var at := FindDispatch(db.dispatches, id);
    && ValidId(id) && ValidAck(ack) && at.Some? && id !in db.acks
    && caller.runner && caller.id == db.dispatches[at.value].facts.repository.runnerRoot.runnerId
  }

  /** The reading of the clock at which an operation expires heads, if it gets that far. */
  function ExpiresAt(db: Db, op: Op): Option<int> {
    match op
    case CheckAuthorityOf(r, now) => if ValidId(r.grantId) && ValidId(r.taskId) then Some(now) else None
    case ReadInvalidations(after, limit, now) => if 0 <= after <= MAX_SAFE && 1 <= limit <= 128 then Some(now) else None
    case Admit(r, now, _) => if CheckRequest(r).Pass? && FindDispatch(db.dispatches, r.id).None? then Some(now) else None
    case Deliver(_, _, due, _, _) => Some(due)
    case Acknowledge(caller, id, ack, due, _, _) => if NewToStore(db, caller, id, ack) then Some(due) else None
    case Restart(now, _) => Some(now)
    case _ => None
  }

  /** The operation returns without a commit after it expired heads: an admission refused although the authority allows it, an
      acknowledgement refused although the dispatch is deliverable, or an opening whose recovery is refused. */
  predicate RollsBack(db: Db, op: Op, site: Site) {
    match op
    case Admit(r, now, w) =>
      DispatchAllowed(ExpireGrants(db, now), r.request, now).Pass? && Dispatched(db, r, now, w, site.digests).reply.Refused?
    case Acknowledge(caller, id, ack, due, now, w) =>
      && Deliverable(ExpireGrants(db, due), caller, id, now, w, site.digests).Ok?
      && Acknowledged(db, caller, id, ack, due, now, w, site.digests, site.generation).reply.Refused?
    case Restart(now, boot) => Restarted(db, now, boot).reply.Refused?
    case _ => false
  }

  // ---- one operation ----

  lemma AdmissionCommits(db: Db, r: DispatchRequest, now: int, w: Placement, site: Site)
    requires CheckRequest(r).Pass? && FindDispatch(db.dispatches, r.id).None?
    ensures var later := Dispatched(db, r, now, w, site.digests).db;
            if RollsBack(db, Admit(r, now, w), site) then later == db
            else later.invalidations == ExpireGrants(db, now).invalidations
  {
    hide ExpireGrants, CheckRequest, DispatchAllowed, AdmissionRefusal, FindDispatch, LatestFacts, MaxEpoch;
  }

  lemma AcknowledgementCommits(db: Db, caller: Caller, id: string, ack: Ack, due: int, now: int, w: Placement, site: Site)
    requires NewToStore(db, caller, id, ack)
    ensures var later := Acknowledged(db, caller, id, ack, due, now, w, site.digests, site.generation).db;
            if RollsBack(db, Acknowledge(caller, id, ack, due, now, w), site) then later == db
            else later.invalidations == ExpireGrants(db, due).invalidations
  {
    hide ExpireGrants, ValidAck, ValidId, Deliverable, FindDispatch, MessageTaken, IdentityOf;
  }

  lemma {:induction false} RecoveryExpiresNothing(db: Db, n: nat)
    requires n <= |db.attempts|
    ensures Recovered(db, n).Ok? ==> Recovered(db, n).value.invalidations == db.invalidations
  {
    hide CheckTransition;
    if n > 0 {
      RecoveryExpiresNothing(db, n - 1);
    }
  }

  /** An operation that expires heads leaves exactly the invalidations of the expiry, or leaves everything as it was. */
  lemma ExpiryCommits(db: Db, op: Op, site: Site)
    requires ExpiresAt(db, op).Some?
    ensures if RollsBack(db, op, site) then Step(db, op, site) == db
            else Step(db, op, site).invalidations == ExpireGrants(db, ExpiresAt(db, op).value).invalidations
  {
    hide ExpireGrants, CheckAuthority, Dispatched, Deliverable, Acknowledged, Recovered, NewToStore, CheckRequest, FindDispatch, ValidId;
    match op
    case Admit(r, now, w) => AdmissionCommits(db, r, now, w, site);
    case Acknowledge(caller, id, ack, due, now, w) => AcknowledgementCommits(db, caller, id, ack, due, now, w, site);
    case Restart(now, boot) =>
      var expired := ExpireGrants(db, now).(boot := boot);
      RecoveryExpiresNothing(expired, |expired.attempts|);
    case _ =>
  }

  // ---- runs ----

  /** Whatever operation saw that a head's time is up: the head is invalidated by it if and only if it commits. If it does, the
      grant is refused for good, even if the clock goes back; if it does not, nothing has changed at all. */
  lemma ExpiryIsSticky(ops: seq<Op>, op: Op, more: seq<Op>, site: Site, seen: int, r: Request, now: int)
    requires ExpiresAt(Run(ops, site), op) == Some(seen) && HeadDue(Run(ops, site), r.grantId, seen)
    ensures var db := Run(ops, site);
            && (Invalidated(Run(ops + [op], site).invalidations, r.grantId) <==>
                  !RollsBack(db, op, site) || Invalidated(db.invalidations, r.grantId))
            && (!RollsBack(db, op, site) ==> CheckExecution(Run(ops + [op] + more, site), r, now).reply.Refused?)
            && (RollsBack(db, op, site) ==> Run(ops + [op], site) == db)
  {
    hide Run, Step, Good, HeadDue, Invalidated, CheckExecution, RollsBack, ExpiresAt, ExpireGrants;
    RunsAreGood(ops, site);
    RunMore(ops, op, site);
    ExpiryCommits(Run(ops, site), op, site);
    DueIsInvalidated(Run(ops, site), r.grantId, seen);
    if !RollsBack(Run(ops, site), op, site) {
      InvalidatedForever(ops + [op], more, site, r, now);
    }
  }

  // ---- a run in which the expiry does not stick ----

  function SampleId(c: char): string { SAMPLE_RUNNER[..35] + [c] }

  function SampleUntil(expiresMs: int): Envelope {
    SampleEnvelope(SAMPLE_REVISION, SampleRoute("a", 1)).(expiresMs := expiresMs)
  }

  function SampleGrant(id: char, task: char, expiresMs: int): Grant {
    Grant(SampleId(id), SampleId(task), 1, "a", SampleUntil(expiresMs))
  }

  function RequestOf(g: Grant): Request { Request(g.id, g.taskId, 1, "execute", g.envelope) }

  const SHORT := SampleGrant('1', 'a', 100)
  const LONG := SampleGrant('2', 'b', 1000)

  const SAMPLE_ASSESSMENT := Assessment(SampleId('b'), SAMPLE_REVISION, SAMPLE_REVISION, SAMPLE_DIGEST, "r", "w", "a", "c", [], [], ["e"],
                                        [], false, 1, false, false, "operator-v1", "s")
  const SAMPLE_DECISION := Decision(SampleId('3'), 1, SAMPLE_ASSESSMENT, "e", SAMPLE_REVISION, SampleRoute("a", 1), [], "a", "r",
                                    Resources(1, 1, 1, 1))
  const SAMPLE_DISPATCH := DispatchRequest(SampleId('4'), RequestOf(LONG), SAMPLE_DECISION, SAMPLE_BUDGETS)

  /** Two approvals, and the tables after them. */
  const APPROVALS := [Approve("", SHORT, 10), Approve("", LONG, 10)]
  const APPROVED := EMPTY.(grants := [SHORT, LONG], heads := map[SHORT.taskId := SHORT.id, LONG.taskId := LONG.id],
                           approved := map[SHORT.taskId := SHORT.envelope, LONG.taskId := LONG.envelope])

  lemma SampleIdValid(c: char)
    requires HexDigit(c)
    ensures ValidId(SampleId(c)) && SampleId(c)[35] == c && SampleId(c) != ""
  {
    SampleRunner();
  }

  lemma SampleValid()
    ensures Validate(SampleEnvelope(SAMPLE_REVISION, SampleRoute("a", 1))).Pass?
  {
    hide Validate, WellFormedRoute, CheckTargets, SampleEnvelope, SampleRoute;
    SampleRouteIsValid("a", 1);
    SampleIsValid(SAMPLE_REVISION, SampleRoute("a", 1));
  }

  lemma UntilValid(expiresMs: int)
    requires 1 < expiresMs <= MAX_SAFE
    ensures Validate(SampleUntil(expiresMs)).Pass?
  {
    hide SampleEnvelope, CheckRoutes, ValidSet, ValidBudgets, ValidRevision, Commit, Reference, Ordered, SampleRoute;
    SampleValid();
    SampleStart();
  }

  lemma SampleStart()
    ensures SampleEnvelope(SAMPLE_REVISION, SampleRoute("a", 1)).notBeforeMs == 1
    ensures var e := SampleEnvelope(SAMPLE_REVISION, SampleRoute("a", 1)); |e.routes| == 1 && |e.runners| == 1 && |e.taskKinds| == 1
    ensures SampleEnvelope(SAMPLE_REVISION, SampleRoute("a", 1)).budgets == SAMPLE_BUDGETS
  {
  }

  lemma GrantValid(id: char, task: char, expiresMs: int)
    requires HexDigit(id) && HexDigit(task) && 1 < expiresMs <= MAX_SAFE
    ensures ValidateGrant(SampleGrant(id, task, expiresMs)).Pass?
  {
    hide Validate, ValidId, SampleUntil, SampleId;
    SampleIdValid(id);
    SampleIdValid(task);
    UntilValid(expiresMs);
  }

  lemma GrantChecks(id: char, task: char, expiresMs: int, now: int)
    requires HexDigit(id) && HexDigit(task) && 1 < expiresMs <= MAX_SAFE && 1 <= now < expiresMs
    ensures var g := SampleGrant(id, task, expiresMs); CheckGrant(g, RequestOf(g), now).Pass?
  {
    hide Validate, ValidId, SampleId, Within, ValidateGrant, SampleEnvelope, SampleRoute;
    SampleIdValid(id);
    SampleIdValid(task);
    GrantValid(id, task, expiresMs);
    UntilValid(expiresMs);
    WithinReflexive(SampleUntil(expiresMs));
    SampleStart();
  }

  lemma Different()
    ensures SHORT.id != LONG.id && SHORT.taskId != LONG.taskId && SHORT.id != "" && LONG.id != ""
  {
    hide ValidId, SampleId;
    SampleIdValid('1');
    SampleIdValid('2');
    SampleIdValid('a');
    SampleIdValid('b');
  }

  lemma Samples()
    ensures SHORT.revision == LONG.revision == 1 && SHORT.envelope.expiresMs == 100 && LONG.envelope.expiresMs == 1000
    ensures ValidateGrant(SHORT).Pass? && ValidateGrant(LONG).Pass?
    ensures CheckGrant(SHORT, RequestOf(SHORT), 50).Pass? && CheckGrant(LONG, RequestOf(LONG), 200).Pass?
    ensures ValidId(SHORT.id) && ValidId(SHORT.taskId) && ValidId(LONG.id) && ValidId(LONG.taskId)
  {
    hide ValidateGrant, CheckGrant, ValidId, SampleId, RequestOf;
    GrantValid('1', 'a', 100);
    GrantValid('2', 'b', 1000);
    GrantChecks('1', 'a', 100, 50);
    GrantChecks('2', 'b', 1000, 200);
    SampleIdValid('1');
    SampleIdValid('2');
    SampleIdValid('a');
    SampleIdValid('b');
  }

  /** The first approval of a task. */
  lemma Approves(db: Db, g: Grant, now: int)
    requires ValidateGrant(g).Pass? && g.taskId !in db.heads && FindGrant(db.grants, g.id).None? && g.revision == 1 && now < g.envelope.expiresMs
    ensures ChangeExecution(db, "", g, true, now).db == InsertGrant(db, g, true)
  {
    hide ValidateGrant, FindGrant;
  }

  lemma TwoApprovals(site: Site)
    ensures Run(APPROVALS, site) == APPROVED
  {
    hide ValidateGrant, ChangeExecution, Run, SampleGrant, SHORT, LONG;
    Samples();
    Different();
    var one := [Approve("", SHORT, 10)];
    assert [] + one == one && APPROVALS == one + [Approve("", LONG, 10)];
    NothingRun(site);
    RunMore([], one[0], site);
    RunMore(one, Approve("", LONG, 10), site);
    Approves(EMPTY, SHORT, 10);
    Approves(InsertGrant(EMPTY, SHORT, true), LONG, 10);
  }

  lemma NothingRun(site: Site)
    ensures Run([], site) == EMPTY
  {
  }

  lemma WhoIsDue(now: int)
    requires now < 1000
    ensures (IsDue(APPROVED, SHORT, now) <==> 100 <= now) && !IsDue(APPROVED, LONG, now)
  {
    hide SHORT, LONG;
    Samples();
    Different();
  }

  lemma DueIds(now: int)
    requires now < 1000
    ensures Due(APPROVED, APPROVED.grants, now) == if now < 100 then [] else [SHORT.id]
  {
    hide SHORT, LONG, IsDue;
    WhoIsDue(now);
    DueTwo(APPROVED, SHORT, LONG, now);
  }

  lemma DueTwo(db: Db, a: Grant, b: Grant, now: int)
    requires !IsDue(db, b, now)
    ensures Due(db, [a, b], now) == if IsDue(db, a, now) then [a.id] else []
  {
    hide IsDue;
    assert [a, b][..1] == [a] && [a][..0] == [];
    assert Due(db, [], now) == [];
    assert Due(db, [a], now) == if IsDue(db, a, now) then [a.id] else [];
  }

  lemma OneExpiry(db: Db, id: string, now: int)
    ensures ExpireAll(db, [id], now) == db.(invalidations := db.invalidations + [Invalidation(id, "expired", "clock", now)])
  {
    assert [id][1..] == [];
  }

  lemma ShortIsDue(now: int)
    requires now < 1000
    ensures ExpireGrants(APPROVED, now) ==
            if now < 100 then APPROVED else APPROVED.(invalidations := [Invalidation(SHORT.id, "expired", "clock", now)])
  {
    hide SHORT, LONG, Due;
    DueIds(now);
    OneExpiry(APPROVED, SHORT.id, now);
    assert APPROVED.invalidations == [];
    assert ExpireAll(APPROVED, [], now) == APPROVED;
  }

  lemma HeadsAre()
    ensures Head(APPROVED, SHORT.taskId) == FindGrant(APPROVED.grants, SHORT.id) == Some(SHORT)
    ensures Head(APPROVED, LONG.taskId) == FindGrant(APPROVED.grants, LONG.id) == Some(LONG)
  {
    hide SHORT, LONG;
    Different();
    assert APPROVED.grants[1..] == [LONG];
  }

  lemma ShortPasses()
    ensures CheckExecution(APPROVED, RequestOf(SHORT), 50).reply.Ok?
  {
    hide SHORT, LONG, APPROVED, CheckGrant, ExpireGrants, ValidId;
    Samples();
    HeadsAre();
    ShortIsDue(50);
    NoInvalidations();
  }

  lemma NoInvalidations()
    ensures APPROVED.invalidations == [] && APPROVED.eligibility == [] && APPROVED.dispatches == [] && APPROVED.stops == {}
  {
  }

  lemma LongAllowed()
    ensures DispatchAllowed(ExpireGrants(APPROVED, 200), RequestOf(LONG), 200).Pass?
  {
    hide SHORT, LONG, APPROVED, CheckGrant, ExpireGrants, ValidId;
    Samples();
    Different();
    HeadsAre();
    ShortIsDue(200);
    NoInvalidations();
    var invalidations := [Invalidation(SHORT.id, "expired", "clock", 200)];
    assert FindInvalidation(invalidations, LONG.id).None?;
  }

  lemma DecisionValid()
    ensures ValidateDecision(SAMPLE_DECISION).Pass?
  {
    hide ValidId, SampleId, SampleRoute;
    SampleIdValid('3');
    SampleIdValid('b');
  }

  lemma DispatchValid()
    ensures CheckRequest(SAMPLE_DISPATCH).Pass?
  {
    hide ValidId, SampleId, ValidateDecision, Validate, Within, SampleEnvelope, SampleRoute;
    SampleIdValid('4');
    Samples();
    DecisionValid();
    UntilValid(1000);
    WithinReflexive(SampleUntil(1000));
    SampleStart();
    assert Bounded(SAMPLE_DISPATCH) == SampleUntil(1000);
  }

  lemma RequestIs()
    ensures SAMPLE_DISPATCH.request == RequestOf(LONG)
  {
  }

  lemma NoFactsRollsBack(site: Site, w: Placement)
    ensures ExpiresAt(APPROVED, Admit(SAMPLE_DISPATCH, 200, w)) == Some(200)
    ensures RollsBack(APPROVED, Admit(SAMPLE_DISPATCH, 200, w), site)
  {
    hide SHORT, LONG, APPROVED, CheckRequest, DispatchAllowed, ExpireGrants, SAMPLE_DISPATCH, RequestOf, AdmissionRefusal;
    DispatchValid();
    LongAllowed();
    NoInvalidations();
    RequestIs();
    ShortIsDue(200);
  }

  lemma ShortIsHeadDue()
    ensures HeadDue(APPROVED, SHORT.id, 200)
  {
    hide SHORT, LONG;
    Samples();
    HeadsAre();
    assert SHORT in APPROVED.grants;
  }

  /** A grant seen expired by an admission for another task, which is then refused for lack of facts, passes again when the
      clock goes back; seen by a read of the signal at the same time, it does not. */
  lemma RolledBackExpiry(site: Site, w: Placement)
    ensures var seen, admission := Run(APPROVALS, site), Admit(SAMPLE_DISPATCH, 200, w);
            && HeadDue(seen, SHORT.id, 200) && ExpiresAt(seen, admission) == Some(200) && RollsBack(seen, admission, site)
            && CheckExecution(Run(APPROVALS + [admission], site), RequestOf(SHORT), 50).reply.Ok?
            && CheckExecution(Run(APPROVALS + [ReadInvalidations(0, 1, 200)], site), RequestOf(SHORT), 50).reply.Refused?
  {
    hide Run, SHORT, APPROVED, APPROVALS, CheckExecution, RollsBack, HeadDue, SAMPLE_DISPATCH, CheckRequest, FindDispatch, Invalidated;
    TwoApprovals(site);
    NoFactsRollsBack(site, w);
    ShortIsHeadDue();
    ShortPasses();
    var admission, read := Admit(SAMPLE_DISPATCH, 200, w), ReadInvalidations(0, 1, 200);
    assert !RollsBack(APPROVED, read, site) by {
      ReadCommits(APPROVED, site);
    }
    ExpiryIsSticky(APPROVALS, admission, [], site, 200, RequestOf(SHORT), 50);
    ExpiryIsSticky(APPROVALS, read, [], site, 200, RequestOf(SHORT), 50);
    assert APPROVALS + [read] + [] == APPROVALS + [read];
  }

  lemma ReadCommits(db: Db, site: Site)
    ensures !RollsBack(db, ReadInvalidations(0, 1, 200), site)
  {
  }
}
