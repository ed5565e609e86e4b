/** What holds after every sequence of store transactions, whatever the clock and the callers do. */
module StoreTheorems {
  import opened Text
  import opened Authority
  import opened Scheduling
  import opened StoreModel
  import opened GrantInvariant
  import opened DispatchInvariant

  datatype Op =
    | Approve(expectedId: string, grant: Grant, now: int)
    | Restrict(expectedId: string, grant: Grant, now: int)
    | Invalidate(taskId: string, expectedId: string, actor: string, reason: string, now: int)
    | CheckAuthorityOf(request: Request, now: int)
    | ReadInvalidations(after: int, limit: int, now: int)
    | Publish(owner: bool, expected: int, facts: Eligibility, placement: Placement)
    | Admit(dispatch: DispatchRequest, now: int, placement: Placement)
    | Deliver(caller: Caller, id: string, due: int, now: int, placement: Placement)
    | Acknowledge(caller: Caller, id: string, ack: Ack, due: int, now: int, placement: Placement)
    | Stop(owner: bool, taskId: string)
    | Reconcile(owner: bool, proof: Reconciliation)
    | Restart(now: int, boot: string)

  /** The store's identity: the digests it uses and its generation. */
  datatype Site = Site(digests: Digests, generation: string)

  function Step(db: Db, op: Op, site: Site): Db {
    match op
    case Approve(expectedId, g, now) => ChangeExecution(db, expectedId, g, true, now).db
    case Restrict(expectedId, g, now) => ChangeExecution(db, expectedId, g, false, now).db
    case Invalidate(taskId, expectedId, actor, reason, now) => InvalidateExecution(db, taskId, expectedId, actor, reason, now).db
    case CheckAuthorityOf(r, now) => CheckExecution(db, r, now).db
    case ReadInvalidations(after, limit, now) => ExecutionInvalidations(db, after, limit, now).db
    case Publish(owner, expected, facts, w) => Published(db, owner, expected, facts, w).db
    case Admit(r, now, w) => Dispatched(db, r, now, w, site.digests).db
    case Deliver(caller, id, due, now, w) => Delivery(db, caller, id, due, now, w, site.digests).db
    case Acknowledge(caller, id, ack, due, now, w) => Acknowledged(db, caller, id, ack, due, now, w, site.digests, site.generation).db
    case Stop(owner, taskId) => Stopped(db, owner, taskId).db
    case Reconcile(owner, proof) => Reconciled(db, owner, proof, site.generation).db
    case Restart(now, boot) => Restarted(db, now, boot).db
  }

  function Run(ops: seq<Op>, site: Site): Db {
    if |ops| == 0 then EMPTY else Step(Run(ops[..|ops| - 1], site), ops[|ops| - 1], site)
  }

  ghost predicate Good(db: Db) {
    GrantsGood(db) && DispatchesGood(db)
  }

  // ---- nothing is taken back ----

  predicate AttemptLater(a: Attempt, b: Attempt) {
    && b.key == a.key && b.taskId == a.taskId && b.epoch == a.epoch && a.revision <= b.revision
    && (Terminal(a.state) ==> b == a)
  }

  /** History only grows: grants, invalidations, facts, events, charges, releases, acknowledgements and stops stay, and a
      terminal attempt is immutable. */
  ghost predicate Later(db: Db, later: Db) {
    && db.grants <= later.grants && db.invalidations <= later.invalidations && db.eligibility <= later.eligibility
    && db.events <= later.events && db.dispatches <= later.dispatches && db.stops <= later.stops
    && (forall k | k in db.releases :: k in later.releases && later.releases[k] == db.releases[k])
    && (forall k | k in db.acks :: k in later.acks && later.acks[k] == db.acks[k])
    && |db.attempts| <= |later.attempts|
    && (forall i | 0 <= i < |db.attempts| :: AttemptLater(db.attempts[i], later.attempts[i]))
  }

  lemma LaterTransitive(a: Db, b: Db, c: Db)
    requires Later(a, b) && Later(b, c)
    ensures Later(a, c)
  {
    forall i | 0 <= i < |a.attempts| ensures AttemptLater(a.attempts[i], c.attempts[i]) {
      assert AttemptLater(a.attempts[i], b.attempts[i]) && AttemptLater(b.attempts[i], c.attempts[i]);
    }
  }

  /** A change of the grant, facts and acknowledgement tables alone. */
  lemma TablesLater(db: Db, later: Db)
    requires later.attempts == db.attempts && later.events == db.events && later.dispatches == db.dispatches
    requires later.releases == db.releases && later.stops == db.stops
    requires db.grants <= later.grants && db.invalidations <= later.invalidations && db.eligibility <= later.eligibility
    requires forall k | k in db.acks :: k in later.acks && later.acks[k] == db.acks[k]
    ensures Later(db, later)
  {
  }

  lemma ExpiryIsLater(db: Db, now: int)
    requires GrantsGood(db)
    ensures Later(db, ExpireGrants(db, now))
  {
    hide GrantsGood, Later, ExpireGrants;
    ExpireKeeps(db, now);
    TablesLater(db, ExpireGrants(db, now));
  }

  lemma {:induction false} RecoveryIsLater(db: Db, n: nat)
    requires n <= |db.attempts| && Recovered(db, n).Ok?
    ensures Later(db, Recovered(db, n).value)
  {
    if n > 0 {
      RecoveryIsLater(db, n - 1);
      var earlier := Recovered(db, n - 1).value;
      if Resumable(earlier.attempts[n - 1].state) {
        MoveIsLater(earlier, n - 1, Unknown, Random(|earlier.events|));
        LaterTransitive(db, earlier, Recovered(db, n).value);
      }
    }
  }

  lemma MoveIsLater(db: Db, i: nat, to: AttemptState, messageId: MessageId)
    requires i < |db.attempts| && !Terminal(db.attempts[i].state)
    ensures Later(db, Moved(db, i, to, messageId))
  {
  }

  lemma ChangeIsLater(db: Db, expectedId: string, g: Grant, approval: bool, now: int)
    ensures Later(db, ChangeExecution(db, expectedId, g, approval, now).db)
  {
    hide Later;
    ChangeTouches(db, expectedId, g, approval, now);
    TablesLater(db, ChangeExecution(db, expectedId, g, approval, now).db);
  }

  lemma InvalidationIsLater(db: Db, taskId: string, expectedId: string, actor: string, reason: string, now: int)
    ensures Later(db, InvalidateExecution(db, taskId, expectedId, actor, reason, now).db)
  {
    hide Later, InvalidateExecution;
    InvalidateGrows(db, taskId, expectedId, actor, reason, now);
    TablesLater(db, InvalidateExecution(db, taskId, expectedId, actor, reason, now).db);
  }

  lemma InvalidateGrows(db: Db, taskId: string, expectedId: string, actor: string, reason: string, now: int)
    ensures var later := InvalidateExecution(db, taskId, expectedId, actor, reason, now).db;
            later == db.(invalidations := later.invalidations) && db.invalidations <= later.invalidations
  {
    hide Head, FindInvalidation, Reference, ValidId;
  }

  lemma PublicationIsLater(db: Db, owner: bool, expected: int, v: Eligibility, w: Placement)
    ensures Later(db, Published(db, owner, expected, v, w).db)
  {
    hide Later, ValidateFacts, PairedElsewhere, LatestFacts;
    TablesLater(db, Published(db, owner, expected, v, w).db);
  }

  lemma AcknowledgementIsLater(db: Db, caller: Caller, id: string, ack: Ack, due: int, now: int, w: Placement, site: Site)
    requires GrantsGood(db)
    ensures Later(db, Acknowledged(db, caller, id, ack, due, now, w, site.digests, site.generation).db)
  {
    hide Later;
    AcknowledgementTouches(db, caller, id, ack, due, now, w, site);
    TablesLater(db, Acknowledged(db, caller, id, ack, due, now, w, site.digests, site.generation).db);
  }

  lemma AcknowledgementTouches(db: Db, caller: Caller, id: string, ack: Ack, due: int, now: int, w: Placement, site: Site)
    requires GrantsGood(db)
    ensures var later := Acknowledged(db, caller, id, ack, due, now, w, site.digests, site.generation).db;
            && later == db.(invalidations := later.invalidations, acks := later.acks) && db.invalidations <= later.invalidations
            && forall k | k in db.acks :: k in later.acks && later.acks[k] == db.acks[k]
  {
    hide GrantsGood, ExpireGrants, ValidAck, Deliverable, MessageTaken, ValidId, FindDispatch, IdentityOf, IsDue, Invalidated;
    ExpireKeeps(db, due);
  }

  lemma TerminalHasNoEdges(s: AttemptState)
    ensures Terminal(s) ==> Edges(s) == {}
  {
  }

  lemma ReconciledIsLater(db: Db, owner: bool, proof: Reconciliation, generation: string)
    ensures Later(db, Reconciled(db, owner, proof, generation).db)
  {
    hide Later, GoodEvidence, FindDispatch, Moved, Edges, Terminal;
    var attempt := FindAttempt(db.attempts, proof.dispatchId);
    LaterReflexive(db);
    if attempt.Some? && proof.dispatchId !in db.releases && proof.to in Edges(db.attempts[attempt.value].state) {
      TerminalHasNoEdges(db.attempts[attempt.value].state);
      MoveIsLater(db, attempt.value, proof.to, Derived(proof.dispatchId, "terminal"));
      ReleaseIsLater(db, Moved(db, attempt.value, proof.to, Derived(proof.dispatchId, "terminal")), proof);
    }
  }

  lemma ReleaseIsLater(db: Db, moved: Db, proof: Reconciliation)
    requires Later(db, moved) && proof.dispatchId !in db.releases
    ensures Later(db, moved.(releases := moved.releases[proof.dispatchId := proof]))
  {
  }

  lemma AdmissionIsLater(db: Db, r: DispatchRequest, now: int, w: Placement, digests: Digests)
    requires GrantsGood(db)
    ensures Later(db, Dispatched(db, r, now, w, digests).db)
  {
    hide GrantsGood, CheckRequest, DispatchAllowed, AdmissionRefusal, Later, Admitted, ExpireGrants, FindDispatch, LatestFacts;
    LaterReflexive(db);
    ExpiryIsLater(db, now);
    var expired := ExpireGrants(db, now);
    var facts := LatestFacts(expired.eligibility, r.decision.eligibilityId);
    if facts.Some? {
      AdmittedIsLater(expired, r, facts.value, now);
      LaterTransitive(db, expired, Admitted(expired, r, facts.value, now));
    }
  }

  lemma AdmittedIsLater(db: Db, r: DispatchRequest, facts: Eligibility, now: int)
    ensures Later(db, Admitted(db, r, facts, now))
  {
    hide MaxEpoch;
  }

  lemma StepIsLater(db: Db, op: Op, site: Site)
    requires Good(db)
    ensures Later(db, Step(db, op, site))
  {
    hide GrantsGood, DispatchesGood, Later, ChangeExecution, InvalidateExecution, Published, Dispatched, Acknowledged, Stopped,
         Reconciled, ExpireGrants, Recovered, Deliverable, CheckAuthority;
    LaterReflexive(db);
    match op
    case Approve(expectedId, g, now) => ChangeIsLater(db, expectedId, g, true, now);
    case Restrict(expectedId, g, now) => ChangeIsLater(db, expectedId, g, false, now);
    case Invalidate(taskId, expectedId, actor, reason, now) => InvalidationIsLater(db, taskId, expectedId, actor, reason, now);
    case CheckAuthorityOf(r, now) => ExpiryIsLater(db, now);
    case ReadInvalidations(after, limit, now) => ExpiryIsLater(db, now);
    case Publish(owner, expected, facts, w) => PublicationIsLater(db, owner, expected, facts, w);
    case Admit(r, now, w) => AdmissionIsLater(db, r, now, w, site.digests);
    case Deliver(caller, id, due, now, w) => ExpiryIsLater(db, due);
    case Acknowledge(caller, id, ack, due, now, w) => AcknowledgementIsLater(db, caller, id, ack, due, now, w, site);
    case Stop(owner, taskId) => StopIsLater(db, owner, taskId);
    case Reconcile(owner, proof) => ReconciledIsLater(db, owner, proof, site.generation);
    case Restart(now, boot) =>
      ExpiryIsLater(db, now);
      var expired := ExpireGrants(db, now).(boot := boot);
      BootIsLater(ExpireGrants(db, now), boot);
      LaterTransitive(db, ExpireGrants(db, now), expired);
      if Recovered(expired, |expired.attempts|).Ok? {
        RecoveryIsLater(expired, |expired.attempts|);
        LaterTransitive(db, expired, Recovered(expired, |expired.attempts|).value);
      }
  }

  lemma BootIsLater(db: Db, boot: string)
    ensures Later(db, db.(boot := boot))
  {
    hide Later;
    TablesLater(db, db.(boot := boot));
  }

  lemma StopIsLater(db: Db, owner: bool, taskId: string)
    ensures Later(db, Stopped(db, owner, taskId).db)
  {
    var at := FindAssigned(db.attempts, taskId);
    if at.Some? {
      MoveIsLater(db.(stops := db.stops + {taskId}), at.value, Stopping, Derived(db.attempts[at.value].key, "stop"));
    }
  }

  // ---- the invariant ----

  lemma OnlyGrantsChange(db: Db, later: Db)
    requires DispatchesGood(db)
    requires later.attempts == db.attempts && later.events == db.events && later.dispatches == db.dispatches && later.releases == db.releases
    ensures DispatchesGood(later)
  {
  }

  lemma OnlyDispatchesChange(db: Db, later: Db)
    requires GrantsGood(db)
    requires later.grants == db.grants && later.heads == db.heads && later.invalidations == db.invalidations && later.approved == db.approved
    ensures GrantsGood(later)
  {
  }

  lemma ExpiryIsGood(db: Db, now: int)
    requires Good(db)
    ensures Good(ExpireGrants(db, now))
  {
    hide GrantsGood, DispatchesGood;
    ExpireKeeps(db, now);
    OnlyGrantsChange(db, ExpireGrants(db, now));
  }

  lemma PositiveClock(db: Db, r: Request, now: int)
    requires DispatchAllowed(db, r, now).Pass?
    ensures now >= 1
  {
    hide ValidateGrant, Within;
  }

  lemma AdmissionIsGood(db: Db, r: DispatchRequest, now: int, w: Placement, digests: Digests)
    requires Good(db)
    ensures Good(Dispatched(db, r, now, w, digests).db)
  {
    hide GrantsGood, DispatchesGood, CheckRequest, DispatchAllowed, CheckDispatch, Reserve;
    var expired := ExpireGrants(db, now);
    ExpiryIsGood(db, now);
    ExpireKeeps(db, now);
    var facts := LatestFacts(expired.eligibility, r.decision.eligibilityId);
    if CheckRequest(r).Pass? && FindDispatch(db.dispatches, r.id).None? && DispatchAllowed(expired, r.request, now).Pass? && facts.Some? {
      if AdmissionRefusal(expired, r, facts.value, now, w, digests).Pass? {
        PositiveClock(expired, r.request, now);
        AdmittedKeeps(expired, r, facts.value, now);
        OnlyDispatchesChange(expired, Admitted(expired, r, facts.value, now));
      }
    }
  }

  lemma StepIsGood(db: Db, op: Op, site: Site)
    requires Good(db)
    ensures Good(Step(db, op, site))
  {
    hide GrantsGood, DispatchesGood, ChangeExecution, InvalidateExecution, Published, Dispatched, Acknowledged, Stopped, Reconciled,
         ExpireGrants, Recovered, Deliverable, CheckAuthority;
    var later := Step(db, op, site);
    match op
    case Approve(expectedId, g, now) => ChangeKeeps(db, expectedId, g, true, now); ChangeTouches(db, expectedId, g, true, now); OnlyGrantsChange(db, later);
    case Restrict(expectedId, g, now) => ChangeKeeps(db, expectedId, g, false, now); ChangeTouches(db, expectedId, g, false, now); OnlyGrantsChange(db, later);
    case Invalidate(taskId, expectedId, actor, reason, now) =>
      InvalidateExecutionKeeps(db, taskId, expectedId, actor, reason, now);
      InvalidateTouches(db, taskId, expectedId, actor, reason, now);
      OnlyGrantsChange(db, later);
    case CheckAuthorityOf(r, now) => ExpiryIsGood(db, now);
    case ReadInvalidations(after, limit, now) => ExpiryIsGood(db, now);
    case Publish(owner, expected, facts, w) => PublicationIsGood(db, owner, expected, facts, w);
    case Admit(r, now, w) => AdmissionIsGood(db, r, now, w, site.digests);
    case Deliver(caller, id, due, now, w) => ExpiryIsGood(db, due);
    case Acknowledge(caller, id, ack, due, now, w) => AcknowledgementIsGood(db, caller, id, ack, due, now, w, site);
    case Stop(owner, taskId) => StoppedKeeps(db, owner, taskId); StopTouches(db, owner, taskId); OnlyDispatchesChange(db, later);
    case Reconcile(owner, proof) =>
      ReconciledKeeps(db, owner, proof, site.generation);
      ReconcileTouches(db, owner, proof, site.generation);
      OnlyDispatchesChange(db, later);
    case Restart(now, boot) =>
      var expired := ExpireGrants(db, now).(boot := boot);
      ExpiryIsGood(db, now);
      OnlyGrantsChange(ExpireGrants(db, now), expired);
      OnlyDispatchesChange(ExpireGrants(db, now), expired);
      if Recovered(expired, |expired.attempts|).Ok? {
        RecoveredKeeps(expired, |expired.attempts|);
        OnlyDispatchesChange(expired, later);
      }
  }

  lemma PublicationIsGood(db: Db, owner: bool, expected: int, v: Eligibility, w: Placement)
    requires Good(db)
    ensures Good(Published(db, owner, expected, v, w).db)
  {
    hide GrantsGood, DispatchesGood, ValidateFacts, PairedElsewhere, LatestFacts;
    OnlyGrantsChange(db, Published(db, owner, expected, v, w).db);
    OnlyDispatchesChange(db, Published(db, owner, expected, v, w).db);
  }

  lemma AcknowledgementIsGood(db: Db, caller: Caller, id: string, ack: Ack, due: int, now: int, w: Placement, site: Site)
    requires Good(db)
    ensures Good(Acknowledged(db, caller, id, ack, due, now, w, site.digests, site.generation).db)
  {
    hide GrantsGood, DispatchesGood, ExpireGrants, ValidAck, Deliverable, MessageTaken, ValidId;
    var expired := ExpireGrants(db, due);
    ExpiryIsGood(db, due);
    OnlyGrantsChange(expired, expired.(acks := expired.acks[id := ack]));
    OnlyDispatchesChange(expired, expired.(acks := expired.acks[id := ack]));
  }

  ghost predicate GrantTablesGrow(db: Db, later: Db) {
    && later == db.(grants := later.grants, heads := later.heads, invalidations := later.invalidations, approved := later.approved)
    && db.grants <= later.grants && db.invalidations <= later.invalidations
  }

  lemma NextTouches(db: Db, previous: Grant, g: Grant, approval: bool, now: int)
    ensures GrantTablesGrow(db, NextGrant(db, previous, g, approval, now).db)
  {
    hide ChangeRefusal, ContinuityRefusal, Unchanged, Supersede, InsertGrant;
    SupersedeTouches(db, previous, g.actor, now);
    InsertTouches(Supersede(db, previous, g.actor, now), g, approval);
  }

  lemma SupersedeTouches(db: Db, previous: Grant, actor: string, now: int)
    ensures var later := Supersede(db, previous, actor, now);
            later == db.(invalidations := later.invalidations) && db.invalidations <= later.invalidations
  {
    hide FindInvalidation;
  }

  lemma InsertTouches(db: Db, g: Grant, approval: bool)
    ensures var later := InsertGrant(db, g, approval);
            later == db.(grants := later.grants, heads := later.heads, approved := later.approved) && db.grants <= later.grants
  {
  }

  lemma ChangeTouches(db: Db, expectedId: string, g: Grant, approval: bool, now: int)
    ensures GrantTablesGrow(db, ChangeExecution(db, expectedId, g, approval, now).db)
  {
    hide ValidateGrant, NextGrant, LiveGrant, Head, FindGrant, ValidId;
    var head := Head(db, g.taskId);
    if head.Some? {
      NextTouches(db, head.value, g, approval, now);
    }
  }

  lemma InvalidateTouches(db: Db, taskId: string, expectedId: string, actor: string, reason: string, now: int)
    ensures var later := InvalidateExecution(db, taskId, expectedId, actor, reason, now).db;
            later == db.(invalidations := later.invalidations)
  {
  }

  lemma StopTouches(db: Db, owner: bool, taskId: string)
    ensures var later := Stopped(db, owner, taskId).db;
            later == db.(attempts := later.attempts, events := later.events, stops := later.stops)
  {
    hide FindAssigned, Edges, ValidId;
  }

  lemma ReconcileTouches(db: Db, owner: bool, proof: Reconciliation, generation: string)
    ensures var later := Reconciled(db, owner, proof, generation).db;
            later == db.(attempts := later.attempts, events := later.events, releases := later.releases)
  {
    hide GoodEvidence, FindDispatch, FindAttempt, Edges, IdentityOf;
  }

  lemma {:induction false} RunsAreGood(ops: seq<Op>, site: Site)
    ensures Good(Run(ops, site))
  {
    if |ops| == 0 {
      EmptyGrantsGood();
      EmptyDispatchesGood();
    } else {
      RunsAreGood(ops[..|ops| - 1], site);
      StepIsGood(Run(ops[..|ops| - 1], site), ops[|ops| - 1], site);
    }
  }

  lemma {:induction false} HistoryOnlyGrows(ops: seq<Op>, more: seq<Op>, site: Site)
    ensures Later(Run(ops, site), Run(ops + more, site))
    decreases |more|
  {
    hide Good, Step, Later;
    if |more| == 0 {
      assert ops + more == ops;
      LaterReflexive(Run(ops, site));
    } else {
      var init := more[..|more| - 1];
      assert (ops + more)[..|ops + more| - 1] == ops + init;
      assert (ops + more)[|ops + more| - 1] == more[|more| - 1];
      HistoryOnlyGrows(ops, init, site);
      RunsAreGood(ops + init, site);
      StepIsLater(Run(ops + init, site), more[|more| - 1], site);
      LaterTransitive(Run(ops, site), Run(ops + init, site), Run(ops + more, site));
    }
  }

  lemma LaterReflexive(db: Db)
    ensures Later(db, db)
  {
  }
}
