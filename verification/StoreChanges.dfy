/** The other transactions of the store in the same way: grants changed and invalidated, dispatches delivered, acknowledged,
    stopped and reconciled, the store reopened, facts published (`internal/store/grants.go:105-265`,
    `internal/store/dispatch.go:97-156`, `:514-773`, `internal/store/recovery.go:12-51`, `schemas/execution/protocol.go`). */
module StoreChanges {
  import opened Text
  import opened Authority
  import opened Scheduling
  import opened AuthorityExact
  import opened StoreModel
  import opened GrantInvariant
  import opened DispatchInvariant
  import opened StoreTheorems
  import opened StoreExact
  import R = StoreResults

  // ---- changing a grant ----

  predicate LiveNow(db: Db, g: Grant, now: int) {
    Standing(db, g) && now < g.envelope.expiresMs
  }

  lemma LiveExact(db: Db, g: Grant, now: int)
    ensures LiveGrant(db, g, now).Pass? <==> LiveNow(db, g, now)
  {
  }

  predicate NewId(db: Db, id: string) {
    forall i | 0 <= i < |db.grants| :: db.grants[i].id != id
  }

  /** The envelope may follow that of every grant the task ever had. */
  predicate FollowsAll(db: Db, taskId: string, next: Envelope) {
    forall i | 0 <= i < |db.grants| && db.grants[i].taskId == taskId :: MaySucceed(next, db.grants[i].envelope)
  }

  /** The first grant of a task: explicitly approved, of revision 1. */
  predicate First(db: Db, expectedId: string, g: Grant, approval: bool) {
    Head(db, g.taskId).None? && expectedId == "" && approval && g.revision == 1
  }

  /** A later grant: after the expected head, next in revision, changing something, following everything, and unless it is
      approved, under a live head of the same actor and inside it. */
  predicate Later(db: Db, expectedId: string, g: Grant, approval: bool, now: int) {
    && Head(db, g.taskId).Some?
    && var head := Head(db, g.taskId).value;
    && head.id == expectedId && head.revision != MAX_SAFE && g.revision == head.revision + 1
    && !(LiveNow(db, head, now) && g.actor == head.actor && g.envelope == head.envelope)
    && FollowsAll(db, g.taskId, g.envelope)
    && (!approval ==> LiveNow(db, head, now) && g.actor == head.actor && Inside(g.envelope, head.envelope))
  }

  /** The grant enters the tables. */
  predicate Enters(db: Db, expectedId: string, g: Grant, approval: bool, now: int) {
    && GrantStands(g) && (expectedId == "" || ValidId(expectedId)) && NewId(db, g.id) && now < g.envelope.expiresMs
    && (First(db, expectedId, g, approval) || Later(db, expectedId, g, approval, now))
  }

  /** Nothing new is asked for: the live head again, under its own id or under another one. */
  predicate Repeats(db: Db, expectedId: string, g: Grant, approval: bool, now: int) {
    && GrantStands(g) && (expectedId == "" || ValidId(expectedId))
    && Head(db, g.taskId).Some?
    && var head := Head(db, g.taskId).value;
    && LiveNow(db, head, now)
    && if NewId(db, g.id) then
         head.id == expectedId && head.revision != MAX_SAFE && g.revision == head.revision + 1 && g.actor == head.actor && g.envelope == head.envelope
       else g == head
  }

  /** The row that ends the grant before, if it still stood. */
  function Ended(db: Db, g: Grant, now: int): seq<Invalidation> {
    var head := Head(db, g.taskId);
    if head.Some? && Standing(db, head.value)
    then [Invalidation(head.value.id, if head.value.envelope.expiresMs <= now then "expired" else "superseded", g.actor, now)] else []
  }

  function WithGrant(db: Db, g: Grant, approval: bool, now: int): Db {
    db.(grants := db.grants + [g], heads := db.heads[g.taskId := g.id], invalidations := db.invalidations + Ended(db, g, now),
        approved := if approval then db.approved[g.taskId := g.envelope] else db.approved)
  }

  lemma {:induction false} FollowsExact(grants: seq<Grant>, taskId: string, next: Envelope)
    ensures ReplacesAll(grants, taskId, next).Pass? <==>
            forall i | 0 <= i < |grants| && grants[i].taskId == taskId :: MaySucceed(next, grants[i].envelope)
  {
    hide Replacement, MaySucceed;
    if |grants| > 0 {
      var n := |grants| - 1;
      FollowsExact(grants[..n], taskId, next);
      ReplacementExact(next, grants[n].envelope);
      assert forall i | 0 <= i < n :: grants[..n][i] == grants[i];
    }
  }

  lemma FoundExact(db: Db, g: Grant)
    requires DistinctIds(db.grants)
    ensures FindGrant(db.grants, g.id).None? <==> NewId(db, g.id)
  {
  }

  lemma SupersedeExact(db: Db, g: Grant, now: int)
    ensures Head(db, g.taskId).Some? ==>
              Supersede(db, Head(db, g.taskId).value, g.actor, now) == db.(invalidations := db.invalidations + Ended(db, g, now))
  {
    assert db.invalidations + [] == db.invalidations;
  }

  lemma NextExact(db: Db, previous: Grant, expectedId: string, g: Grant, approval: bool, now: int)
    requires GrantStands(g) && NewId(db, g.id) && Head(db, g.taskId) == Some(previous) && previous.id == expectedId
    requires expectedId == "" || ValidId(expectedId)
    ensures var t := NextGrant(db, previous, g, approval, now);
            && (t.reply.Ok? <==> Enters(db, expectedId, g, approval, now) || Repeats(db, expectedId, g, approval, now))
            && (Enters(db, expectedId, g, approval, now) ==> t == Tx(WithGrant(db, g, approval, now), Ok(g)))
            && (Repeats(db, expectedId, g, approval, now) ==> t == Tx(db, Ok(previous)))
            && (t.reply.Refused? ==> t.db == db)
  {
    hide GrantStands, ValidId, Standing, LiveGrant, ReplacesAll, Within, Inside, MaySucceed, Supersede, Ended;
    LiveExact(db, previous, now);
    FollowsExact(db.grants, g.taskId, g.envelope);
    WithinExact(g.envelope, previous.envelope);
    SupersedeExact(db, g, now);
  }

  /** `changeExecution`, in full. */
  lemma ChangeExact(db: Db, expectedId: string, g: Grant, approval: bool, now: int)
    requires GrantsGood(db)
    ensures var t := ChangeExecution(db, expectedId, g, approval, now);
            && (t.reply.Ok? <==> Enters(db, expectedId, g, approval, now) || Repeats(db, expectedId, g, approval, now))
            && (Enters(db, expectedId, g, approval, now) ==> t == Tx(WithGrant(db, g, approval, now), Ok(g)))
            && (Repeats(db, expectedId, g, approval, now) ==> t == Tx(db, Ok(Head(db, g.taskId).value)))
            && (t.reply.Refused? ==> t.db == db)
  {
    hide GrantsGood, ValidateGrant, GrantStands, ValidId, Standing, LiveGrant, NextGrant, Later, FindGrant, Ended, FollowsAll;
    ValidateGrantExact(g);
    GrantsDistinct(db);
    FoundExact(db, g);
    var head := Head(db, g.taskId);
    if head.Some? {
      LiveExact(db, head.value, now);
      HeadOfTask(db, g.taskId);
      HeadHasId(db, g.taskId);
      if NewId(db, g.id) && head.value.id == expectedId && GrantStands(g) && (expectedId == "" || ValidId(expectedId)) {
        NextExact(db, head.value, expectedId, g, approval, now);
      }
      LaterExpects(db, expectedId, g, approval, now);
    } else {
      NoLater(db, expectedId, g, approval, now);
      assert db.invalidations + [] == db.invalidations;
      NothingEnded(db, g, now);
    }
  }

  lemma HeadHasId(db: Db, taskId: string)
    requires GrantsGood(db) && Head(db, taskId).Some?
    ensures Head(db, taskId).value.id != ""
  {
    hide Within, Replacement, Validate;
    HeadIsNewest(db, taskId);
  }

  lemma LaterExpects(db: Db, expectedId: string, g: Grant, approval: bool, now: int)
    ensures Later(db, expectedId, g, approval, now) ==> Head(db, g.taskId).Some? && Head(db, g.taskId).value.id == expectedId
  {
  }

  lemma NoLater(db: Db, expectedId: string, g: Grant, approval: bool, now: int)
    requires Head(db, g.taskId).None?
    ensures !Later(db, expectedId, g, approval, now)
  {
  }

  lemma NothingEnded(db: Db, g: Grant, now: int)
    requires Head(db, g.taskId).None?
    ensures Ended(db, g, now) == []
  {
  }

  /** A row says of the grant what is asked. */
  predicate EndedAs(db: Db, id: string, reason: string, actor: string) {
    exists k :: 0 <= k < |db.invalidations| && db.invalidations[k].grantId == id && db.invalidations[k].reason == reason && db.invalidations[k].actor == actor
  }

  predicate Unended(db: Db, id: string) {
    forall k | 0 <= k < |db.invalidations| :: db.invalidations[k].grantId != id
  }

  /** `InvalidateExecution`, in full. */
  lemma InvalidateExact(db: Db, taskId: string, expectedId: string, actor: string, reason: string, now: int)
    requires GrantsGood(db)
    ensures var t := InvalidateExecution(db, taskId, expectedId, actor, reason, now);
            && (t.reply.Ok? <==>
                  && ValidId(taskId) && ValidId(expectedId) && Reference(actor) && (reason == "revoked" || reason == "superseded")
                  && Head(db, taskId).Some? && Head(db, taskId).value.id == expectedId
                  && (Unended(db, expectedId) || EndedAs(db, expectedId, reason, actor)))
            && t.db == (if t.reply.Ok? && Unended(db, expectedId)
                        then db.(invalidations := db.invalidations + [Invalidation(expectedId, reason, actor, now)]) else db)
  {
    hide ValidId, Reference, Continuing, AllValid, WithinApproval, HeadsNewest, Ranked, OldInvalidated, DistinctIds, FindGrant;
    var found := FindInvalidation(db.invalidations, expectedId);
    if found.Some? {
      var k :| 0 <= k < |db.invalidations| && db.invalidations[k] == found.value;
    }
  }

  // ---- transitions ----

  /** The moves an attempt can make. */
  predicate MayMove(from: AttemptState, to: AttemptState) {
    || (from == Assigned && to == Starting) || (from == Starting && to == Running) || (from == Running && to == ResultPending)
    || (from == ResultPending && (to == Succeeded || to == Failed))
    || (from in {Assigned, Starting, Running, ResultPending, Unknown} && to == Stopping)
    || (from in {Assigned, Starting, Running, ResultPending, Stopping} && to == Unknown)
    || (from in {Stopping, Unknown} && (to == Cancelled || to == Expired))
    || (from == Unknown && to == ResultPending)
  }

  lemma TransitionExact(expected: int, from: AttemptState, to: AttemptState, state: AttemptState, revision: int)
    ensures CheckTransition(expected, from, to, state, revision).Pass? <==>
            0 < expected == revision < MAX_SAFE && from == state && MayMove(from, to)
  {
  }

  /** Row i is the dispatch of this id, with its attempt beside it. */
  predicate At(db: Db, id: string, i: nat) {
    i < |db.dispatches| && i < |db.attempts| && db.dispatches[i].input.id == id
  }

  lemma {:induction false} LastDispatch(dispatches: seq<Dispatch>, id: string, i: nat)
    requires i < |dispatches| && dispatches[i].input.id == id && forall k | i < k < |dispatches| :: dispatches[k].input.id != id
    ensures FindDispatch(dispatches, id) == Some(i)
  {
    if i < |dispatches| - 1 {
      LastDispatch(dispatches[..|dispatches| - 1], id, i);
    }
  }

  lemma {:induction false} LastAttempt(attempts: seq<Attempt>, key: string, i: nat)
    requires i < |attempts| && attempts[i].key == key && forall k | i < k < |attempts| :: attempts[k].key != key
    ensures FindAttempt(attempts, key) == Some(i)
  {
    if i < |attempts| - 1 {
      LastAttempt(attempts[..|attempts| - 1], key, i);
    }
  }

  lemma AtFound(db: Db, id: string, i: nat)
    requires DispatchesGood(db) && At(db, id, i)
    ensures FindDispatch(db.dispatches, id) == Some(i) && FindAttempt(db.attempts, id) == Some(i)
    ensures db.attempts[i].key == id && db.attempts[i].taskId == db.dispatches[i].input.request.taskId && db.attempts[i].epoch == db.dispatches[i].epoch
  {
    hide AllCharged, EpochsRanked, OneActive, ReleasedTerminal, RowsReplay, FindDispatch, FindAttempt;
    assert forall k | 0 <= k < |db.attempts| :: db.attempts[k].key == db.dispatches[k].input.id;
    LastDispatch(db.dispatches, id, i);
    LastAttempt(db.attempts, id, i);
  }

  /** The tables after attempt i moved, with the event that says so. */
  function MovedTo(db: Db, i: nat, to: AttemptState, messageId: MessageId): Db
    requires i < |db.attempts|
  {
    var a := db.attempts[i];
    db.(attempts := db.attempts[i := Attempt(a.key, a.taskId, a.epoch, to, a.revision + 1)],
        events := db.events + [Event(messageId, a.key, a.taskId, a.epoch, a.revision + 1, Move(a.state, to))])
  }

  // ---- delivery and acknowledgement ----

  /** The request is authorised at one reading of the clock, and its head was not up at the earlier one. */
  predicate AuthorizedSince(db: Db, r: Request, due: int, now: int) {
    Authorized(db, r, now) && due < Head(db, r.taskId).value.envelope.expiresMs
  }

  lemma AuthorizedSinceExact(db: Db, r: Request, due: int, now: int)
    requires GrantsGood(db)
    ensures CheckAuthority(ExpireGrants(db, due), r, now).Pass? <==> AuthorizedSince(db, r, due, now)
  {
    hide GrantsGood, CheckGrant, MayExecute, ExpireGrants, Standing;
    ExpireKeeps(db, due);
    var expired := ExpireGrants(db, due);
    var head, found := Head(db, r.taskId), FindGrant(db.grants, r.grantId);
    assert Head(expired, r.taskId) == head;
    if head.Some? {
      HeadOfTask(db, r.taskId);
      CheckGrantExact(head.value, r, now);
      StandingIsLive(expired, head.value);
      StandingIsLive(db, head.value);
      if due < head.value.envelope.expiresMs {
        ExpirySpares(db, head.value, due);
      } else {
        DueIsOver(db, head.value, due);
      }
      ExecutesInTime(head.value, r, now);
    }
  }

  lemma DueIsOver(db: Db, g: Grant, due: int)
    requires GrantsGood(db) && Head(db, g.taskId) == Some(g) && g.envelope.expiresMs <= due
    ensures !Standing(ExpireGrants(db, due), g)
  {
    hide GrantsGood, IsDue, FindInvalidation, Standing;
    ExpireKeeps(db, due);
    StandingIsLive(ExpireGrants(db, due), g);
    StandingIsLive(db, g);
    if Invalidated(db.invalidations, g.id) {
      var later := ExpireGrants(db, due).invalidations;
      assert later == db.invalidations + later[|db.invalidations|..];
      FindInvalidationMore(db.invalidations, later[|db.invalidations|..], g.id);
    } else {
      var i :| 0 <= i < |db.grants| && db.grants[i] == g;
      HeadIsDue(db, g, due);
    }
  }

  lemma HeadIsDue(db: Db, g: Grant, due: int)
    requires Head(db, g.taskId) == Some(g) && g.envelope.expiresMs <= due && !Invalidated(db.invalidations, g.id)
    ensures IsDue(db, g, due)
  {
  }

  /** An assignment may be handed to this caller: the enabled runner it is for, an assigned attempt not released, a task not
      stopped, authority, and newest facts that still serve it on a sound placement. */
  ghost predicate MayDeliver(db: Db, i: nat, caller: Caller, id: string, due: int, now: int, w: Placement, digests: Digests)
    requires At(db, id, i)
  {
    var d := db.dispatches[i];
    && ValidId(id) && caller.runner && caller.enabled && caller.id == d.facts.repository.runnerRoot.runnerId
    && id !in db.releases && db.attempts[i].state == Assigned
    && d.input.request.taskId !in db.stops && AuthorizedSince(db, d.input.request, due, now)
    && (exists facts :: NewestFacts(db.eligibility, d.facts.id, facts) && FactsServe(d.input.request, d.input.decision, facts, now, digests))
    && w.profileFound && w.selects && w.runnerEnabled
  }

  lemma DeliverableExact(db: Db, i: nat, caller: Caller, id: string, due: int, now: int, w: Placement, digests: Digests)
    requires Good(db) && At(db, id, i)
    ensures var found := Deliverable(ExpireGrants(db, due), caller, id, now, w, digests);
            && (found.Ok? <==> MayDeliver(db, i, caller, id, due, now, w, digests))
            && (found.Ok? ==> found.value == db.dispatches[i])
  {
    hide Good, GrantsGood, DispatchesGood, CheckAuthority, AuthorizedSince, CheckDispatch, FactsServe, ExpireGrants, FindDispatch, FindAttempt,
         LatestFacts, NewestFacts, ValidId;
    GoodParts(db);
    AtFound(db, id, i);
    ExpireKeeps(db, due);
    var d := db.dispatches[i];
    AuthorizedSinceExact(db, d.input.request, due, now);
    LatestExact(db.eligibility, d.facts.id);
    var facts := LatestFacts(db.eligibility, d.facts.id);
    if facts.Some? {
      CheckDispatchExact(d.input.request, d.input.decision, facts.value, now, digests);
      forall other | NewestFacts(db.eligibility, d.facts.id, other) ensures other == facts.value {
        NewestIsLatest(db.eligibility, d.facts.id, other);
      }
    } else {
      NoNewest(db.eligibility, d.facts.id);
    }
  }

  /** `Delivery`, in full. */
  lemma DeliveryExact(db: Db, i: nat, caller: Caller, id: string, due: int, now: int, w: Placement, digests: Digests)
    requires Good(db) && At(db, id, i)
    ensures var t := Delivery(db, caller, id, due, now, w, digests);
            && (t.reply.Ok? <==> MayDeliver(db, i, caller, id, due, now, w, digests))
            && (t.reply.Ok? ==> t.reply.value == db.dispatches[i]) && t.db == ExpireGrants(db, due)
  {
    hide Good, Deliverable, MayDeliver, ExpireGrants;
    DeliverableExact(db, i, caller, id, due, now, w, digests);
  }

  predicate FreshMessage(db: Db, m: MessageId) {
    (forall k | 0 <= k < |db.events| :: db.events[k].messageId != m) && (forall id | id in db.acks :: db.acks[id].messageId != m)
  }

  predicate AckStands(a: Ack) {
    && ValidId(a.identity.generation) && ValidId(a.identity.taskId) && ValidId(a.identity.attempt) && 0 < a.identity.epoch <= MAX_SAFE
    && ValidId(a.assignment) && ValidId(a.runnerBoot) && ValidId(a.daemonBoot)
  }

  /** The acknowledgement is about this very assignment, under the boots of its runner and of the running daemon. */
  predicate AckMatches(db: Db, i: nat, id: string, ack: Ack, generation: string)
    requires At(db, id, i)
  {
    var d := db.dispatches[i];
    && ack.identity.generation == generation && ack.identity.taskId == d.input.request.taskId && ack.identity.attempt == id
    && ack.identity.epoch == d.epoch && ack.assignment == id && ack.runnerBoot == d.facts.runnerBoot && ack.daemonBoot == db.boot
  }

  /** `AcknowledgeAssignment`, in full: an exact repetition, or a new receipt of something deliverable. */
  lemma AcknowledgeExact(db: Db, i: nat, caller: Caller, id: string, ack: Ack, due: int, now: int, w: Placement, digests: Digests, generation: string)
    requires Good(db) && At(db, id, i)
    ensures var t := Acknowledged(db, caller, id, ack, due, now, w, digests, generation);
            var mine := ValidId(id) && AckStands(ack) && caller.runner && caller.id == db.dispatches[i].facts.repository.runnerRoot.runnerId;
            var receipt := MayDeliver(db, i, caller, id, due, now, w, digests) && AckMatches(db, i, id, ack, generation) && FreshMessage(db, ack.messageId);
            && (t.reply.Ok? <==> mine && if id in db.acks then db.acks[id] == ack else receipt)
            && (t.reply.Ok? ==> t.db == if id in db.acks then db else ExpireGrants(db, due).(acks := db.acks[id := ack]))
  {
    hide Good, GrantsGood, DispatchesGood, Deliverable, MayDeliver, ExpireGrants, FindDispatch, ValidId;
    GoodParts(db);
    AtFound(db, id, i);
    ExpireKeeps(db, due);
    DeliverableExact(db, i, caller, id, due, now, w, digests);
    MessageExact(ExpireGrants(db, due), ack.messageId);
  }

  lemma MessageExact(db: Db, m: MessageId)
    ensures MessageTaken(db, m) <==> !FreshMessage(db, m)
  {
  }

  // ---- stopping and reconciling ----

  predicate AssignedOf(db: Db, taskId: string, i: nat) {
    i < |db.attempts| && db.attempts[i].taskId == taskId && db.attempts[i].state == Assigned
  }

  /** `StopDispatch`: the stop is recorded, and the assigned attempt of the task, if there is one, moves with its event. */
  lemma StopExact(db: Db, owner: bool, taskId: string)
    requires DispatchesGood(db)
    ensures var t := Stopped(db, owner, taskId);
            && ((forall i: nat :: !AssignedOf(db, taskId, i)) ==>
                  && (t.reply.Ok? <==> ValidId(taskId) && owner)
                  && (t.reply.Ok? ==> t.db == db.(stops := db.stops + {taskId})))
            && (forall i: nat | AssignedOf(db, taskId, i) ::
                  && (t.reply.Ok? <==> ValidId(taskId) && owner && 0 < db.attempts[i].revision < MAX_SAFE)
                  && (t.reply.Ok? ==> t.db == MovedTo(db.(stops := db.stops + {taskId}), i, Stopping, Derived(db.attempts[i].key, "stop"))))
            && (t.reply.Refused? ==> t.db == db)
  {
    hide AllCharged, Aligned, EpochsRanked, ReleasedTerminal, RowsReplay, ValidId, CheckTransition;
    var at := FindAssigned(db.attempts, taskId);
    if at.Some? {
      var a := db.attempts[at.value];
      TransitionExact(a.revision, Assigned, Stopping, a.state, a.revision);
      forall i: nat | AssignedOf(db, taskId, i) ensures i == at.value {
        assert !Terminal(db.attempts[i].state) && !Terminal(db.attempts[at.value].state);
      }
      assert AssignedOf(db, taskId, at.value);
    } else {
      forall i: nat ensures !AssignedOf(db, taskId, i) {
      }
    }
  }

  /** Evidence that the work has ended and left nothing running. */
  predicate Conclusive(proof: Reconciliation) {
    && ValidId(proof.dispatchId) && (proof.to == Cancelled || proof.to == Expired) && proof.launchFenced && proof.artifactsPreserved
    && proof.remoteWork == "quiescent" && (proof.confirmedProcess == "not_started" || proof.confirmedProcess == "terminated")
    && Sha256(proof.evidenceDigest)
  }

  predicate ProofOf(db: Db, i: nat, proof: Reconciliation, generation: string)
    requires i < |db.dispatches|
  {
    var d := db.dispatches[i];
    && proof.identity.generation == generation && proof.identity.taskId == d.input.request.taskId
    && proof.identity.attempt == proof.dispatchId && proof.identity.epoch == d.epoch
  }

  /** `ReconcileDispatch`, in full: an exact repetition, or the one terminal move with its event and release. */
  lemma ReconcileExact(db: Db, i: nat, owner: bool, proof: Reconciliation, generation: string)
    requires DispatchesGood(db) && At(db, proof.dispatchId, i)
    ensures var t := Reconciled(db, owner, proof, generation);
            var a := db.attempts[i];
            var known := proof.dispatchId in db.releases;
            && (t.reply.Ok? <==>
                  && Conclusive(proof) && owner && ProofOf(db, i, proof, generation)
                  && if known then db.releases[proof.dispatchId] == proof
                     else 0 < proof.expectedRevision == a.revision < MAX_SAFE && (a.state == Stopping || a.state == Unknown))
            && t.db == (if t.reply.Ok? && !known
                        then MovedTo(db, i, proof.to, Derived(proof.dispatchId, "terminal")).(releases := db.releases[proof.dispatchId := proof])
                        else db)
  {
    hide DispatchesGood, FindDispatch, FindAttempt, ValidId, Sha256, CheckTransition;
    AtFound(db, proof.dispatchId, i);
    TransitionExact(proof.expectedRevision, db.attempts[i].state, proof.to, db.attempts[i].state, db.attempts[i].revision);
  }

  lemma UnknownDispatch(db: Db, caller: Caller, id: string, ack: Ack, due: int, now: int, w: Placement, site: Site, owner: bool, proof: Reconciliation)
    requires NoDispatch(db.dispatches, id) && proof.dispatchId == id && ExpireGrants(db, due).dispatches == db.dispatches
    ensures Delivery(db, caller, id, due, now, w, site.digests).reply.Refused?
    ensures Acknowledged(db, caller, id, ack, due, now, w, site.digests, site.generation).reply.Refused?
    ensures Reconciled(db, owner, proof, site.generation).reply.Refused?
  {
    hide ExpireGrants, ValidId, ValidAck;
  }

  // ---- reopening ----

  predicate Uncertain(s: AttemptState) {
    s == Assigned || s == Starting || s == Running || s == ResultPending || s == Stopping
  }

  /** Each uncertain attempt became unknown, one revision on; the others are as they were. */
  predicate RecoveredRows(attempts: seq<Attempt>, later: seq<Attempt>, n: nat)
    requires n <= |attempts|
  {
    |later| == |attempts| && forall i | 0 <= i < |attempts| ::
      later[i] == if i < n && Uncertain(attempts[i].state)
                  then Attempt(attempts[i].key, attempts[i].taskId, attempts[i].epoch, Unknown, attempts[i].revision + 1) else attempts[i]
  }

  /** The events of that, in the order of the rows. */
  function RecoveryEvents(attempts: seq<Attempt>, first: nat, n: nat): seq<Event>
    requires n <= |attempts|
  {
    if n == 0 then []
    else
      var earlier, a := RecoveryEvents(attempts, first, n - 1), attempts[n - 1];
      if Uncertain(a.state)
      then earlier + [Event(Random(first + |earlier|), a.key, a.taskId, a.epoch, a.revision + 1, Move(a.state, Unknown))] else earlier
  }

  predicate CanMoveOn(a: Attempt) { Uncertain(a.state) ==> 0 < a.revision < MAX_SAFE }

  lemma EventsMore(db: Db, n: nat, a: Attempt)
    requires 0 < n <= |db.attempts| && a == db.attempts[n - 1]
    ensures var before := db.events + RecoveryEvents(db.attempts, |db.events|, n - 1);
            db.events + RecoveryEvents(db.attempts, |db.events|, n) ==
              if Uncertain(a.state) then before + [Event(Random(|before|), a.key, a.taskId, a.epoch, a.revision + 1, Move(a.state, Unknown))]
              else before
  {
    var earlier := RecoveryEvents(db.attempts, |db.events|, n - 1);
    var last := Event(Random(|db.events| + |earlier|), a.key, a.taskId, a.epoch, a.revision + 1, Move(a.state, Unknown));
    assert db.events + earlier + [last] == db.events + (earlier + [last]);
  }

  lemma {:induction false} RecoveredExact(db: Db, n: nat)
    requires n <= |db.attempts|
    ensures var t := Recovered(db, n);
            && (t.Ok? <==> forall i | 0 <= i < n :: CanMoveOn(db.attempts[i]))
            && (t.Ok? ==>
                  && RecoveredRows(db.attempts, t.value.attempts, n)
                  && t.value == db.(attempts := t.value.attempts, events := db.events + RecoveryEvents(db.attempts, |db.events|, n)))
  {
    hide RecoveryEvents, Moved;
    if n == 0 {
      NoEvents(db);
    } else {
      RecoveredExact(db, n - 1);
      var earlier := Recovered(db, n - 1);
      if earlier.Ok? {
        hide Recovered;
        RecoverOne(db, n);
        RowMoved(db, earlier.value, n);
      }
    }
  }

  lemma NoEvents(db: Db)
    ensures db.events + RecoveryEvents(db.attempts, |db.events|, 0) == db.events
  {
  }

  lemma RecoverOne(db: Db, n: nat)
    requires 0 < n <= |db.attempts| && Recovered(db, n - 1).Ok?
    ensures var earlier := Recovered(db, n - 1).value;
            var a := earlier.attempts[n - 1];
            && (Recovered(db, n).Ok? <==> CanMoveOn(a))
            && (Recovered(db, n).Ok? ==>
                  Recovered(db, n).value == if Uncertain(a.state) then Moved(earlier, n - 1, Unknown, Random(|earlier.events|)) else earlier)
  {
    hide CheckTransition, Moved;
    var a := Recovered(db, n - 1).value.attempts[n - 1];
    TransitionExact(a.revision, a.state, Unknown, a.state, a.revision);
  }

  lemma RowMoved(db: Db, earlier: Db, n: nat)
    requires 0 < n <= |db.attempts| && RecoveredRows(db.attempts, earlier.attempts, n - 1)
    requires earlier == db.(attempts := earlier.attempts, events := db.events + RecoveryEvents(db.attempts, |db.events|, n - 1))
    ensures earlier.attempts[n - 1] == db.attempts[n - 1]
    ensures var a := db.attempts[n - 1];
            var later := if Uncertain(a.state) then Moved(earlier, n - 1, Unknown, Random(|earlier.events|)) else earlier;
            && RecoveredRows(db.attempts, later.attempts, n)
            && later == db.(attempts := later.attempts, events := db.events + RecoveryEvents(db.attempts, |db.events|, n))
  {
    hide RecoveryEvents;
    EventsMore(db, n, db.attempts[n - 1]);
  }

  /** Opening the store again. */
  lemma RestartExact(db: Db, now: int, boot: string)
    requires GrantsGood(db)
    ensures var t := Restarted(db, now, boot);
            && (t.reply.Ok? <==> forall i | 0 <= i < |db.attempts| :: CanMoveOn(db.attempts[i]))
            && (t.reply.Ok? ==>
                  && RecoveredRows(db.attempts, t.db.attempts, |db.attempts|)
                  && t.db == ExpireGrants(db, now).(
                       boot := boot, attempts := t.db.attempts, events := db.events + RecoveryEvents(db.attempts, |db.events|, |db.attempts|)))
            && (t.reply.Refused? ==> t.db == db)
  {
    hide GrantsGood, ExpireGrants, Recovered, RecoveryEvents, RecoveredRows;
    ExpireKeeps(db, now);
    var expired := ExpireGrants(db, now).(boot := boot);
    RecoveredExact(expired, |expired.attempts|);
  }

  // ---- facts ----

  /** No other id has the repository and root of these facts. */
  predicate OwnPairing(rows: seq<Eligibility>, v: Eligibility) {
    forall k | 0 <= k < |rows| && rows[k].id != v.id :: rows[k].repository.repository != v.repository.repository || rows[k].repository.runnerRoot != v.repository.runnerRoot
  }

  /** `PublishEligibility`, in full: the newest row again, or the next row of its id with the same pairing. */
  lemma PublishExact(db: Db, owner: bool, expected: int, v: Eligibility, w: Placement)
    ensures var t := Published(db, owner, expected, v, w);
            var newest := LatestFacts(db.eligibility, v.id);
            var revision := if newest.Some? then newest.value.revision else 0;
            var again := newest == Some(v) && (expected == revision || expected == revision - 1);
            && (t.reply.Ok? <==>
                  && 0 <= expected < MAX_SAFE && FactsStand(v) && owner && w.profileFound && w.selects
                  && (again ||
                      (&& expected == revision && v.revision == revision + 1 && OwnPairing(db.eligibility, v)
                       && (newest.Some? ==> newest.value.repository.repository == v.repository.repository
                                            && newest.value.repository.runnerRoot == v.repository.runnerRoot))))
            && t.db == (if t.reply.Ok? && !again then db.(eligibility := db.eligibility + [v]) else db)
  {
    hide ValidateFacts, FactsStand, LatestFacts;
    ValidateFactsExact(v);
    PairingExact(db.eligibility, v);
  }

  lemma PairingExact(rows: seq<Eligibility>, v: Eligibility)
    ensures PairedElsewhere(rows, v) <==> !OwnPairing(rows, v)
  {
  }

  // ---- runs ----

  /** In every run a dispatch row is added exactly by an admission that the conditions allow. */
  lemma AdmissionsAreExact(ops: seq<Op>, op: Op, site: Site)
    ensures Run(ops + [op], site).dispatches != Run(ops, site).dispatches <==>
            op.Admit? && MayDispatch(Run(ops, site), op.dispatch, op.now, op.placement, site.digests)
  {
    hide Run, Step, Good, MayDispatch, DispatchedTo, NewestFacts, Find, Formed;
    var db := Run(ops, site);
    RunsAreGood(ops, site);
    R.RunMore(ops, op, site);
    if op.Admit? {
      DispatchExact(db, op.dispatch, op.now, op.placement, site.digests);
      AdmitStep(db, op, site);
      if MayDispatch(db, op.dispatch, op.now, op.placement, site.digests) {
        var t := Dispatched(db, op.dispatch, op.now, op.placement, site.digests);
        var facts :| NewestFacts(db.eligibility, op.dispatch.decision.eligibilityId, facts) && DispatchedTo(db, t, op.dispatch, facts, op.now);
        RowAdded(db, t, op.dispatch, facts, op.now);
      }
    } else {
      NoRows(db, op, site);
    }
  }

  lemma AdmitStep(db: Db, op: Op, site: Site)
    requires op.Admit?
    ensures Step(db, op, site) == Dispatched(db, op.dispatch, op.now, op.placement, site.digests).db
  {
  }

  lemma RowAdded(db: Db, t: Tx<Dispatch>, r: DispatchRequest, facts: Eligibility, now: int)
    requires DispatchedTo(db, t, r, facts, now)
    ensures |t.db.dispatches| == |db.dispatches| + 1
  {
    hide ExpireGrants;
  }

  lemma RestartTouches(db: Db, now: int, boot: string)
    requires GrantsGood(db)
    ensures Restarted(db, now, boot).db.dispatches == db.dispatches
  {
    hide GrantsGood, ExpireGrants, Restarted, RecoveryEvents, RecoveredRows;
    ExpireKeeps(db, now);
    RestartExact(db, now, boot);
  }

  /** No other operation adds one. */
  lemma NoRows(db: Db, op: Op, site: Site)
    requires Good(db) && !op.Admit?
    ensures Step(db, op, site).dispatches == db.dispatches
  {
    hide Good, GrantsGood, DispatchesGood, ChangeExecution, InvalidateExecution, Published, Acknowledged, Stopped, Reconciled, ExpireGrants,
         Recovered, Restarted, RecoveryEvents, Deliverable, CheckAuthority;
    GoodParts(db);
    match op
    case Approve(expectedId, g, now) => ChangeTouches(db, expectedId, g, true, now);
    case Restrict(expectedId, g, now) => ChangeTouches(db, expectedId, g, false, now);
    case Invalidate(taskId, expectedId, actor, reason, now) => InvalidateTouches(db, taskId, expectedId, actor, reason, now);
    case CheckAuthorityOf(r, now) => ExpireKeeps(db, now);
    case ReadInvalidations(after, limit, now) => ExpireKeeps(db, now);
    case Publish(owner, expected, facts, w) => R.PublicationDispatchesNothing(db, owner, expected, facts, w);
    case Deliver(caller, id, due, now, w) => ExpireKeeps(db, due);
    case Acknowledge(caller, id, ack, due, now, w) => AcknowledgementTouches(db, caller, id, ack, due, now, w, site);
    case Stop(owner, taskId) => StopTouches(db, owner, taskId);
    case Reconcile(owner, proof) => ReconcileTouches(db, owner, proof, site.generation);
    case Restart(now, boot) => RestartTouches(db, now, boot);
  }
}
