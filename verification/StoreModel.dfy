/** The durable grant and dispatch tables, one transaction at a time
    (`internal/store/grants.go`, `internal/store/dispatch.go`, `internal/store/recovery.go`,
    `schemas/execution/protocol.go`). The clock is an argument and need not advance. */
module StoreModel {
  import opened Text
  import opened Authority
  import opened Scheduling

  // ---- rows ----

  datatype Invalidation = Invalidation(grantId: string, reason: string, actor: string, atMs: int)

  datatype AttemptState =
    | Assigned | Starting | Running | ResultPending | Stopping | Unknown | Succeeded | Failed | Cancelled | Expired

  /** Identifiers made by the store: derived from a dispatch key and a purpose, or random. Hashing is taken as injective
      and random ones as never repeating, so equal ids have equal parts. */
  datatype MessageId = Derived(key: string, purpose: string) | Random(n: nat) | Given(id: string)

  /** The attempt id is derived from the dispatch key, which stands for it. */
  datatype Attempt = Attempt(key: string, taskId: string, epoch: int, state: AttemptState, revision: int)

  datatype Change = Assign | Move(from: AttemptState, to: AttemptState)

  datatype Event = Event(messageId: MessageId, key: string, taskId: string, epoch: int, revision: int, change: Change)

  datatype DispatchRequest = DispatchRequest(id: string, request: Request, decision: Decision, allowance: Budgets)

  datatype Dispatch = Dispatch(input: DispatchRequest, facts: Eligibility, epoch: int, createdMs: int)

  datatype Identity = Identity(generation: string, taskId: string, attempt: string, epoch: int)

  datatype Ack = Ack(messageId: MessageId, identity: Identity, assignment: string, runnerBoot: string, daemonBoot: string)

  datatype Reconciliation = Reconciliation(
    dispatchId: string, identity: Identity, expectedRevision: int, to: AttemptState, confirmedProcess: string,
    remoteWork: string, launchFenced: bool, artifactsPreserved: bool, evidenceDigest: string)

  /** Rows in insertion order. `approved` is history, not a table: the envelope of the last explicit approval of a task. */
  datatype Db = Db(
    grants: seq<Grant>, heads: map<string, string>, invalidations: seq<Invalidation>,
    eligibility: seq<Eligibility>, attempts: seq<Attempt>, events: seq<Event>, dispatches: seq<Dispatch>,
    acks: map<string, Ack>, releases: map<string, Reconciliation>, stops: set<string>,
    approved: map<string, Envelope>, boot: string)

  /** Before the first opening: no rows, and no daemon boot yet. */
  const EMPTY := Db([], map[], [], [], [], [], [], map[], map[], {}, map[], "")

  datatype Reply<+T> = Ok(value: T) | Refused(why: Check)

  /** A transaction: the tables after it, and its answer. */
  datatype Tx<+T> = Tx(db: Db, reply: Reply<T>)

  function Refuse<T>(db: Db, code: string, field: string): Tx<T> {
    Tx(db, Refused(Deny(code, field)))
  }

  // ---- grants ----

  function FindGrant(grants: seq<Grant>, id: string): (g: Option<Grant>)
    ensures g.Some? ==> g.value in grants && g.value.id == id
    ensures g.None? ==> forall x | x in grants :: x.id != id
  {
    if |grants| == 0 then None
    else if grants[0].id == id then Some(grants[0])
    else FindGrant(grants[1..], id)
  }

  function Head(db: Db, taskId: string): Option<Grant> {
    if taskId in db.heads then FindGrant(db.grants, db.heads[taskId]) else None
  }

  function FindInvalidation(invalidations: seq<Invalidation>, grantId: string): (i: Option<Invalidation>)
    ensures i.Some? ==> i.value in invalidations && i.value.grantId == grantId
    ensures i.None? ==> forall x | x in invalidations :: x.grantId != grantId
  {
    if |invalidations| == 0 then None
    else if invalidations[0].grantId == grantId then Some(invalidations[0])
    else FindInvalidation(invalidations[1..], grantId)
  }

  function LiveGrant(db: Db, g: Grant, now: int): Check {
    var found := FindInvalidation(db.invalidations, g.id);
    if found.Some? then Deny(found.value.reason, "grant")
    else if now >= g.envelope.expiresMs then Deny("expired", "grant")
    else Pass
  }

  function WithInvalidation(db: Db, grantId: string, reason: string, actor: string, now: int): Db {
    db.(invalidations := db.invalidations + [Invalidation(grantId, reason, actor, now)])
  }

  /** The replacement check against every retained grant of the task, newest first. */
  function ReplacesAll(grants: seq<Grant>, taskId: string, next: Envelope): Check {
    if |grants| == 0 then Pass
    else
      var last := grants[|grants| - 1];
      if last.taskId == taskId && Replacement(next, last.envelope).Deny? then Replacement(next, last.envelope)
      else ReplacesAll(grants[..|grants| - 1], taskId, next)
  }

  function Supersede(db: Db, previous: Grant, actor: string, now: int): Db {
    if FindInvalidation(db.invalidations, previous.id).Some? then db
    else WithInvalidation(db, previous.id, if now >= previous.envelope.expiresMs then "expired" else "superseded", actor, now)
  }

  function InsertGrant(db: Db, g: Grant, approval: bool): Db {
    db.(grants := db.grants + [g], heads := db.heads[g.taskId := g.id],
        approved := if approval then db.approved[g.taskId := g.envelope] else db.approved)
  }

  function HeadId(head: Option<Grant>): string {
    if head.Some? then head.value.id else ""
  }

  function ChangeRefusal(db: Db, previous: Grant, g: Grant, approval: bool, now: int): Check {
    if LiveGrant(db, previous, now).Deny? && !approval then LiveGrant(db, previous, now)
    else if previous.revision == MAX_SAFE || g.revision != previous.revision + 1 then Deny("revision_conflict", "grant")
    else Pass
  }

  function ContinuityRefusal(db: Db, previous: Grant, g: Grant, approval: bool): Check {
    var continuous := ReplacesAll(db.grants, g.taskId, g.envelope);
    if continuous.Deny? then continuous
    else if !approval && g.actor != previous.actor then Deny("approval_required", "actor")
    else if !approval then Within(g.envelope, previous.envelope)
    else Pass
  }

  predicate Unchanged(db: Db, previous: Grant, g: Grant, now: int) {
    LiveGrant(db, previous, now).Pass? && g.actor == previous.actor && g.envelope == previous.envelope
  }

  /** A grant id seen before: an exact replay of the live head returns it, never a new admission. */
  function RetainedGrant(db: Db, head: Option<Grant>, same: Grant, g: Grant, now: int): Tx<Grant> {
    if same != g then Refuse(db, "identity_conflict", "grant")
    else if head.None? || head.value.id != g.id then Refuse(db, "superseded", "grant")
    else if LiveGrant(db, head.value, now).Deny? then Tx(db, Refused(LiveGrant(db, head.value, now)))
    else Tx(db, Ok(head.value))
  }

  function FirstGrant(db: Db, g: Grant, approval: bool, now: int): Tx<Grant> {
    if !approval then Refuse(db, "approval_required", "grant")
    else if g.revision != 1 then Refuse(db, "revision_conflict", "grant")
    else if now >= g.envelope.expiresMs then Refuse(db, "expired", "grant")
    else Tx(InsertGrant(db, g, approval), Ok(g))
  }

  function NextGrant(db: Db, previous: Grant, g: Grant, approval: bool, now: int): Tx<Grant> {
    var refusal := ChangeRefusal(db, previous, g, approval, now);
    var broken := ContinuityRefusal(db, previous, g, approval);
    if refusal.Deny? then Tx(db, Refused(refusal))
    else if Unchanged(db, previous, g, now) then Tx(db, Ok(previous))
    else if broken.Deny? then Tx(db, Refused(broken))
    else if now >= g.envelope.expiresMs then Refuse(db, "expired", "grant")
    else Tx(InsertGrant(Supersede(db, previous, g.actor, now), g, approval), Ok(g))
  }

  /** `changeExecution`: approval (`ApproveExecution`) or narrowing (`RestrictExecution`). */
  function ChangeExecution(db: Db, expectedId: string, g: Grant, approval: bool, now: int): Tx<Grant> {
    var head := Head(db, g.taskId);
    var same := FindGrant(db.grants, g.id);
    if ValidateGrant(g).Deny? then Tx(db, Refused(ValidateGrant(g)))
    else if expectedId != "" && !ValidId(expectedId) then Refuse(db, "malformed", "expected_grant")
    else if same.Some? then RetainedGrant(db, head, same.value, g, now)
    else if HeadId(head) != expectedId then Refuse(db, "revision_conflict", "expected_grant")
    else if head.None? then FirstGrant(db, g, approval, now)
    else NextGrant(db, head.value, g, approval, now)
  }

  function InvalidateExecution(db: Db, taskId: string, expectedId: string, actor: string, reason: string, now: int): Tx<()> {
    var head := Head(db, taskId);
    if !ValidId(taskId) || !ValidId(expectedId) || !Reference(actor) || reason !in {"revoked", "superseded"} then
      Refuse(db, "malformed", "invalidation")
    else if head.None? then Refuse(db, "unknown_grant", "task")
    else if head.value.id != expectedId then Refuse(db, "revision_conflict", "expected_grant")
    else
      var found := FindInvalidation(db.invalidations, expectedId);
      if found.Some? then
        if found.value.reason == reason && found.value.actor == actor then Tx(db, Ok(()))
        else Refuse(db, "identity_conflict", "invalidation")
      else Tx(WithInvalidation(db, expectedId, reason, actor, now), Ok(()))
  }

  // ---- expiry ----

  predicate IsDue(db: Db, g: Grant, now: int) {
    && g.taskId in db.heads && db.heads[g.taskId] == g.id
    && g.envelope.expiresMs <= now && FindInvalidation(db.invalidations, g.id).None?
  }

  function InsertById(ids: seq<string>, id: string): seq<string> {
    if |ids| == 0 then [id]
    else if Before(id, ids[0]) then [id] + ids
    else [ids[0]] + InsertById(ids[1..], id)
  }

  /** The heads whose time has come, by id. */
  function Due(db: Db, grants: seq<Grant>, now: int): seq<string> {
    if |grants| == 0 then []
    else
      var rest := Due(db, grants[..|grants| - 1], now);
      var g := grants[|grants| - 1];
      if IsDue(db, g, now) then InsertById(rest, g.id) else rest
  }

  function ExpireAll(db: Db, ids: seq<string>, now: int): Db
    decreases |ids|
  {
    if |ids| == 0 then db
    else ExpireAll(WithInvalidation(db, ids[0], "expired", "clock", now), ids[1..], now)
  }

  function ExpireGrants(db: Db, now: int): Db {
    ExpireAll(db, Due(db, db.grants, now), now)
  }

  /** `checkExecution`, after expiry. */
  function CheckAuthority(db: Db, r: Request, now: int): Check {
    var g := FindGrant(db.grants, r.grantId);
    var head := Head(db, r.taskId);
    if g.None? then Deny("unknown_grant", "grant")
    else if LiveGrant(db, g.value, now).Deny? then LiveGrant(db, g.value, now)
    else if head.None? then Deny("unknown_grant", "task")
    else if head.value.id != g.value.id then Deny("superseded", "grant")
    else CheckGrant(g.value, r, now)
  }

  /** `CheckExecution`: the expiry is kept even when the request is refused. */
  function CheckExecution(db: Db, r: Request, now: int): Tx<()> {
    if !ValidId(r.grantId) || !ValidId(r.taskId) then Refuse(db, "malformed", "request")
    else
      var expired := ExpireGrants(db, now);
      var check := CheckAuthority(expired, r, now);
      Tx(expired, if check.Pass? then Ok(()) else Refused(check))
  }

  /** `ExecutionInvalidations`: one page of the signal; the sequence number of a row is its position from 1. */
  function ExecutionInvalidations(db: Db, after: int, limit: int, now: int): Tx<seq<Invalidation>> {
    if after < 0 || after > MAX_SAFE || limit < 1 || limit > 128 then Refuse(db, "malformed", "cursor/limit")
    else
      var expired := ExpireGrants(db, now);
      var n := |expired.invalidations|;
      var from := if after <= n then after else n;
      var to := if from + limit <= n then from + limit else n;
      Tx(expired, Ok(expired.invalidations[from..to]))
  }

  // ---- attempts ----

  predicate Terminal(s: AttemptState) { s in {Succeeded, Failed, Cancelled, Expired} }

  function Edges(s: AttemptState): set<AttemptState> {
    match s
    case Assigned => {Starting, Stopping, Unknown}
    case Starting => {Running, Stopping, Unknown}
    case Running => {ResultPending, Stopping, Unknown}
    case ResultPending => {Succeeded, Failed, Stopping, Unknown}
    case Stopping => {Cancelled, Expired, Unknown}
    case Unknown => {Stopping, Cancelled, Expired, ResultPending}
    case _ => {}
  }

  /** `CheckTransition`, for a message about the attempt's own identity. */
  function CheckTransition(expected: int, from: AttemptState, to: AttemptState, state: AttemptState, revision: int): Check {
    if !Positive(expected) || !Positive(revision) then Deny("malformed", "")
    else if expected != revision || revision == MAX_SAFE then Deny("revision_conflict", "")
    else if from != state || to !in Edges(state) then Deny("invalid_transition", "")
    else Pass
  }

  function ActiveOf(attempts: seq<Attempt>): nat {
    if |attempts| == 0 then 0
    else ActiveOf(attempts[..|attempts| - 1]) + (if Terminal(attempts[|attempts| - 1].state) then 0 else 1)
  }

  function ActiveOfTask(attempts: seq<Attempt>, taskId: string): nat {
    if |attempts| == 0 then 0
    else
      var last := attempts[|attempts| - 1];
      ActiveOfTask(attempts[..|attempts| - 1], taskId) + (if last.taskId == taskId && !Terminal(last.state) then 1 else 0)
  }

  function MaxEpoch(attempts: seq<Attempt>, taskId: string): int {
    if |attempts| == 0 then 0
    else
      var last, rest := attempts[|attempts| - 1], MaxEpoch(attempts[..|attempts| - 1], taskId);
      if last.taskId == taskId && last.epoch > rest then last.epoch else rest
  }

  /** One attempt row moves, with its event. */
  function Moved(db: Db, i: nat, to: AttemptState, messageId: MessageId): Db
    requires i < |db.attempts|
  {
    var a := db.attempts[i];
    db.(attempts := db.attempts[i := a.(state := to, revision := a.revision + 1)],
        events := db.events + [Event(messageId, a.key, a.taskId, a.epoch, a.revision + 1, Move(a.state, to))])
  }

  // ---- budgets ----

  datatype Totals = Totals(requests: int, subattempts: int, attemptMs: int, outputTokens: int, cost: int)

  const ZERO := Totals(0, 0, 0, 0, 0)

  /** `first` is 0 while no row was seen. */
  datatype Tally = Tally(used: Totals, count: int, first: int)

  function CostOf(b: Budgets): int {
    if b.providerCostMicros.Some? then b.providerCostMicros.value else 0
  }

  function Charge(b: Budgets): Totals {
    Totals(b.requests, b.subattempts, b.attemptMs, b.providerOutputTokens, CostOf(b))
  }

  function Plus(a: Totals, b: Totals): Totals {
    Totals(a.requests + b.requests, a.subattempts + b.subattempts, a.attemptMs + b.attemptMs,
           a.outputTokens + b.outputTokens, a.cost + b.cost)
  }

  predicate AtMost(a: Totals, b: Totals) {
    a.requests <= b.requests && a.subattempts <= b.subattempts && a.attemptMs <= b.attemptMs &&
    a.outputTokens <= b.outputTokens && a.cost <= b.cost
  }

  const FULL := Totals(MAX_SAFE, MAX_SAFE, MAX_SAFE, MAX_SAFE, MAX_SAFE)

  /** What the ceilings of a request allow in the five charged dimensions; no cost cap is the largest number. */
  function Ceiling(b: Budgets): Totals {
    Totals(b.requests, b.subattempts, b.totalMs, b.providerOutputTokens,
           if b.providerCostMicros.Some? then b.providerCostMicros.value else MAX_SAFE)
  }

  /** One retained dispatch of the task in the charging loop. */
  function TallyRow(t: Tally, d: Dispatch, released: bool, ceiling: Budgets): (r: Reply<Tally>)
    ensures r.Refused? ==> r.why.Deny?
  {
    var b := d.input.allowance;
    if !released then Refused(Deny("reconciliation_required", "reservation"))
    else if d.input.decision.selected.limitsProfile == NATIVE && ceiling.providerOutputTokens > 0 then
      Refused(Deny("budget_unknown", "prior_output_tokens"))
    else if b.providerCostMicros.None? && ceiling.providerCostMicros.Some? then Refused(Deny("budget_unknown", "prior_cost"))
    else if !AtMost(Plus(t.used, Charge(b)), FULL) then Refused(Deny("budget_exhausted", "task"))
    else Ok(Tally(Plus(t.used, Charge(b)), t.count + 1, if t.first == 0 || d.createdMs < t.first then d.createdMs else t.first))
  }

  function TallyTask(dispatches: seq<Dispatch>, releases: map<string, Reconciliation>, taskId: string, ceiling: Budgets): (r: Reply<Tally>)
    ensures r.Refused? ==> r.why.Deny?
  {
    if |dispatches| == 0 then Ok(Tally(ZERO, 0, 0))
    else
      var earlier := TallyTask(dispatches[..|dispatches| - 1], releases, taskId, ceiling);
      var d := dispatches[|dispatches| - 1];
      if earlier.Refused? || d.input.request.taskId != taskId then earlier
      else TallyRow(earlier.value, d, d.input.id in releases, ceiling)
  }

  /** The checks of `reserve` after the rows were added up. */
  function CheckCharge(t: Tally, request: DispatchRequest, facts: Eligibility, now: int): Check {
    var ceiling, want := request.request.envelope.budgets, request.allowance;
    if t.count >= ceiling.attempts || t.count > ceiling.retries then Deny("attempt_ceiling", "task")
    else if t.first != 0 && (now < t.first || now - t.first >= ceiling.totalMs || want.attemptMs > ceiling.totalMs - (now - t.first)) then
      Deny("duration_ceiling", "task")
    else if want.attemptMs > request.request.envelope.expiresMs - now || want.attemptMs > facts.validUntilMs - now ||
            want.attemptMs > facts.localEnvelope.expiresMs - now then Deny("duration_ceiling", "validity")
    else if !AtMost(t.used, Ceiling(ceiling)) || !AtMost(Plus(t.used, Charge(want)), Ceiling(ceiling)) then Deny("budget_exhausted", "task")
    else Pass
  }

  function Reserve(db: Db, request: DispatchRequest, facts: Eligibility, now: int): Check {
    if !Fit(request.decision.resources, facts.capacity) then Deny("resource_ceiling", "runner")
    else if ActiveOf(db.attempts) >= 1 then Deny("concurrency_ceiling", "sequential_dispatch")
    else
      var tally := TallyTask(db.dispatches, db.releases, request.request.taskId, request.request.envelope.budgets);
      if tally.Refused? then tally.why else CheckCharge(tally.value, request, facts, now)
  }

  // ---- dispatch ----

  /** What the repository and identity tables say about the facts: the profile exists, it selects them, the runner is
      enabled. */
  datatype Placement = Placement(profileFound: bool, selects: bool, runnerEnabled: bool)

  function CheckPlacement(w: Placement): Check {
    if !w.profileFound then Deny("repository_ineligible", "repository")
    else if !w.selects then Deny("repository_policy_drift", "selection")
    else if !w.runnerEnabled then Deny("runner_disabled", "runner")
    else Pass
  }

  function FindDispatch(dispatches: seq<Dispatch>, id: string): (at: Option<nat>)
    ensures at.Some? ==> at.value < |dispatches| && dispatches[at.value].input.id == id
    ensures at.None? ==> forall i | 0 <= i < |dispatches| :: dispatches[i].input.id != id
  {
    if |dispatches| == 0 then None
    else if dispatches[|dispatches| - 1].input.id == id then Some(|dispatches| - 1)
    else FindDispatch(dispatches[..|dispatches| - 1], id)
  }

  /** The newest facts under an id. */
  function LatestFacts(rows: seq<Eligibility>, id: string): Option<Eligibility> {
    if |rows| == 0 then None
    else if rows[|rows| - 1].id == id then Some(rows[|rows| - 1])
    else LatestFacts(rows[..|rows| - 1], id)
  }

  function Bounded(r: DispatchRequest): Envelope {
    r.request.envelope.(budgets := r.allowance)
  }

  function CheckRequest(r: DispatchRequest): Check {
    if !ValidId(r.id) || !ValidId(r.request.grantId) || !ValidId(r.request.taskId) then Deny("malformed", "dispatch")
    else if ValidateDecision(r.decision).Deny? then ValidateDecision(r.decision)
    else if Validate(r.request.envelope).Deny? then Validate(r.request.envelope)
    else if Within(Bounded(r), r.request.envelope).Deny? then Within(Bounded(r), r.request.envelope)
    else if r.allowance.attempts != 1 || r.allowance.retries != 0 || r.allowance.concurrency != 1 ||
            r.allowance.totalMs != r.allowance.attemptMs then Deny("malformed", "attempt_allowance")
    else Pass
  }

  function DispatchAllowed(db: Db, r: Request, now: int): Check {
    if r.taskId in db.stops then Deny("stopped", "task") else CheckAuthority(db, r, now)
  }

  /** The checks made after authority: facts, placement, capacity, budget, epoch. */
  function AdmissionRefusal(db: Db, r: DispatchRequest, facts: Eligibility, now: int, w: Placement, digests: Digests): Check {
    if CheckDispatch(r.request, r.decision, facts, now, digests).Deny? then CheckDispatch(r.request, r.decision, facts, now, digests)
    else if CheckPlacement(w).Deny? then CheckPlacement(w)
    else if ActiveOfTask(db.attempts, r.request.taskId) != 0 then Deny("current_assignment", "task")
    else if Reserve(db, r, facts, now).Deny? then Reserve(db, r, facts, now)
    else if MaxEpoch(db.attempts, r.request.taskId) == MAX_SAFE then Deny("epoch_exhausted", "task")
    else Pass
  }

  function Admitted(db: Db, r: DispatchRequest, facts: Eligibility, now: int): Db {
    var epoch := MaxEpoch(db.attempts, r.request.taskId) + 1;
    db.(attempts := db.attempts + [Attempt(r.id, r.request.taskId, epoch, Assigned, 1)],
        events := db.events + [Event(Derived(r.id, "message"), r.id, r.request.taskId, epoch, 1, Assign)],
        dispatches := db.dispatches + [Dispatch(r, facts, epoch, now)])
  }

  /** `Dispatch`. A refusal of authority keeps the expiry; any later refusal rolls everything back. */
  function Dispatched(db: Db, r: DispatchRequest, now: int, w: Placement, digests: Digests): Tx<Dispatch> {
    var at := FindDispatch(db.dispatches, r.id);
    if CheckRequest(r).Deny? then Tx(db, Refused(CheckRequest(r)))
    else if at.Some? then
      if db.dispatches[at.value].input != r then Refuse(db, "identity_conflict", "dispatch")
      else Tx(db, Ok(db.dispatches[at.value]))
    else
      var expired := ExpireGrants(db, now);
      var allowed := DispatchAllowed(expired, r.request, now);
      var facts := LatestFacts(expired.eligibility, r.decision.eligibilityId);
      if allowed.Deny? then Tx(expired, Refused(allowed))
      else if facts.None? then Refuse(db, "no_eligible_tuple", "eligibility")
      else
        var refusal := AdmissionRefusal(expired, r, facts.value, now, w, digests);
        if refusal.Deny? then Tx(db, Refused(refusal))
        else
          var admitted := Admitted(expired, r, facts.value, now);
          Tx(admitted, Ok(admitted.dispatches[|admitted.dispatches| - 1]))
  }

  // ---- delivery and acknowledgement ----

  /** The authenticated caller: a current runner or not. */
  datatype Caller = Caller(id: string, runner: bool, enabled: bool)

  function IdentityOf(d: Dispatch, generation: string): Identity {
    Identity(generation, d.input.request.taskId, d.input.id, d.epoch)
  }

  function FindAttempt(attempts: seq<Attempt>, key: string): (at: Option<nat>)
    ensures at.Some? ==> at.value < |attempts| && attempts[at.value].key == key
    ensures at.None? ==> forall i | 0 <= i < |attempts| :: attempts[i].key != key
  {
    if |attempts| == 0 then None
    else if attempts[|attempts| - 1].key == key then Some(|attempts| - 1)
    else FindAttempt(attempts[..|attempts| - 1], key)
  }

  /** `deliverable` */
  function Deliverable(db: Db, caller: Caller, id: string, now: int, w: Placement, digests: Digests): Reply<Dispatch> {
    var at := FindDispatch(db.dispatches, id);
    if !ValidId(id) then Refused(Deny("malformed", "dispatch_id"))
    else if at.None? then Refused(Deny("not_found", "dispatch"))
    else
      var d := db.dispatches[at.value];
      var attempt := FindAttempt(db.attempts, id);
      var facts := LatestFacts(db.eligibility, d.facts.id);
      if !caller.runner || !caller.enabled || caller.id != d.facts.repository.runnerRoot.runnerId then Refused(Deny("runner_disabled", "delivery"))
      else if id in db.releases then Refused(Deny("reconciliation_required", "released"))
      else if attempt.None? || db.attempts[attempt.value].state != Assigned then Refused(Deny("reconciliation_required", "attempt"))
      else if DispatchAllowed(db, d.input.request, now).Deny? then Refused(DispatchAllowed(db, d.input.request, now))
      else if facts.None? then Refused(Deny("not_found", "eligibility"))
      else if CheckDispatch(d.input.request, d.input.decision, facts.value, now, digests).Deny? then
        Refused(CheckDispatch(d.input.request, d.input.decision, facts.value, now, digests))
      else if CheckPlacement(w).Deny? then Refused(CheckPlacement(w))
      else Ok(d)
  }

  function Delivery(db: Db, caller: Caller, id: string, due: int, now: int, w: Placement, digests: Digests): Tx<Dispatch> {
    var expired := ExpireGrants(db, due);
    Tx(expired, Deliverable(expired, caller, id, now, w, digests))
  }

  predicate ValidAck(a: Ack) {
    && ValidId(a.identity.generation) && ValidId(a.identity.taskId) && ValidId(a.identity.attempt) && Positive(a.identity.epoch)
    && ValidId(a.assignment) && ValidId(a.runnerBoot) && ValidId(a.daemonBoot)
  }

  predicate MessageTaken(db: Db, m: MessageId) {
    (exists e :: e in db.events && e.messageId == m) || (exists k :: k in db.acks && db.acks[k].messageId == m)
  }

  /** `AcknowledgeAssignment`: an exact replay is history and succeeds; anything else must be deliverable now. */
  function Acknowledged(db: Db, caller: Caller, id: string, ack: Ack, due: int, now: int, w: Placement, digests: Digests,
                        generation: string): Tx<()> {
    var at := FindDispatch(db.dispatches, id);
    if !ValidId(id) || !ValidAck(ack) then Refuse(db, "malformed", "")
    else if at.None? then Refuse(db, "not_found", "dispatch")
    else if !caller.runner || caller.id != db.dispatches[at.value].facts.repository.runnerRoot.runnerId then
      Refuse(db, "runner_disabled", "delivery")
    else if id in db.acks then
      if db.acks[id] != ack then Refuse(db, "identity_conflict", "") else Tx(db, Ok(()))
    else
      var expired := ExpireGrants(db, due);
      var found := Deliverable(expired, caller, id, now, w, digests);
      if found.Refused? then Tx(expired, Refused(found.why))
      else if ack.identity != IdentityOf(found.value, generation) || ack.assignment != id then Refuse(db, "identity_conflict", "")
      else if ack.runnerBoot != found.value.facts.runnerBoot || ack.daemonBoot != expired.boot then Refuse(db, "boot_mismatch", "")
      else if MessageTaken(expired, ack.messageId) then Refuse(db, "identity_conflict", "")
      else Tx(expired.(acks := expired.acks[id := ack]), Ok(()))
  }

  // ---- stop, reconcile, restart ----

  function FindAssigned(attempts: seq<Attempt>, taskId: string): (at: Option<nat>)
    ensures at.Some? ==> at.value < |attempts| && attempts[at.value].taskId == taskId && attempts[at.value].state == Assigned
    ensures at.None? ==> forall i | 0 <= i < |attempts| :: !(attempts[i].taskId == taskId && attempts[i].state == Assigned)
  {
    if |attempts| == 0 then None
    else if attempts[|attempts| - 1].taskId == taskId && attempts[|attempts| - 1].state == Assigned then Some(|attempts| - 1)
    else FindAssigned(attempts[..|attempts| - 1], taskId)
  }

  /** `StopDispatch` */
  function Stopped(db: Db, owner: bool, taskId: string): Tx<()> {
    if !ValidId(taskId) then Refuse(db, "malformed", "task_id")
    else if !owner then Refuse(db, "denied", "")
    else
      var stopped := db.(stops := db.stops + {taskId});
      var at := FindAssigned(db.attempts, taskId);
      if at.None? then Tx(stopped, Ok(()))
      else
        var a := db.attempts[at.value];
        var check := CheckTransition(a.revision, Assigned, Stopping, a.state, a.revision);
        if check.Deny? then Tx(db, Refused(check))
        else Tx(Moved(stopped, at.value, Stopping, Derived(a.key, "stop")), Ok(()))
  }

  predicate GoodEvidence(proof: Reconciliation) {
    && ValidId(proof.dispatchId) && proof.to in {Cancelled, Expired} && proof.launchFenced && proof.artifactsPreserved
    && proof.remoteWork == "quiescent" && proof.confirmedProcess in {"not_started", "terminated"} && Sha256(proof.evidenceDigest)
  }

  /** `ReconcileDispatch`: the terminal transition and the release are one transaction; charges stay. */
  function Reconciled(db: Db, owner: bool, proof: Reconciliation, generation: string): Tx<()> {
    var at := FindDispatch(db.dispatches, proof.dispatchId);
    var attempt := FindAttempt(db.attempts, proof.dispatchId);
    if !GoodEvidence(proof) then Refuse(db, "reconciliation_required", "evidence")
    else if !owner then Refuse(db, "denied", "")
    else if at.None? || attempt.None? then Refuse(db, "not_found", "dispatch")
    else if proof.identity != IdentityOf(db.dispatches[at.value], generation) then Refuse(db, "stale_attempt", "")
    else if proof.dispatchId in db.releases then
      if db.releases[proof.dispatchId] != proof then Refuse(db, "identity_conflict", "") else Tx(db, Ok(()))
    else
      var a := db.attempts[attempt.value];
      var check := CheckTransition(proof.expectedRevision, a.state, proof.to, a.state, a.revision);
      if check.Deny? then Tx(db, Refused(check))
      else
        var moved := Moved(db, attempt.value, proof.to, Derived(proof.dispatchId, "terminal"));
        Tx(moved.(releases := moved.releases[proof.dispatchId := proof]), Ok(()))
  }

  predicate Resumable(s: AttemptState) { s in {Assigned, Starting, Running, ResultPending, Stopping} }

  /** `recoverAttempts` over the first n attempts: each becomes unknown, with one event. */
  function Recovered(db: Db, n: nat): Reply<Db>
    requires n <= |db.attempts|
    ensures Recovered(db, n).Ok? ==> |Recovered(db, n).value.attempts| == |db.attempts|
  {
    if n == 0 then Ok(db)
    else
      var earlier := Recovered(db, n - 1);
      if earlier.Refused? || !Resumable(earlier.value.attempts[n - 1].state) then earlier
      else
        var a := earlier.value.attempts[n - 1];
        var check := CheckTransition(a.revision, a.state, Unknown, a.state, a.revision);
        if check.Deny? then Refused(check) else Ok(Moved(earlier.value, n - 1, Unknown, Random(|earlier.value.events|)))
  }

  /** Opening the store: expired grants first, then the boot of the new process, then uncertain attempts, in one transaction. */
  function Restarted(db: Db, now: int, boot: string): Tx<()> {
    var expired := ExpireGrants(db, now).(boot := boot);
    var recovered := Recovered(expired, |expired.attempts|);
    if recovered.Refused? then Tx(db, Refused(recovered.why)) else Tx(recovered.value, Ok(()))
  }

  // ---- eligibility ----

  predicate PairedElsewhere(rows: seq<Eligibility>, v: Eligibility) {
    exists e :: && e in rows && e.id != v.id && e.repository.repository == v.repository.repository
                && e.repository.runnerRoot == v.repository.runnerRoot
  }

  /** `PublishEligibility` */
  function Published(db: Db, owner: bool, expected: int, v: Eligibility, w: Placement): Tx<()> {
    var previous := LatestFacts(db.eligibility, v.id);
    var revision := if previous.Some? then previous.value.revision else 0;
    if expected < 0 || expected >= MAX_SAFE then Refuse(db, "malformed", "revision")
    else if ValidateFacts(v).Deny? then Tx(db, Refused(ValidateFacts(v)))
    else if !owner then Refuse(db, "denied", "")
    else if !w.profileFound then Refuse(db, "repository_ineligible", "repository")
    else if !w.selects then Refuse(db, "repository_ineligible", "selection")
    else if previous == Some(v) && (expected == revision || expected == revision - 1) then Tx(db, Ok(()))
    else if revision != expected || v.revision != expected + 1 then Refuse(db, "revision_conflict", "eligibility")
    else if previous.Some? && (previous.value.repository.repository != v.repository.repository ||
                               previous.value.repository.runnerRoot != v.repository.runnerRoot) then
      Refuse(db, "identity_conflict", "eligibility_pairing")
    else if PairedElsewhere(db.eligibility, v) then Refuse(db, "identity_conflict", "eligibility_pairing")
    else Tx(db.(eligibility := db.eligibility + [v]), Ok(()))
  }
}
