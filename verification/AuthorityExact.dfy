/** The checks of envelopes, grants and dispatch facts as conditions: every chain of refusals and every loop passes exactly when
    a plain statement about the fields holds (`internal/authority/grant.go:67-352`, `internal/scheduler/eligibility.go`). */
module AuthorityExact {
  import opened Text
  import opened Authority
  import opened Scheduling

  // ---- envelopes ----

  predicate Billable(t: Target, limitsProfile: string) {
    && Reference(t.provider) && ModelName(t.model)
    && (t.billing == "subscription" || (t.billing == "metered" && limitsProfile != NATIVE))
  }

  /** What a route must be under the budgets of its envelope. */
  predicate RouteStands(r: Route, b: Budgets) {
    && WellFormedRoute(r)
    && (r.limitsProfile == STRICT || r.limitsProfile == NATIVE)
    && (r.limitsProfile == STRICT ==> b.providerOutputTokens != 0)
    && (r.limitsProfile == NATIVE ==> b.providerOutputTokens == 0 && b.providerCostMicros == None)
    && forall t | t in r.targets :: Billable(t, r.limitsProfile)
  }

  predicate AllOf(v: seq<string>, valid: string -> bool) {
    |v| <= MAX_ITEMS && (forall i | 1 <= i < |v| :: Before(v[i - 1], v[i])) && forall s | s in v :: valid(s)
  }

  predicate Operation(s: string) { s == "read" || s == "verify" || s == "write" }

  predicate EnvelopeStands(e: Envelope) {
    && Reference(e.repository) && Commit(e.baseCommit)
    && ValidRevision(e.brief) && ValidRevision(e.plan) && ValidRevision(e.routeDecision)
    && e.criterionIds != [] && AllOf(e.criterionIds, Reference) && e.taskKinds != [] && AllOf(e.taskKinds, Reference)
    && e.paths != [] && AllOf(e.paths, ValidPath) && e.operations != [] && AllOf(e.operations, Operation)
    && AllOf(e.systems, Reference) && e.runners != [] && AllOf(e.runners, ValidId)
    && 0 < e.notBeforeMs < e.expiresMs <= MAX_SAFE
    && e.routes != [] && Ordered(e.routes, RouteKey)
    && (e.selection == "within-envelope" || (e.selection == "pinned" && |e.routes| == 1))
    && BudgetsStand(e.budgets)
    && forall r | r in e.routes :: RouteStands(r, e.budgets)
  }

  predicate BudgetsStand(b: Budgets) {
    && 0 < b.requests <= MAX_SAFE && 0 < b.attempts <= MAX_SAFE && 0 < b.subattempts <= MAX_SAFE && 0 <= b.retries <= MAX_SAFE
    && 0 < b.concurrency <= MAX_SAFE && 0 < b.requestBytes <= MAX_SAFE && 0 < b.responseBytes <= MAX_SAFE
    && 0 < b.attemptMs <= b.totalMs <= MAX_SAFE && 0 < b.firstOutputMs <= b.attemptMs && 0 < b.idleMs <= b.attemptMs
    && 0 <= b.providerOutputTokens <= MAX_SAFE && (b.providerCostMicros.Some? ==> 0 <= b.providerCostMicros.value <= MAX_SAFE)
  }

  lemma Members<T>(v: seq<T>)
    requires |v| > 0
    ensures v[0] in v && forall x :: x in v <==> x == v[0] || x in v[1..]
  {
    assert v == [v[0]] + v[1..];
  }

  lemma {:induction false} TargetsExact(r: Route, targets: seq<Target>)
    ensures CheckTargets(r, targets).Pass? <==> forall t | t in targets :: Billable(t, r.limitsProfile)
  {
    if |targets| > 0 {
      TargetsExact(r, targets[1..]);
      Members(targets);
      var first := CheckTargets(r, targets);
      assert first.Pass? <==> Billable(targets[0], r.limitsProfile) && CheckTargets(r, targets[1..]).Pass?;
    }
  }

  lemma {:induction false} RoutesExact(routes: seq<Route>, b: Budgets)
    ensures CheckRoutes(routes, b).Pass? <==> forall r | r in routes :: RouteStands(r, b)
  {
    hide WellFormedRoute, CheckTargets, Billable;
    if |routes| > 0 {
      RoutesExact(routes[1..], b);
      TargetsExact(routes[0], routes[0].targets);
      Members(routes);
      assert CheckRoutes(routes, b).Pass? <==> RouteStands(routes[0], b) && CheckRoutes(routes[1..], b).Pass?;
    }
  }

  lemma SetExact(v: seq<string>, empty: bool, valid: string -> bool)
    ensures ValidSet(v, empty, valid) <==> (empty || v != []) && AllOf(v, valid)
  {
  }

  lemma OperationsExact(v: seq<string>)
    ensures ValidSet(v, false, s => s in {"read", "verify", "write"}) <==> v != [] && AllOf(v, Operation)
  {
  }

  /** `Envelope.Validate`. */
  lemma ValidateExact(e: Envelope)
    ensures Validate(e).Pass? <==> EnvelopeStands(e)
  {
    hide CheckRoutes, ValidSet, AllOf, Ordered, Commit, ValidRevision, Reference, RouteStands, ValidPath, ValidId;
    RoutesExact(e.routes, e.budgets);
    SetExact(e.criterionIds, false, Reference);
    SetExact(e.taskKinds, false, Reference);
    SetExact(e.paths, false, ValidPath);
    OperationsExact(e.operations);
    SetExact(e.systems, true, Reference);
    SetExact(e.runners, false, ValidId);
  }

  /** Nothing is wider in the one envelope than in the other, and what the task is about is the same. */
  predicate Inside(next: Envelope, approved: Envelope) {
    && EnvelopeStands(next) && EnvelopeStands(approved)
    && next.repository == approved.repository && next.baseCommit == approved.baseCommit
    && next.brief == approved.brief && next.plan == approved.plan && next.routeDecision == approved.routeDecision
    && next.selection == approved.selection
    && (forall s | s in next.criterionIds :: s in approved.criterionIds) && (forall s | s in next.taskKinds :: s in approved.taskKinds)
    && (forall s | s in next.paths :: s in approved.paths) && (forall s | s in next.operations :: s in approved.operations)
    && (forall s | s in next.systems :: s in approved.systems) && (forall s | s in next.runners :: s in approved.runners)
    && (forall r | r in next.routes :: r in approved.routes)
    && approved.notBeforeMs <= next.notBeforeMs && next.expiresMs <= approved.expiresMs
    && BudgetsInside(next.budgets, approved.budgets)
  }

  predicate BudgetsInside(n: Budgets, a: Budgets) {
    && n.requests <= a.requests && n.attempts <= a.attempts && n.subattempts <= a.subattempts && n.retries <= a.retries
    && n.concurrency <= a.concurrency && n.requestBytes <= a.requestBytes && n.responseBytes <= a.responseBytes
    && n.totalMs <= a.totalMs && n.attemptMs <= a.attemptMs && n.firstOutputMs <= a.firstOutputMs && n.idleMs <= a.idleMs
    && n.providerOutputTokens <= a.providerOutputTokens
    && (a.providerCostMicros.Some? ==> n.providerCostMicros.Some? && n.providerCostMicros.value <= a.providerCostMicros.value)
  }

  /** `Within`. */
  lemma WithinExact(next: Envelope, approved: Envelope)
    ensures Within(next, approved).Pass? <==> Inside(next, approved)
  {
    hide Validate, EnvelopeStands;
    ValidateExact(next);
    ValidateExact(approved);
  }

  // ---- grants ----

  predicate GrantStands(g: Grant) {
    ValidId(g.id) && ValidId(g.taskId) && 0 < g.revision <= MAX_SAFE && Reference(g.actor) && EnvelopeStands(g.envelope)
  }

  lemma ValidateGrantExact(g: Grant)
    ensures ValidateGrant(g).Pass? <==> GrantStands(g)
  {
    hide Validate, EnvelopeStands, ValidId, Reference;
    ValidateExact(g.envelope);
  }

  /** The request is one to execute inside the grant, now, on one route, runner and kind of task. */
  predicate MayExecute(g: Grant, r: Request, now: int) {
    && GrantStands(g) && ValidId(r.grantId) && ValidId(r.taskId) && 0 < r.grantRevision <= MAX_SAFE && 0 < now <= MAX_SAFE
    && r.action == "execute" && r.grantId == g.id && r.taskId == g.taskId && r.grantRevision == g.revision
    && g.envelope.notBeforeMs <= now < g.envelope.expiresMs && r.envelope.notBeforeMs <= now < r.envelope.expiresMs
    && Inside(r.envelope, g.envelope)
    && |r.envelope.routes| == 1 && |r.envelope.runners| == 1 && |r.envelope.taskKinds| == 1
  }

  /** `Check`. */
  lemma CheckGrantExact(g: Grant, r: Request, now: int)
    ensures CheckGrant(g, r, now).Pass? <==> MayExecute(g, r, now)
  {
    hide ValidateGrant, GrantStands, Within, Inside, ValidId;
    ValidateGrantExact(g);
    WithinExact(r.envelope, g.envelope);
  }

  // ---- replacement ----

  predicate Forward(next: Revision, previous: Revision) {
    && ValidRevision(next) && ValidRevision(previous)
    && (next.number > previous.number || (next.number == previous.number && next.sha256 == previous.sha256))
  }

  /** Both the number and the digest of the route decision moved on. */
  predicate DecidedAnew(next: Envelope, previous: Envelope) {
    next.routeDecision.number > previous.routeDecision.number && next.routeDecision.sha256 != previous.routeDecision.sha256
  }

  predicate RouteMaySucceed(n: Route, o: Route) {
    RouteKey(n) == RouteKey(o) ==>
      && (n.routeRevision > o.routeRevision || n == o) && Forward(n.policy, o.policy) && Forward(n.evidence, o.evidence)
      && (n.limitsProfile != o.limitsProfile ==> n.policy.number > o.policy.number && n.policy.sha256 != o.policy.sha256)
  }

  predicate MaySucceed(next: Envelope, previous: Envelope) {
    && Forward(next.brief, previous.brief) && Forward(next.plan, previous.plan) && Forward(next.routeDecision, previous.routeDecision)
    && (forall n | n in next.routes && n !in previous.routes :: DecidedAnew(next, previous))
    && (forall n, o | n in next.routes && o in previous.routes :: RouteMaySucceed(n, o))
  }

  lemma RevisionExact(next: Revision, previous: Revision)
    ensures CheckRevision(next, previous).Pass? <==> Forward(next, previous)
  {
  }

  lemma RouteExact(n: Route, o: Route)
    ensures ReplaceRoute(n, o).Pass? <==> RouteMaySucceed(n, o)
  {
    hide CheckRevision, Forward, RouteKey;
    RevisionExact(n.policy, o.policy);
    RevisionExact(n.evidence, o.evidence);
  }

  lemma {:induction false} AgainstExact(n: Route, olds: seq<Route>)
    ensures AgainstRoutes(n, olds).Pass? <==> forall o | o in olds :: RouteMaySucceed(n, o)
  {
    hide ReplaceRoute, RouteMaySucceed;
    if |olds| > 0 {
      RouteExact(n, olds[0]);
      AgainstExact(n, olds[1..]);
      Members(olds);
    }
  }

  predicate RouteAdmitted(n: Route, next: Envelope, previous: Envelope) {
    (n !in previous.routes ==> DecidedAnew(next, previous)) && forall o | o in previous.routes :: RouteMaySucceed(n, o)
  }

  lemma {:induction false} ReplaceRoutesExact(routes: seq<Route>, next: Envelope, previous: Envelope)
    ensures ReplaceRoutes(routes, next, previous).Pass? <==> forall n | n in routes :: RouteAdmitted(n, next, previous)
  {
    hide AgainstRoutes, RouteMaySucceed;
    if |routes| > 0 {
      AgainstExact(routes[0], previous.routes);
      ReplaceRoutesExact(routes[1..], next, previous);
      Members(routes);
      assert ReplaceRoutes(routes, next, previous).Pass? <==>
             RouteAdmitted(routes[0], next, previous) && ReplaceRoutes(routes[1..], next, previous).Pass?;
    }
  }

  /** `Replacement`. */
  lemma ReplacementExact(next: Envelope, previous: Envelope)
    ensures Replacement(next, previous).Pass? <==> MaySucceed(next, previous)
  {
    hide CheckRevision, Forward, ReplaceRoutes, RouteMaySucceed;
    RevisionExact(next.brief, previous.brief);
    RevisionExact(next.plan, previous.plan);
    RevisionExact(next.routeDecision, previous.routeDecision);
    ReplaceRoutesExact(next.routes, next, previous);
    if MaySucceed(next, previous) {
      forall n | n in next.routes ensures RouteAdmitted(n, next, previous) {
      }
    }
    if forall n | n in next.routes :: RouteAdmitted(n, next, previous) {
      forall n, o | n in next.routes && o in previous.routes ensures RouteMaySucceed(n, o) {
        assert RouteAdmitted(n, next, previous);
      }
      forall n | n in next.routes && n !in previous.routes ensures DecidedAnew(next, previous) {
        assert RouteAdmitted(n, next, previous);
      }
    }
  }

  // ---- facts and decisions ----

  predicate ResourcesStand(r: Resources) {
    0 < r.cpu <= MAX_SAFE && 0 < r.memoryBytes <= MAX_SAFE && 0 < r.diskBytes <= MAX_SAFE && 0 < r.processes <= MAX_SAFE
  }

  predicate FactsStand(v: Eligibility) {
    && Reference(v.id) && 0 < v.revision <= MAX_SAFE && ValidId(v.runnerBoot) && ValidRevision(v.localPolicy) && ValidRevision(v.config)
    && 0 < v.validUntilMs <= MAX_SAFE && ResourcesStand(v.capacity) && 0 < v.concurrency <= MAX_SAFE && AllOf(v.capabilities, Reference)
    && v.availability in {"available", "degraded", "unknown", "outage", "exhausted"}
    && EnvelopeStands(v.localEnvelope) && v.localEnvelope.routes == [v.route]
    && v.localEnvelope.runners == [v.repository.runnerRoot.runnerId]
    && v.localEnvelope.repository == v.repository.repository && v.localEnvelope.baseCommit == v.repository.baseCommit
    && 0 < v.repository.revision <= MAX_SAFE && Sha256(v.repository.profileDigest)
    && Ordered(v.paths, EvidenceKey) && (forall e | e in v.paths :: ValidEvidence(e, v.route)) && ValidIsolation(v.isolation)
  }

  /** `Eligibility.Validate`. */
  lemma ValidateFactsExact(v: Eligibility)
    ensures ValidateFacts(v).Pass? <==> FactsStand(v)
  {
    hide Validate, EnvelopeStands, ValidSet, AllOf, Ordered, ValidEvidence, ValidIsolation, Reference, ValidId, ValidRevision, Sha256;
    ValidateExact(v.localEnvelope);
    SetExact(v.capabilities, true, Reference);
  }

  predicate AssessmentStands(a: Assessment) {
    && ValidId(a.taskId) && ValidRevision(a.brief) && ValidRevision(a.plan) && Sha256(a.contextDigest) && 0 < a.contextTokens <= MAX_SAFE
    && Reference(a.role) && Reference(a.workClass) && Reference(a.ambiguity) && Reference(a.consequence)
    && a.assessorVersion == "operator-v1" && Reference(a.selectorVersion)
    && AllOf(a.required, Reference) && AllOf(a.preferences, Reference) && AllOf(a.unknowns, Reference)
    && a.evidenceRefs != [] && AllOf(a.evidenceRefs, Reference)
  }

  predicate DecisionStands(v: Decision) {
    && ValidId(v.id) && 0 < v.revision <= MAX_SAFE && Reference(v.eligibilityId) && ValidRevision(v.eligibility)
    && Reference(v.authorization) && Reference(v.reason) && ResourcesStand(v.resources) && AssessmentStands(v.assessment)
    && |v.rankedAlternatives| <= MAX_ITEMS && (forall s | s in v.rankedAlternatives :: Reference(s))
    && (forall i, k | 0 <= i < k < |v.rankedAlternatives| :: v.rankedAlternatives[i] != v.rankedAlternatives[k])
  }

  lemma OperatorIsReference()
    ensures Reference("operator-v1")
  {
  }

  /** `Decision.Validate`. */
  lemma ValidateDecisionExact(v: Decision)
    ensures ValidateDecision(v).Pass? <==> DecisionStands(v)
  {
    hide ValidSet, AllOf, Reference, ValidId, ValidRevision, Sha256;
    var a := v.assessment;
    OperatorIsReference();
    SetExact(a.required, true, Reference);
    SetExact(a.preferences, true, Reference);
    SetExact(a.evidenceRefs, true, Reference);
    SetExact(a.unknowns, true, Reference);
    var names := [a.role, a.workClass, a.ambiguity, a.consequence, a.assessorVersion, a.selectorVersion];
    assert forall s :: s in names <==> s == a.role || s == a.workClass || s == a.ambiguity || s == a.consequence || s == a.assessorVersion || s == a.selectorVersion;
  }

  // ---- dispatch ----

  /** The isolation profile is the route's, present, supported and controlled, and runs what it should. */
  predicate IsolationServes(iso: IsolationProfile, route: Route) {
    && iso.id != "" && iso.supported && !iso.dockerRequired && (iso.kind == "native" || iso.kind == "dedicated-vm")
    && iso.id == route.isolation && iso.runtimeDigest == iso.observedDigest
    && "bounded-resources" in iso.controls && "controlled-egress" in iso.controls && "external-supervisor" in iso.controls
    && "non-root" in iso.controls && "secret-separation" in iso.controls && "tree-termination" in iso.controls
    && "workspace-only" in iso.controls
  }

  lemma IsolationExact(iso: IsolationProfile, route: Route)
    ensures CheckIsolation(iso, route).Pass? <==> IsolationServes(iso, route)
  {
    hide Contains, CONTROLS;
    ControlsExact(iso.controls);
  }

  lemma ControlsExact(controls: seq<string>)
    ensures Contains(controls, CONTROLS) <==>
              && "bounded-resources" in controls && "controlled-egress" in controls && "external-supervisor" in controls
              && "non-root" in controls && "secret-separation" in controls && "tree-termination" in controls && "workspace-only" in controls
  {
    assert CONTROLS[0] == "bounded-resources" && CONTROLS[1] == "controlled-egress" && CONTROLS[2] == "external-supervisor"
        && CONTROLS[3] == "non-root" && CONTROLS[4] == "secret-separation" && CONTROLS[5] == "tree-termination"
        && CONTROLS[6] == "workspace-only" && |CONTROLS| == 7;
  }

  /** The evidence about one target of the fallback graph is enough for the assessment and the budgets. */
  predicate EvidenceServes(path: PathEvidence, a: Assessment, b: Budgets) {
    && path.compatible && path.localBounds && path.contextTokens >= a.contextTokens
    && (forall s | s in a.required :: s in path.capabilities)
    && (a.hardOutputBound || b.providerOutputTokens > 0 ==> path.providerOutputBound)
    && (a.hardCostBound || b.providerCostMicros.Some? ==> path.providerCostBound)
  }

  lemma {:induction false} PathsExact(paths: seq<PathEvidence>, targets: seq<Target>, a: Assessment, b: Budgets)
    requires |paths| == |targets|
    ensures CheckPaths(paths, targets, a, b).Pass? <==>
            forall i | 0 <= i < |paths| :: paths[i].target == targets[i] && EvidenceServes(paths[i], a, b)
  {
    hide EvidenceServes, Covers, BoundsAvailable, Contains;
    if |paths| > 0 {
      PathsExact(paths[1..], targets[1..], a, b);
      FirstPath(paths[0], a, b);
      var rest, others := paths[1..], targets[1..];
      assert forall i | 1 <= i < |paths| :: paths[i] == rest[i - 1] && targets[i] == others[i - 1];
    }
  }

  lemma FirstPath(path: PathEvidence, a: Assessment, b: Budgets)
    ensures EvidenceServes(path, a, b) <==> Covers(path, a) && Contains(path.capabilities, a.required) && BoundsAvailable(path, a, b)
  {
  }

  predicate AssessmentServed(e: Envelope, a: Assessment, facts: Eligibility) {
    && !a.mandatoryUnknown
    && (a.hardCostBound ==> e.budgets.providerCostMicros.Some?) && (a.hardOutputBound ==> e.budgets.providerOutputTokens != 0)
    && (forall s | s in a.required :: s in facts.capabilities)
    && |facts.paths| == |facts.route.targets|
    && (forall i | 0 <= i < |facts.paths| :: facts.paths[i].target == facts.route.targets[i] && EvidenceServes(facts.paths[i], a, e.budgets))
    && (facts.route.limitsProfile == NATIVE ==> !a.hardOutputBound && !a.hardCostBound)
    && facts.routerAuthenticated && facts.availability != "outage" && facts.availability != "exhausted"
  }

  lemma AssessmentExact(e: Envelope, a: Assessment, facts: Eligibility)
    ensures CheckAssessment(e, a, facts).Pass? <==> AssessmentServed(e, a, facts)
  {
    hide EvidenceServes, CheckPaths;
    if |facts.paths| == |facts.route.targets| {
      PathsExact(facts.paths, facts.route.targets, a, e.budgets);
    }
  }

  /** The facts allow the request: the decision is about this request and these very facts, they are current and enabled, the
      request lies in the local scope while that is valid, and route, isolation and evidence serve the assessment. */
  predicate FactsServe(request: Request, decision: Decision, facts: Eligibility, now: int, digests: Digests) {
    var e := request.envelope;
    && DecisionStands(decision) && FactsStand(facts) && EnvelopeStands(e) && |e.routes| == 1 && |e.runners| == 1
    && e.routeDecision.number == decision.revision && e.routeDecision.sha256 == digests.ofDecision(decision)
    && decision.assessment.taskId == request.taskId && decision.assessment.brief == e.brief && decision.assessment.plan == e.plan
    && decision.eligibilityId == facts.id && decision.eligibility.number == facts.revision
    && decision.eligibility.sha256 == digests.ofFacts(facts)
    && now < facts.validUntilMs && facts.enabled
    && e.routes[0] == decision.selected == facts.route
    && Inside(e, facts.localEnvelope.(brief := e.brief, plan := e.plan, routeDecision := e.routeDecision))
    && facts.localEnvelope.notBeforeMs <= now < facts.localEnvelope.expiresMs
    && IsolationServes(facts.isolation, facts.route) && AssessmentServed(e, decision.assessment, facts)
  }

  /** `CheckDispatch`. */
  lemma CheckDispatchExact(request: Request, decision: Decision, facts: Eligibility, now: int, digests: Digests)
    ensures CheckDispatch(request, decision, facts, now, digests).Pass? <==> FactsServe(request, decision, facts, now, digests)
  {
    hide Validate, EnvelopeStands, ValidateFacts, FactsStand, ValidateDecision, DecisionStands, Within, Inside, CheckIsolation, IsolationServes,
         CheckAssessment, AssessmentServed;
    var e := request.envelope;
    ValidateDecisionExact(decision);
    ValidateFactsExact(facts);
    ValidateExact(e);
    WithinExact(e, LocalScope(facts, e));
    IsolationExact(facts.isolation, facts.route);
    AssessmentExact(e, decision.assessment, facts);
  }
}
