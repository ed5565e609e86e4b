/** Eligibility facts and the admission check over them (`internal/scheduler/eligibility.go`). */
module Scheduling {
  import opened Text
  import opened Authority

  datatype Resources = Resources(cpu: int, memoryBytes: int, diskBytes: int, processes: int)

  datatype PathEvidence = PathEvidence(
    target: Target, compatible: bool, capabilities: seq<string>, contextTokens: int, localBounds: bool,
    providerOutputBound: bool, providerCostBound: bool)

  datatype IsolationProfile = IsolationProfile(
    id: string, revision: Revision, runtimeDigest: string, observedDigest: string, kind: string, supported: bool,
    dockerRequired: bool, controls: seq<string>)

  datatype RunnerRoot = RunnerRoot(runnerId: string, root: string)

  datatype Selection = Selection(repository: string, revision: int, profileDigest: string, baseCommit: string, runnerRoot: RunnerRoot)

  datatype Eligibility = Eligibility(
    id: string, revision: int, repository: Selection, enabled: bool, runnerBoot: string, localPolicy: Revision,
    localEnvelope: Envelope, config: Revision, route: Route, paths: seq<PathEvidence>, capabilities: seq<string>,
    isolation: IsolationProfile, capacity: Resources, concurrency: int, routerAuthenticated: bool, availability: string,
    validUntilMs: int)

  datatype Assessment = Assessment(
    taskId: string, brief: Revision, plan: Revision, contextDigest: string, role: string, workClass: string,
    ambiguity: string, consequence: string, required: seq<string>, preferences: seq<string>, evidenceRefs: seq<string>,
    unknowns: seq<string>, mandatoryUnknown: bool, contextTokens: int, hardOutputBound: bool, hardCostBound: bool,
    assessorVersion: string, selectorVersion: string)

  datatype Decision = Decision(
    id: string, revision: int, assessment: Assessment, eligibilityId: string, eligibility: Revision, selected: Route,
    rankedAlternatives: seq<string>, authorization: string, reason: string, resources: Resources)

  /** The digests of decisions and facts. */
  datatype Digests = Digests(ofDecision: Decision -> string, ofFacts: Eligibility -> string)

  predicate ValidResources(r: Resources) {
    Positive(r.cpu) && Positive(r.memoryBytes) && Positive(r.diskBytes) && Positive(r.processes)
  }

  predicate Fit(wanted: Resources, capacity: Resources) {
    && wanted.cpu <= capacity.cpu && wanted.memoryBytes <= capacity.memoryBytes
    && wanted.diskBytes <= capacity.diskBytes && wanted.processes <= capacity.processes
  }

  function EvidenceKey(e: PathEvidence): string { TargetKey(e.target) }

  predicate ValidIsolation(iso: IsolationProfile) {
    iso.id != "" ==>
      && Reference(iso.id) && ValidRevision(iso.revision) && Sha256(iso.runtimeDigest) && Sha256(iso.observedDigest)
      && Reference(iso.kind) && ValidSet(iso.controls, true, Reference)
  }

  predicate ValidEvidence(e: PathEvidence, route: Route) {
    e.target in route.targets && ValidSet(e.capabilities, true, Reference) && NonNegative(e.contextTokens)
  }

  /** `Eligibility.Validate` */
  function ValidateFacts(v: Eligibility): Check {
    var local := v.localEnvelope;
    if !Reference(v.id) || !Positive(v.revision) || !ValidId(v.runnerBoot) || !ValidRevision(v.localPolicy) || !ValidRevision(v.config) ||
       !Positive(v.validUntilMs) || !ValidResources(v.capacity) || !Positive(v.concurrency) || !ValidSet(v.capabilities, true, Reference) ||
       v.availability !in {"available", "degraded", "unknown", "outage", "exhausted"} then Deny("malformed", "eligibility")
    else if Validate(local).Deny? then Validate(local)
    else if |local.routes| != 1 || v.route != local.routes[0] || |local.runners| != 1 || local.runners[0] != v.repository.runnerRoot.runnerId ||
            local.repository != v.repository.repository || local.baseCommit != v.repository.baseCommit || !Positive(v.repository.revision) ||
            !Sha256(v.repository.profileDigest) then Deny("malformed", "local_policy")
    else if !Ordered(v.paths, EvidenceKey) then Deny("malformed", "path_evidence")
    else if exists e :: e in v.paths && !ValidEvidence(e, v.route) then Deny("malformed", "path_evidence")
    else if !ValidIsolation(v.isolation) then Deny("malformed", "isolation")
    else Pass
  }

  predicate Distinct(v: seq<string>) {
    forall i, k | 0 <= i < k < |v| :: v[i] != v[k]
  }

  /** `Decision.Validate` */
  function ValidateDecision(v: Decision): Check {
    var a := v.assessment;
    if !ValidId(v.id) || !Positive(v.revision) || !Reference(v.eligibilityId) || !ValidRevision(v.eligibility) || !Reference(v.authorization) ||
       !Reference(v.reason) || !ValidResources(v.resources) || !ValidId(a.taskId) || !ValidRevision(a.brief) || !ValidRevision(a.plan) ||
       !Sha256(a.contextDigest) || !Positive(a.contextTokens) then Deny("invalid_assessment", "decision")
    else if exists s :: s in [a.role, a.workClass, a.ambiguity, a.consequence, a.assessorVersion, a.selectorVersion] && !Reference(s) then
      Deny("invalid_assessment", "classification")
    else if !ValidSet(a.required, true, Reference) || !ValidSet(a.preferences, true, Reference) ||
            !ValidSet(a.evidenceRefs, true, Reference) || !ValidSet(a.unknowns, true, Reference) then
      Deny("invalid_assessment", "requirements")
    else if a.assessorVersion != "operator-v1" || |a.evidenceRefs| == 0 || |v.rankedAlternatives| > MAX_ITEMS then
      Deny("invalid_assessment", "provenance")
    else if (exists s :: s in v.rankedAlternatives && !Reference(s)) || !Distinct(v.rankedAlternatives) then
      Deny("invalid_assessment", "alternatives")
    else Pass
  }

  const CONTROLS := ["bounded-resources", "controlled-egress", "external-supervisor", "non-root", "secret-separation",
                     "tree-termination", "workspace-only"]

  function CheckIsolation(iso: IsolationProfile, route: Route): Check {
    if iso.id == "" then Deny("isolation_missing", "profile")
    else if !iso.supported || iso.dockerRequired || iso.kind !in {"native", "dedicated-vm"} then Deny("isolation_unsupported", "profile")
    else if iso.id != route.isolation || iso.runtimeDigest != iso.observedDigest then Deny("isolation_drift", "profile")
    else if !Contains(iso.controls, CONTROLS) then Deny("isolation_unsupported", "controls")
    else Pass
  }

  predicate Covers(path: PathEvidence, a: Assessment) {
    path.compatible && path.localBounds && path.contextTokens >= a.contextTokens
  }

  predicate BoundsAvailable(path: PathEvidence, a: Assessment, b: Budgets) {
    && ((a.hardOutputBound || b.providerOutputTokens > 0) ==> path.providerOutputBound)
    && ((a.hardCostBound || b.providerCostMicros.Some?) ==> path.providerCostBound)
  }

  /** The loop over the fallback graph: position by position. */
  function CheckPaths(paths: seq<PathEvidence>, targets: seq<Target>, a: Assessment, b: Budgets): Check
    requires |paths| == |targets|
  {
    if |paths| == 0 then Pass
    else if paths[0].target != targets[0] || !Covers(paths[0], a) then Deny("fallback_ineligible", "evidence")
    else if !Contains(paths[0].capabilities, a.required) then Deny("fallback_capability_missing", "capabilities")
    else if !BoundsAvailable(paths[0], a, b) then Deny("hard_bound_unavailable", "provider")
    else CheckPaths(paths[1..], targets[1..], a, b)
  }

  /** The local policy with the task's own bindings put in. */
  function LocalScope(facts: Eligibility, e: Envelope): Envelope {
    facts.localEnvelope.(brief := e.brief, plan := e.plan, routeDecision := e.routeDecision)
  }

  function CheckAssessment(e: Envelope, a: Assessment, facts: Eligibility): Check {
    if a.mandatoryUnknown then Deny("mandatory_unknown", "assessment")
    else if (a.hardCostBound && e.budgets.providerCostMicros.None?) || (a.hardOutputBound && e.budgets.providerOutputTokens == 0) then
      Deny("hard_bound_unavailable", "task_budget")
    else if !Contains(facts.capabilities, a.required) then Deny("runner_capability_missing", "capabilities")
    else if |facts.paths| != |facts.route.targets| then Deny("fallback_evidence_missing", "graph")
    else if CheckPaths(facts.paths, facts.route.targets, a, e.budgets).Deny? then CheckPaths(facts.paths, facts.route.targets, a, e.budgets)
    else if facts.route.limitsProfile == NATIVE && (a.hardOutputBound || a.hardCostBound) then Deny("hard_bound_unavailable", "limits_profile")
    else if !facts.routerAuthenticated then Deny("router_unauthenticated", "route")
    else if facts.availability in {"outage", "exhausted"} then Deny("route_unavailable", "route")
    else Pass
  }

  function CheckDispatch(request: Request, decision: Decision, facts: Eligibility, now: int, digests: Digests): Check {
    var e := request.envelope;
    if ValidateDecision(decision).Deny? then ValidateDecision(decision)
    else if ValidateFacts(facts).Deny? then ValidateFacts(facts)
    else if Validate(e).Deny? then Validate(e)
    else if |e.routes| != 1 || |e.runners| != 1 then Deny("malformed", "selection")
    else if e.routeDecision != Revision(decision.revision, digests.ofDecision(decision)) || decision.assessment.taskId != request.taskId ||
            decision.assessment.brief != e.brief || decision.assessment.plan != e.plan then Deny("stale_decision", "assessment")
    else if decision.eligibilityId != facts.id || decision.eligibility != Revision(facts.revision, digests.ofFacts(facts)) then
      Deny("stale_decision", "eligibility")
    else if now >= facts.validUntilMs then Deny("stale_evidence", "eligibility")
    else if !facts.enabled then Deny("local_policy_denied", "enabled")
    else if e.routes[0] != decision.selected || decision.selected != facts.route then Deny("stale_decision", "route")
    else if Within(e, LocalScope(facts, e)).Deny? then Deny("local_policy_denied", "scope")
    else if now < facts.localEnvelope.notBeforeMs || now >= facts.localEnvelope.expiresMs then Deny("local_policy_denied", "validity")
    else if CheckIsolation(facts.isolation, facts.route).Deny? then CheckIsolation(facts.isolation, facts.route)
    else CheckAssessment(e, decision.assessment, facts)
  }

  // ---- evidence covers the whole fallback graph ----

  function Targets(paths: seq<PathEvidence>): (targets: seq<Target>)
    ensures |targets| == |paths| && forall i | 0 <= i < |paths| :: targets[i] == paths[i].target
  {
    seq(|paths|, i requires 0 <= i < |paths| => paths[i].target)
  }

  /** A strictly ordered list is at least as long as any strictly ordered list of some of its members, and equally
      long only when it is the same list. */
  lemma {:induction false} SublistOfEqualLength<T>(a: seq<T>, b: seq<T>, key: T -> string)
    requires Ordered(a, key) && Ordered(b, key)
    requires forall x | x in a :: x in b
    ensures |a| <= |b|
    ensures |a| == |b| ==> a == b
    decreases |b|
  {
    if |a| > 0 {
      assert a[0] in b;
      var k :| 0 <= k < |b| && b[k] == a[0];
      forall x | x in a[1..] ensures x in b[1..] {
        var i :| 0 <= i < |a[1..]| && a[1..][i] == x;
        assert x == a[i + 1] && x in b;
        OrderedPairs(a, key, 0, i + 1);
        var m :| 0 <= m < |b| && b[m] == x;
        if m == 0 {
          if k > 0 {
            OrderedPairs(b, key, 0, k);
            BeforeTransitive(key(a[0]), key(x), key(a[0]));
          }
          BeforeIrreflexive(key(a[0]));
        } else {
          assert b[1..][m - 1] == x;
        }
      }
      SublistOfEqualLength(a[1..], b[1..], key);
      if |a| == |b| {
        SameFirst(a, b, key, k);
        assert a == [a[0]] + a[1..] && b == [b[0]] + b[1..];
      }
    }
  }

  lemma SameFirst<T>(a: seq<T>, b: seq<T>, key: T -> string, k: nat)
    requires Ordered(a, key) && Ordered(b, key) && |a| == |b| > 0 && a[1..] == b[1..] && k < |b| && b[k] == a[0]
    ensures a[0] == b[0]
  {
    if k > 0 {
      assert b[1..][k - 1] == a[1..][k - 1] == a[k];
      OrderedPairs(a, key, 0, k);
      BeforeIrreflexive(key(a[0]));
    }
  }

  /** For validated facts, as many evidence entries as targets already means entry i speaks about target i: the
      position comparison of the admission loop never refuses on its own. */
  lemma EvidenceInPosition(facts: Eligibility)
    requires ValidateFacts(facts).Pass? && |facts.paths| == |facts.route.targets|
    ensures Targets(facts.paths) == facts.route.targets
  {
    var targets := Targets(facts.paths);
    ValidRouteOrdered(facts);
    forall i | 1 <= i < |targets| ensures Before(TargetKey(targets[i - 1]), TargetKey(targets[i])) {
      assert Before(EvidenceKey(facts.paths[i - 1]), EvidenceKey(facts.paths[i]));
    }
    forall t | t in targets ensures t in facts.route.targets {
      var i :| 0 <= i < |targets| && targets[i] == t;
      assert facts.paths[i] in facts.paths;
    }
    SublistOfEqualLength(targets, facts.route.targets, TargetKey);
  }

  lemma {:induction false} RoutesWellFormed(routes: seq<Route>, b: Budgets, r: Route)
    requires CheckRoutes(routes, b).Pass? && r in routes
    ensures WellFormedRoute(r)
  {
    if routes[0] != r {
      RoutesWellFormed(routes[1..], b, r);
    }
  }

  lemma ValidRouteOrdered(facts: Eligibility)
    requires ValidateFacts(facts).Pass?
    ensures Ordered(facts.route.targets, TargetKey) && Ordered(facts.paths, EvidenceKey)
    ensures forall e | e in facts.paths :: ValidEvidence(e, facts.route)
  {
    RoutesWellFormed(facts.localEnvelope.routes, facts.localEnvelope.budgets, facts.route);
  }

  lemma {:induction false} PathsChecked(paths: seq<PathEvidence>, targets: seq<Target>, a: Assessment, b: Budgets, i: nat)
    requires |paths| == |targets| && CheckPaths(paths, targets, a, b).Pass? && i < |paths|
    ensures paths[i].target == targets[i] && Covers(paths[i], a) && Contains(paths[i].capabilities, a.required)
    ensures BoundsAvailable(paths[i], a, b)
  {
    if i > 0 {
      PathsChecked(paths[1..], targets[1..], a, b, i - 1);
    }
  }

  /** Every target a dispatched route can fall back to has its own compatible evidence with every required capability. */
  lemma EveryFallbackCovered(request: Request, decision: Decision, facts: Eligibility, now: int, digests: Digests, t: Target)
    requires CheckDispatch(request, decision, facts, now, digests).Pass?
    requires t in request.envelope.routes[0].targets
    ensures exists e :: && e in facts.paths && e.target == t && Covers(e, decision.assessment)
                        && Contains(e.capabilities, decision.assessment.required)
                        && BoundsAvailable(e, decision.assessment, request.envelope.budgets)
  {
    hide Validate, ValidateFacts, ValidateDecision, Within, Covers, BoundsAvailable, Contains;
    var i :| 0 <= i < |facts.route.targets| && facts.route.targets[i] == t;
    PathsChecked(facts.paths, facts.route.targets, decision.assessment, request.envelope.budgets, i);
    assert facts.paths[i] in facts.paths;
  }

  /** An admitted request lies inside the local policy scope of the facts it was admitted on. */
  lemma DispatchWithinLocal(request: Request, decision: Decision, facts: Eligibility, now: int, digests: Digests)
    requires CheckDispatch(request, decision, facts, now, digests).Pass?
    ensures Within(request.envelope, LocalScope(facts, request.envelope)).Pass?
    ensures Validate(request.envelope).Pass? && |request.envelope.routes| == 1
  {
    hide Validate, ValidateFacts, ValidateDecision, Within;
  }
}
