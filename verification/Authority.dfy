/** Immutable execution envelopes and the checks between them (`internal/authority/grant.go`). */
module Authority {
  import opened Text

  /** A refusal names a code and the contract member. */
  datatype Check = Pass | Deny(code: string, field: string)

  const MAX_ITEMS := 128

  datatype Revision = Revision(number: int, sha256: string)

  datatype Target = Target(provider: string, model: string, billing: string)

  datatype Route = Route(
    routeRef: string, profileRef: string, routeRevision: int, policy: Revision, routerBuild: string, graphDigest: string,
    evidence: Revision, harness: string, protocol: string, settingsDigest: string, isolation: string,
    limitsProfile: string, limitsAuthority: string, targets: seq<Target>)

  datatype Budgets = Budgets(
    requests: int, attempts: int, subattempts: int, retries: int, concurrency: int, requestBytes: int, responseBytes: int,
    totalMs: int, attemptMs: int, firstOutputMs: int, idleMs: int, providerOutputTokens: int, providerCostMicros: Option<int>)

  datatype Envelope = Envelope(
    repository: string, baseCommit: string, brief: Revision, plan: Revision, routeDecision: Revision,
    criterionIds: seq<string>, taskKinds: seq<string>, paths: seq<string>, operations: seq<string>, systems: seq<string>,
    runners: seq<string>, routes: seq<Route>, selection: string, budgets: Budgets, notBeforeMs: int, expiresMs: int)

  datatype Grant = Grant(id: string, taskId: string, revision: int, actor: string, envelope: Envelope)

  datatype Request = Request(grantId: string, taskId: string, grantRevision: int, action: string, envelope: Envelope)

  // ---- formats ----

  /** A canonical version 4 UUID (`ValidID` of `schemas/execution/protocol.go`). */
  predicate ValidId(s: string) {
    Uuid(s) && s[14] == '4' && s[19] in {'8', '9', 'a', 'b'}
  }

  predicate ModelName(s: string) {
    1 <= |s| <= 128 &&
    forall i | 0 <= i < |s| ::
      Alphanumeric(s[i]) || (i > 0 && s[i] in {'.', '_', ':', '/', '-'})
  }

  predicate Commit(s: string) { Hex(s, 40) || Hex(s, 64) }

  predicate Positive(n: int) { 0 < n <= MAX_SAFE }

  predicate NonNegative(n: int) { 0 <= n <= MAX_SAFE }

  predicate ValidRevision(r: Revision) { Positive(r.number) && Sha256(r.sha256) }

  function Parts(s: string): seq<string> {
    if |s| == 0 then [""]
    else
      var rest := Parts(s[1..]);
      if s[0] == '/' || |rest| == 0 then [""] + rest else [[s[0]] + rest[0]] + rest[1..]
  }

  function LowerCase(c: char): char {
    if 'A' <= c <= 'Z' then (c as int + 32) as char else c
  }

  predicate IsGit(part: string) {
    |part| == 4 && LowerCase(part[0]) == '.' && LowerCase(part[1]) == 'g' && LowerCase(part[2]) == 'i' && LowerCase(part[3]) == 't'
  }

  predicate ValidPath(s: string) {
    && |s| <= 512 && s != "."
    && (forall i | 0 <= i < |s| :: 32 as char <= s[i] <= 126 as char && s[i] !in {'\\', '*', '?', '[', ']', ':'})
    && (forall part | part in Parts(s) :: part !in {"", ".", ".."} && !IsGit(part))
  }

  /** Strictly increasing keys, at most 128 of them. */
  predicate Ordered<T>(v: seq<T>, key: T -> string) {
    |v| <= MAX_ITEMS && forall i | 1 <= i < |v| :: Before(key(v[i - 1]), key(v[i]))
  }

  function Itself(s: string): string { s }

  /** The separator cannot occur in the joined parts. */
  function RouteKey(r: Route): string { r.routeRef + "\0" + r.profileRef }

  function TargetKey(t: Target): string { t.provider + "\0" + t.model + "\0" + t.billing }

  predicate ValidSet(v: seq<string>, empty: bool, valid: string -> bool) {
    (empty || |v| > 0) && Ordered(v, Itself) && forall s | s in v :: valid(s)
  }

  // ---- Envelope.Validate ----

  const STRICT := "strict-provider-output-v1"
  const NATIVE := "native-subscription-local-v1"

  predicate ValidBudgets(b: Budgets) {
    && Positive(b.requests) && Positive(b.attempts) && Positive(b.subattempts) && Positive(b.concurrency)
    && Positive(b.requestBytes) && Positive(b.responseBytes) && Positive(b.totalMs) && Positive(b.attemptMs)
    && Positive(b.firstOutputMs) && Positive(b.idleMs)
    && NonNegative(b.retries) && NonNegative(b.providerOutputTokens)
    && (b.providerCostMicros.Some? ==> NonNegative(b.providerCostMicros.value))
    && b.attemptMs <= b.totalMs && b.firstOutputMs <= b.attemptMs && b.idleMs <= b.attemptMs
  }

  predicate WellFormedRoute(r: Route) {
    && Reference(r.routeRef) && Reference(r.profileRef) && Positive(r.routeRevision) && ValidRevision(r.policy)
    && ValidRevision(r.evidence) && Sha256(r.routerBuild) && Sha256(r.graphDigest) && Sha256(r.settingsDigest)
    && Reference(r.harness) && Reference(r.protocol) && Reference(r.isolation) && Reference(r.limitsAuthority)
    && |r.targets| > 0 && Ordered(r.targets, TargetKey)
  }

  function CheckTargets(r: Route, targets: seq<Target>): Check {
    if |targets| == 0 then Pass
    else
      var t := targets[0];
      if !Reference(t.provider) || !ModelName(t.model) || t.billing !in {"subscription", "metered"} then
        Deny("malformed", "provider_model_billing")
      else if r.limitsProfile == NATIVE && t.billing != "subscription" then Deny("incompatible_route_policy", "billing")
      else CheckTargets(r, targets[1..])
  }

  function CheckRoutes(routes: seq<Route>, b: Budgets): Check {
    if |routes| == 0 then Pass
    else
      var r := routes[0];
      if !WellFormedRoute(r) then Deny("malformed", "route_profile")
      else if r.limitsProfile == STRICT && b.providerOutputTokens == 0 then
        Deny("incompatible_route_policy", "provider_output_tokens")
      else if r.limitsProfile == NATIVE && (b.providerOutputTokens != 0 || b.providerCostMicros.Some?) then
        Deny("incompatible_route_policy", "provider_bounds")
      else if r.limitsProfile !in {STRICT, NATIVE} then Deny("incompatible_route_policy", "limits_profile")
      else
        var targets := CheckTargets(r, r.targets);
        if targets.Deny? then targets else CheckRoutes(routes[1..], b)
  }

  function Validate(e: Envelope): Check {
    if !Reference(e.repository) || !Commit(e.baseCommit) then Deny("malformed", "repository/base")
    else if !ValidRevision(e.brief) || !ValidRevision(e.plan) || !ValidRevision(e.routeDecision) then Deny("malformed", "revisions")
    else if !ValidSet(e.criterionIds, false, Reference) then Deny("malformed", "criterion_ids")
    else if !ValidSet(e.taskKinds, false, Reference) then Deny("malformed", "task_kinds")
    else if !ValidSet(e.paths, false, ValidPath) then Deny("malformed", "paths")
    else if !ValidSet(e.operations, false, s => s in {"read", "verify", "write"}) then Deny("malformed", "operations")
    else if !ValidSet(e.systems, true, Reference) then Deny("malformed", "systems")
    else if !ValidSet(e.runners, false, ValidId) then Deny("malformed", "runners")
    else if !Positive(e.notBeforeMs) || !Positive(e.expiresMs) || e.notBeforeMs >= e.expiresMs then Deny("malformed", "validity")
    else if e.selection !in {"pinned", "within-envelope"} || |e.routes| == 0 || !Ordered(e.routes, RouteKey) ||
            (e.selection == "pinned" && |e.routes| != 1) then Deny("malformed", "routes")
    else if !ValidBudgets(e.budgets) then Deny("malformed", "budgets")
    else CheckRoutes(e.routes, e.budgets)
  }

  function ValidateGrant(g: Grant): Check {
    if !ValidId(g.id) || !ValidId(g.taskId) || !Positive(g.revision) || !Reference(g.actor) then Deny("malformed", "grant")
    else Validate(g.envelope)
  }

  // ---- Within ----

  predicate Contains(approved: seq<string>, next: seq<string>) {
    forall v | v in next :: v in approved
  }

  predicate Reduced(n: Budgets, a: Budgets) {
    && n.requests <= a.requests && n.attempts <= a.attempts && n.subattempts <= a.subattempts && n.retries <= a.retries
    && n.concurrency <= a.concurrency && n.requestBytes <= a.requestBytes && n.responseBytes <= a.responseBytes
    && n.totalMs <= a.totalMs && n.attemptMs <= a.attemptMs && n.firstOutputMs <= a.firstOutputMs && n.idleMs <= a.idleMs
    && n.providerOutputTokens <= a.providerOutputTokens
  }

  predicate CostReduced(n: Option<int>, a: Option<int>) {
    a.Some? ==> n.Some? && n.value <= a.value
  }

  /** The first thing by which `next` leaves `approved`, in the order of the source. */
  function Within(next: Envelope, approved: Envelope): Check {
    if Validate(next).Deny? then Validate(next)
    else if Validate(approved).Deny? then Validate(approved)
    else if next.repository != approved.repository || next.baseCommit != approved.baseCommit then Deny("material_change", "repository/base")
    else if next.brief != approved.brief || next.plan != approved.plan || next.routeDecision != approved.routeDecision then
      Deny("stale_revision", "brief/plan/route_decision")
    else if next.selection != approved.selection then Deny("material_change", "selection")
    else if !Contains(approved.criterionIds, next.criterionIds) then Deny("widened_scope", "criterion_ids")
    else if !Contains(approved.taskKinds, next.taskKinds) then Deny("widened_scope", "task_kinds")
    else if !Contains(approved.paths, next.paths) then Deny("widened_scope", "paths")
    else if !Contains(approved.operations, next.operations) then Deny("widened_scope", "operations")
    else if !Contains(approved.systems, next.systems) then Deny("widened_scope", "systems")
    else if !Contains(approved.runners, next.runners) then Deny("widened_scope", "runners")
    else if exists r :: r in next.routes && r !in approved.routes then Deny("incompatible_route_policy", "route_profile")
    else if next.notBeforeMs < approved.notBeforeMs || next.expiresMs > approved.expiresMs then Deny("widened_scope", "validity")
    else if !Reduced(next.budgets, approved.budgets) then Deny("widened_scope", "budgets")
    else if !CostReduced(next.budgets.providerCostMicros, approved.budgets.providerCostMicros) then
      Deny("widened_scope", "provider_cost_micros")
    else Pass
  }

  // ---- Within is a partial order ----

  lemma WithinReflexive(e: Envelope)
    requires Validate(e).Pass?
    ensures Within(e, e).Pass?
  {
  }

  lemma WithinTransitive(a: Envelope, b: Envelope, c: Envelope)
    requires Within(a, b).Pass? && Within(b, c).Pass?
    ensures Within(a, c).Pass?
  {
    hide Validate;
  }

  /** In a strictly ordered list every two positions are ordered. */
  lemma {:induction false} OrderedPairs<T>(v: seq<T>, key: T -> string, i: nat, k: nat)
    requires Ordered(v, key) && i < k < |v|
    ensures Before(key(v[i]), key(v[k]))
    decreases k
  {
    if i + 1 < k {
      OrderedPairs(v, key, i, k - 1);
      BeforeTransitive(key(v[i]), key(v[k - 1]), key(v[k]));
    }
  }

  /** Two strictly ordered lists with the same members are the same list. */
  lemma {:induction false} OrderedListsAgree<T>(a: seq<T>, b: seq<T>, key: T -> string)
    requires Ordered(a, key) && Ordered(b, key)
    requires forall x :: x in a <==> x in b
    ensures a == b
    decreases |a|
  {
    if |a| == 0 {
      if |b| > 0 {
        SomeMember(b);
      }
    } else {
      assert a[0] in b;
      SameHead(a, b, key);
      forall x ensures x in a[1..] <==> x in b[1..] {
        TailMembers(a, b, key, x);
        TailMembers(b, a, key, x);
      }
      OrderedListsAgree(a[1..], b[1..], key);
      assert a == [a[0]] + a[1..] && b == [b[0]] + b[1..];
    }
  }

  lemma SomeMember<T>(v: seq<T>)
    requires |v| > 0
    ensures exists x :: x in v
  {
    assert v[0] in v;
  }

  lemma SameHead<T>(a: seq<T>, b: seq<T>, key: T -> string)
    requires Ordered(a, key) && Ordered(b, key) && |a| > 0 && |b| > 0
    requires a[0] in b && b[0] in a
    ensures a[0] == b[0]
  {
    var i :| 0 <= i < |b| && b[i] == a[0];
    var k :| 0 <= k < |a| && a[k] == b[0];
    if i > 0 && k > 0 {
      OrderedPairs(b, key, 0, i);
      OrderedPairs(a, key, 0, k);
      BeforeTransitive(key(a[0]), key(b[0]), key(a[0]));
      BeforeIrreflexive(key(a[0]));
    }
  }

  lemma TailMembers<T>(a: seq<T>, b: seq<T>, key: T -> string, x: T)
    requires Ordered(a, key) && |a| > 0 && |b| > 0 && a[0] == b[0]
    requires x in a ==> x in b
    ensures x in a[1..] ==> x in b[1..]
  {
    if x in a[1..] {
      var i :| 0 <= i < |a[1..]| && a[1..][i] == x;
      OrderedPairs(a, key, 0, i + 1);
      BeforeIrreflexive(key(x));
      var k :| 0 <= k < |b| && b[k] == x;
      assert k > 0 && b[1..][k - 1] == x;
    }
  }

  lemma SetsAgree(a: seq<string>, b: seq<string>)
    requires Ordered(a, Itself) && Ordered(b, Itself) && Contains(a, b) && Contains(b, a)
    ensures a == b
  {
    OrderedListsAgree(a, b, Itself);
  }

  /** Mutual containment is equality: every list of a valid envelope is strictly ordered. */
  lemma WithinAntisymmetric(a: Envelope, b: Envelope)
    requires Within(a, b).Pass? && Within(b, a).Pass?
    ensures a == b
  {
    ValidListsOrdered(a);
    ValidListsOrdered(b);
    hide Validate, Ordered;
    SetsAgree(a.criterionIds, b.criterionIds);
    SetsAgree(a.taskKinds, b.taskKinds);
    SetsAgree(a.paths, b.paths);
    SetsAgree(a.operations, b.operations);
    SetsAgree(a.systems, b.systems);
    SetsAgree(a.runners, b.runners);
    OrderedListsAgree(a.routes, b.routes, RouteKey);
  }

  lemma ValidListsOrdered(e: Envelope)
    requires Validate(e).Pass?
    ensures Ordered(e.criterionIds, Itself) && Ordered(e.taskKinds, Itself) && Ordered(e.paths, Itself)
    ensures Ordered(e.operations, Itself) && Ordered(e.systems, Itself) && Ordered(e.runners, Itself)
    ensures Ordered(e.routes, RouteKey) && ValidBudgets(e.budgets)
  {
  }

  // ---- Check ----

  function CheckGrant(g: Grant, r: Request, nowMs: int): Check {
    if ValidateGrant(g).Deny? then ValidateGrant(g)
    else if !ValidId(r.grantId) || !ValidId(r.taskId) || !Positive(r.grantRevision) || !Positive(nowMs) then Deny("malformed", "request")
    else if r.action != "execute" then Deny("distinct_authority_required", "action")
    else if r.grantId != g.id || r.taskId != g.taskId || r.grantRevision != g.revision then Deny("stale_revision", "grant")
    else if nowMs >= g.envelope.expiresMs then Deny("expired", "grant")
    else if nowMs < g.envelope.notBeforeMs then Deny("not_yet_valid", "grant")
    else if Within(r.envelope, g.envelope).Deny? then Within(r.envelope, g.envelope)
    else if nowMs >= r.envelope.expiresMs || nowMs < r.envelope.notBeforeMs then Deny("outside_validity", "request")
    else if |r.envelope.routes| != 1 || |r.envelope.runners| != 1 || |r.envelope.taskKinds| != 1 then Deny("malformed", "selection")
    else Pass
  }

  // ---- Replacement ----

  function CheckRevision(next: Revision, previous: Revision): Check {
    if !ValidRevision(next) || !ValidRevision(previous) then Deny("malformed", "revision")
    else if next.number < previous.number || (next.number == previous.number && next.sha256 != previous.sha256) then
      Deny("stale_revision", "revision")
    else Pass
  }

  function ReplaceRoute(n: Route, o: Route): Check {
    if RouteKey(n) != RouteKey(o) then Pass
    else if n.routeRevision < o.routeRevision || (n.routeRevision == o.routeRevision && n != o) then Deny("stale_revision", "route_profile")
    else if CheckRevision(n.policy, o.policy).Deny? then CheckRevision(n.policy, o.policy)
    else if CheckRevision(n.evidence, o.evidence).Deny? then CheckRevision(n.evidence, o.evidence)
    else if n.limitsProfile != o.limitsProfile && (n.policy.number <= o.policy.number || n.policy.sha256 == o.policy.sha256) then
      Deny("incompatible_route_policy", "limits_policy_revision")
    else Pass
  }

  function AgainstRoutes(n: Route, olds: seq<Route>): Check {
    if |olds| == 0 then Pass
    else if ReplaceRoute(n, olds[0]).Deny? then ReplaceRoute(n, olds[0])
    else AgainstRoutes(n, olds[1..])
  }

  function ReplaceRoutes(routes: seq<Route>, next: Envelope, previous: Envelope): Check {
    if |routes| == 0 then Pass
    else
      var n := routes[0];
      if n !in previous.routes &&
         (next.routeDecision.number <= previous.routeDecision.number || next.routeDecision.sha256 == previous.routeDecision.sha256) then
        Deny("stale_revision", "route_decision")
      else if AgainstRoutes(n, previous.routes).Deny? then AgainstRoutes(n, previous.routes)
      else ReplaceRoutes(routes[1..], next, previous)
  }

  function Replacement(next: Envelope, previous: Envelope): Check {
    if CheckRevision(next.brief, previous.brief).Deny? then CheckRevision(next.brief, previous.brief)
    else if CheckRevision(next.plan, previous.plan).Deny? then CheckRevision(next.plan, previous.plan)
    else if CheckRevision(next.routeDecision, previous.routeDecision).Deny? then CheckRevision(next.routeDecision, previous.routeDecision)
    else ReplaceRoutes(next.routes, next, previous)
  }

  // ---- continuity over a history of grants ----

  /** The separator keeps the two parts of a route key apart. */
  lemma RouteKeyInjective(n: Route, o: Route)
    requires Reference(n.routeRef) && Reference(o.routeRef) && RouteKey(n) == RouteKey(o)
    ensures n.routeRef == o.routeRef && n.profileRef == o.profileRef
  {
    var key := RouteKey(n);
    assert key[|n.routeRef|] == '\0' && key[|o.routeRef|] == '\0';
    assert forall i | 0 <= i < |n.routeRef| :: key[i] == n.routeRef[i];
    assert forall i | 0 <= i < |o.routeRef| :: key[i] == o.routeRef[i];
    assert |n.routeRef| == |o.routeRef|;
    assert n.routeRef == key[..|n.routeRef|] == o.routeRef;
    assert n.profileRef == key[|n.routeRef| + 1..] == o.profileRef;
  }

  predicate NotOlder(next: Revision, previous: Revision) {
    next.number > previous.number || next == previous
  }

  lemma {:induction false} AgainstEveryRoute(n: Route, olds: seq<Route>, o: Route)
    requires AgainstRoutes(n, olds).Pass? && o in olds
    ensures ReplaceRoute(n, o).Pass?
  {
    if olds[0] != o {
      AgainstEveryRoute(n, olds[1..], o);
    }
  }

  lemma {:induction false} EveryRouteReplaces(routes: seq<Route>, next: Envelope, previous: Envelope, n: Route)
    requires ReplaceRoutes(routes, next, previous).Pass? && n in routes
    ensures AgainstRoutes(n, previous.routes).Pass?
    ensures n in previous.routes ||
            (next.routeDecision.number > previous.routeDecision.number && next.routeDecision.sha256 != previous.routeDecision.sha256)
  {
    if routes[0] != n {
      EveryRouteReplaces(routes[1..], next, previous, n);
    }
  }

  /** Two routes of one key: the later never goes back in route, policy or evidence revision, and an unchanged
      revision is an unchanged route. */
  predicate RouteForward(n: Route, o: Route) {
    RouteKey(n) == RouteKey(o) ==>
      && n.routeRevision >= o.routeRevision && (n.routeRevision == o.routeRevision ==> n == o)
      && NotOlder(n.policy, o.policy) && NotOlder(n.evidence, o.evidence)
      && (n.limitsProfile != o.limitsProfile ==> n.policy.number > o.policy.number && n.policy.sha256 != o.policy.sha256)
  }

  /** What a passed replacement means. */
  lemma ReplacementForward(next: Envelope, previous: Envelope)
    requires Replacement(next, previous).Pass?
    ensures NotOlder(next.brief, previous.brief) && NotOlder(next.plan, previous.plan)
    ensures NotOlder(next.routeDecision, previous.routeDecision)
    ensures forall n, o | n in next.routes && o in previous.routes :: RouteForward(n, o)
    ensures forall n | n in next.routes && n !in previous.routes :: next.routeDecision.number > previous.routeDecision.number
  {
    forall n, o | n in next.routes && o in previous.routes ensures RouteForward(n, o) {
      EveryRouteReplaces(next.routes, next, previous, n);
      AgainstEveryRoute(n, previous.routes, o);
    }
    forall n | n in next.routes && n !in previous.routes ensures next.routeDecision.number > previous.routeDecision.number {
      EveryRouteReplaces(next.routes, next, previous, n);
    }
  }

  /** Every later envelope replaces every earlier one. */
  ghost predicate Continuous(h: seq<Envelope>) {
    forall i, k | 0 <= i < k < |h| :: Replacement(h[k], h[i]).Pass?
  }

  /** A route key never comes back with an older revision, even if the envelopes between dropped the route. */
  lemma RoutesNeverRollBack(h: seq<Envelope>, i: nat, k: nat, n: Route, o: Route)
    requires Continuous(h) && i < k < |h| && n in h[k].routes && o in h[i].routes
    ensures RouteForward(n, o)
  {
    ReplacementForward(h[k], h[i]);
  }

  /** For the brief, the plan and the route decision, comparing with the head alone is enough. */
  lemma {:induction false} HeadSufficesForRevisions(h: seq<Envelope>, i: nat, k: nat)
    requires forall m | 1 <= m < |h| :: Replacement(h[m], h[m - 1]).Pass?
    requires i < k < |h|
    ensures NotOlder(h[k].brief, h[i].brief) && NotOlder(h[k].plan, h[i].plan) && NotOlder(h[k].routeDecision, h[i].routeDecision)
    decreases k
  {
    ReplacementForward(h[k], h[k - 1]);
    if i < k - 1 {
      HeadSufficesForRevisions(h, i, k - 1);
    }
  }

  function Digest(c: char): (d: string)
    requires HexDigit(c)
    ensures Sha256(d) && d[0] == c
  {
    seq(64, i => c)
  }

  const SAMPLE_DIGEST := Digest('a')
  const SAMPLE_REVISION := Revision(1, SAMPLE_DIGEST)
  const SAMPLE_BUDGETS := Budgets(1, 1, 1, 0, 1, 1, 1, 1, 1, 1, 1, 1, None)
  const SAMPLE_RUNNER := "00000000-0000-4000-8000-000000000000"

  function SampleRoute(name: string, revision: int): Route {
    Route(name, "p", revision, SAMPLE_REVISION, SAMPLE_DIGEST, SAMPLE_DIGEST, SAMPLE_REVISION, "h", "p", SAMPLE_DIGEST, "i",
          STRICT, "l", [Target("n", "m", "metered")])
  }

  function SampleEnvelope(decision: Revision, route: Route): Envelope {
    Envelope("r", Digest('a')[..40], SAMPLE_REVISION, SAMPLE_REVISION, decision, ["c"], ["k"], ["f"], ["read"], [], [SAMPLE_RUNNER],
             [route], "pinned", SAMPLE_BUDGETS, 1, 2)
  }

  lemma SamplePath()
    ensures ValidPath("f")
  {
    assert Parts("f"[1..]) == [""];
    assert ['f'] + Parts("f"[1..])[0] == "f";
    assert Parts("f") == ["f"] + Parts("f"[1..])[1..];
  }

  lemma SampleRunner()
    ensures ValidId(SAMPLE_RUNNER)
  {
  }

  lemma SampleSets()
    ensures ValidSet(["c"], false, Reference) && ValidSet(["k"], false, Reference) && ValidSet(["f"], false, ValidPath)
    ensures ValidSet([], true, Reference) && ValidSet([SAMPLE_RUNNER], false, ValidId)
  {
    hide ValidPath, ValidId, SAMPLE_RUNNER;
    SamplePath();
    SampleRunner();
  }

  /** The samples are envelopes that a grant can hold. */
  lemma SampleIsValid(decision: Revision, route: Route)
    requires ValidRevision(decision) && WellFormedRoute(route) && route.limitsProfile == STRICT
    requires CheckTargets(route, route.targets).Pass?
    ensures Validate(SampleEnvelope(decision, route)).Pass?
  {
    hide ValidPath, ValidId, SAMPLE_RUNNER, WellFormedRoute, CheckTargets, Sha256;
    SampleSets();
    var e := SampleEnvelope(decision, route);
    assert CheckRoutes(e.routes[1..], e.budgets).Pass?;
    assert Commit(e.baseCommit) by {
      assert Hex(SAMPLE_DIGEST, 64);
    }
  }

  lemma SampleRouteIsValid(name: string, revision: int)
    requires Reference(name) && Positive(revision)
    ensures var r := SampleRoute(name, revision);
            WellFormedRoute(r) && r.limitsProfile == STRICT && CheckTargets(r, r.targets).Pass?
  {
    var r := SampleRoute(name, revision);
    assert CheckTargets(r, r.targets[1..]).Pass?;
  }

  /** For routes it is not: a route dropped for one grant could come back at an older revision. The three envelopes are valid,
      each follows its neighbour, and the third may not follow the first. */
  lemma HeadDoesNotSufficeForRoutes()
    ensures var first := SampleEnvelope(Revision(1, Digest('a')), SampleRoute("a", 2));
            var second := SampleEnvelope(Revision(2, Digest('b')), SampleRoute("b", 1));
            var third := SampleEnvelope(Revision(3, Digest('c')), SampleRoute("a", 1));
            && Validate(first).Pass? && Validate(second).Pass? && Validate(third).Pass?
            && Replacement(second, first).Pass? && Replacement(third, second).Pass?
            && Replacement(third, first) == Deny("stale_revision", "route_profile")
  {
    hide Validate, WellFormedRoute, CheckTargets;
    var a, b, c := SampleRoute("a", 2), SampleRoute("b", 1), SampleRoute("a", 1);
    SampleRouteIsValid("a", 2);
    SampleRouteIsValid("b", 1);
    SampleRouteIsValid("a", 1);
    SampleIsValid(Revision(1, Digest('a')), a);
    SampleIsValid(Revision(2, Digest('b')), b);
    SampleIsValid(Revision(3, Digest('c')), c);
    assert RouteKey(a)[0] == 'a' && RouteKey(b)[0] == 'b';
    assert RouteKey(c) == RouteKey(a);
  }
}
