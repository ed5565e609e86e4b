/** The admission journal and the check it must pass when it is read back
    (`experiments/inference-boundary/policy.ts`). */
module Journals {
  import opened Text
  import opened Receipts

  datatype Role = Worker | Planner | Reviewer

  datatype Binding = Binding(
    attemptId: string, grantId: string, taskId: string, leaseId: string, fence: int, role: Role,
    routerId: string, routeId: string, revision: string, epoch: int,
    expiresAt: int, leaseExpiresAt: int, native: bool)

  datatype Send = Reserved | SendPossible

  /** What is saved with a reservation under a router policy. */
  datatype Saved = Saved(policy: Policy, binding: Binding, requestDigest: string, send: Send)

  datatype Outcome = Completed | FailedBeforeOutput | PartialFailure | CancelledUnknown

  /** `None` is the reservation outcome `active`. */
  datatype Reservation = Reservation(
    requestId: string, attemptId: string, taskId: string, epoch: int,
    outcome: Option<Outcome>, router: Option<Saved>)

  datatype Verdict = ValidatedSuccess | QuiescentVerdict | NeverSent

  /** `None` is the delivery `unobserved`. */
  datatype Decision = Decision(
    requestId: string, taskId: string, attemptId: string, router: Saved, verdict: Verdict,
    evidence: Evidence, completionDigest: Option<string>, delivery: Option<Outcome>)

  datatype Phase = Closed | Active | Draining | Mutating

  /** The fingerprint is a digest of the policy: hashing is taken as injective, so the policy itself
      stands for it. Schema 1 has no decision list; the empty one stands for it. */
  datatype Journal = Journal(
    schema: int, generation: string, phase: Phase, policy: Option<Policy>, fingerprint: Option<Policy>,
    reservations: seq<Reservation>, counts: map<string, int>, decisions: seq<Decision>)

  const MAX_RESERVATIONS := 16
  const MAX_DECISIONS := 64
  const MAX_ATTEMPTS := 64
  const MAX_COUNT := 32

  predicate RequestId(s: string) { Hex(s, 32) }

  predicate SafePositive(n: int) { 1 <= n <= MAX_SAFE }

  predicate ValidBinding(b: Binding) {
    && Reference(b.attemptId) && Reference(b.grantId) && Reference(b.taskId) && Reference(b.leaseId)
    && Reference(b.routerId) && Reference(b.routeId) && Reference(b.revision)
    && SafePositive(b.fence) && SafePositive(b.epoch) && SafePositive(b.expiresAt) && SafePositive(b.leaseExpiresAt)
  }

  /** The binding speaks about the same router, route, revision and epoch as the policy. */
  predicate BoundTo(b: Binding, p: Policy) {
    b.routerId == p.routerId && b.routeId == p.routeId && b.epoch == p.epoch && b.revision == p.revision
  }

  /** `validateSaved` */
  predicate ValidSaved(s: Saved, attemptId: string, taskId: string) {
    && s.policy.RouterPolicy? && ValidPolicy(s.policy) && ValidBinding(s.binding) && !s.binding.native
    && Sha256(s.requestDigest)
    && s.binding.attemptId == attemptId && s.binding.taskId == taskId && BoundTo(s.binding, s.policy)
  }

  predicate HeaderFits(schema: int, policy: Option<Policy>, fingerprint: Option<Policy>, reserved: nat, ds: seq<Decision>) {
    && (schema == 1 || schema == 2)
    && reserved <= MAX_RESERVATIONS
    && (policy.Some? ==> ValidPolicy(policy.value))
    && fingerprint == policy
    && (schema == 1 ==> ds == [] && (policy.Some? ==> policy.value.FixturePolicy?))
    && (schema == 2 ==> |ds| <= MAX_DECISIONS && policy.Some? && policy.value.RouterPolicy?)
  }

  predicate ReservationFits(r: Reservation, schema: int, policy: Option<Policy>) {
    match r
    case Reservation(requestId, attemptId, taskId, epoch, _, router) =>
      && RequestId(requestId) && Reference(attemptId) && Reference(taskId) && SafePositive(epoch)
      && (if schema == 2
          then router.Some? && ValidSaved(router.value, attemptId, taskId) && Some(router.value.policy) == policy
          else router.None?)
  }

  predicate VerdictFits(d: Decision) {
    && |d.evidence.operations| <= MAX_OPERATIONS
    && (if d.verdict == ValidatedSuccess
        then d.completionDigest.Some? && Sha256(d.completionDigest.value)
             && d.evidence.disposition == OriginalSuccess && d.evidence.receiptDigest.Some?
        else d.completionDigest.None?)
    && (if d.verdict == NeverSent
        then d.router.send == Reserved && d.evidence.operations == [] && d.evidence.receiptDigest.None?
        else
          && d.router.policy.RouterPolicy?
          && d.router.send == SendPossible && d.evidence.receiptDigest.Some?
          && var classified := Classify(Rebuilt(d.requestId, d.router.policy, d.evidence.operations), d.requestId, d.router.policy).disposition;
          && classified != PendingOrUnknown
          && (d.verdict == ValidatedSuccess ==> classified == OriginalSuccess))
  }

  /** A decision and a live reservation of the same request tell the same story. */
  predicate Agrees(d: Decision, r: Reservation) {
    d.requestId == r.requestId ==> r.taskId == d.taskId && r.attemptId == d.attemptId && r.router == Some(d.router)
  }

  predicate AgreesWithAll(d: Decision, rs: seq<Reservation>) {
    forall i | 0 <= i < |rs| :: Agrees(d, rs[i])
  }

  predicate DecisionFits(d: Decision) {
    match d
    case Decision(requestId, taskId, attemptId, router, _, _, _, _) =>
      RequestId(requestId) && ValidSaved(router, attemptId, taskId) && VerdictFits(d)
  }

  predicate DistinctReservations(rs: seq<Reservation>) {
    forall i, k | 0 <= i < k < |rs| :: rs[i].requestId != rs[k].requestId
  }

  predicate DistinctDecisions(ds: seq<Decision>) {
    forall i, k | 0 <= i < k < |ds| :: ds[i].requestId != ds[k].requestId
  }

  function ReservedIds(rs: seq<Reservation>): set<string> {
    set i | 0 <= i < |rs| :: rs[i].requestId
  }

  function DecidedIds(ds: seq<Decision>): set<string> {
    set i | 0 <= i < |ds| :: ds[i].requestId
  }

  /** The distinct requests of the journal: reserved, decided or both. */
  function Ids(rs: seq<Reservation>, ds: seq<Decision>): set<string> {
    ReservedIds(rs) + DecidedIds(ds)
  }

  function ReservedBy(rs: seq<Reservation>, attemptId: string): set<string> {
    set i | 0 <= i < |rs| && rs[i].attemptId == attemptId :: rs[i].requestId
  }

  function DecidedFor(ds: seq<Decision>, attemptId: string): set<string> {
    set k | 0 <= k < |ds| && ds[k].attemptId == attemptId :: ds[k].requestId
  }

  /** The distinct requests of one attempt. */
  function Charged(rs: seq<Reservation>, ds: seq<Decision>, attemptId: string): set<string> {
    ReservedBy(rs, attemptId) + DecidedFor(ds, attemptId)
  }

  function ReservedFor(rs: seq<Reservation>, attemptId: string): nat {
    if |rs| == 0 then 0
    else ReservedFor(rs[..|rs| - 1], attemptId) + (if rs[|rs| - 1].attemptId == attemptId then 1 else 0)
  }

  predicate CountCovers(counts: map<string, int>, attemptId: string, charged: nat) {
    attemptId in counts && counts[attemptId] >= charged
  }

  predicate CountsInRange(counts: map<string, int>) {
    |counts| <= MAX_ATTEMPTS && forall a | a in counts :: Reference(a) && 1 <= counts[a] <= MAX_COUNT
  }

  predicate EpochFits(r: Reservation, policy: Option<Policy>) {
    policy.Some? && r.epoch == policy.value.epoch
  }

  predicate CountsCover(counts: map<string, int>, rs: seq<Reservation>, ds: seq<Decision>) {
    && (forall i | 0 <= i < |rs| :: CountCovers(counts, rs[i].attemptId, |Charged(rs, ds, rs[i].attemptId)|))
    && (forall k | 0 <= k < |ds| :: CountCovers(counts, ds[k].attemptId, |Charged(rs, ds, ds[k].attemptId)|))
  }

  predicate ReservedWithin(counts: map<string, int>, rs: seq<Reservation>, i: nat)
    requires i < |rs|
  {
    CountCovers(counts, rs[i].attemptId, ReservedFor(rs[..i + 1], rs[i].attemptId))
  }

  predicate ReservationsFit(rs: seq<Reservation>, schema: int, policy: Option<Policy>) {
    DistinctReservations(rs) && forall i | 0 <= i < |rs| :: ReservationFits(rs[i], schema, policy)
  }

  predicate DecisionsFit(ds: seq<Decision>, rs: seq<Reservation>) {
    && DistinctDecisions(ds)
    && (forall k | 0 <= k < |ds| :: DecisionFits(ds[k]))
    && (forall k | 0 <= k < |ds| :: AgreesWithAll(ds[k], rs))
  }

  predicate CountsFit(j: Journal) {
    && CountsInRange(j.counts)
    && CountsCover(j.counts, j.reservations, j.decisions)
    && (forall i | 0 <= i < |j.reservations| :: ReservedWithin(j.counts, j.reservations, i))
    && (forall i | 0 <= i < |j.reservations| :: EpochFits(j.reservations[i], j.policy))
  }

  /** What `validateJournal` accepts. */
  predicate ValidJournal(j: Journal) {
    && HeaderFits(j.schema, j.policy, j.fingerprint, |j.reservations|, j.decisions)
    && ReservationsFit(j.reservations, j.schema, j.policy)
    && DecisionsFit(j.decisions, j.reservations)
    && CountsFit(j)
  }

  /** `validateJournal`: its loops, with the sets and the map they fill. */
  method ValidateJournal(j: Journal) returns (ok: bool)
    ensures ok <==> ValidJournal(j)
  {
    hide HeaderFits, DecisionsFit, CountsFit, ReservationFits;
    ok := HeaderFits(j.schema, j.policy, j.fingerprint, |j.reservations|, j.decisions);
    if ok {
      ok := CheckReservations(j);
    }
    if ok {
      ok := CheckDecisions(j);
    }
    if ok {
      ok := CheckCounts(j);
    }
  }

  method CheckReservations(j: Journal) returns (ok: bool)
    ensures ok <==> ReservationsFit(j.reservations, j.schema, j.policy)
  {
    var ids: set<string> := {};
    for i := 0 to |j.reservations|
      invariant ids == set k | 0 <= k < i :: j.reservations[k].requestId
      invariant DistinctReservations(j.reservations[..i])
      invariant forall k | 0 <= k < i :: ReservationFits(j.reservations[k], j.schema, j.policy)
    {
      var r := j.reservations[i];
      if r.requestId in ids || !ReservationFits(r, j.schema, j.policy) {
        return false;
      }
      ids := ids + {r.requestId};
    }
    return true;
  }

  method CheckDecisions(j: Journal) returns (ok: bool)
    ensures ok <==> DecisionsFit(j.decisions, j.reservations)
  {
    hide DecisionFits, AgreesWithAll;
    var decided: set<string> := {};
    for i := 0 to |j.decisions|
      invariant decided == set k | 0 <= k < i :: j.decisions[k].requestId
      invariant forall k, m | 0 <= k < m < i :: j.decisions[k].requestId != j.decisions[m].requestId
      invariant forall k | 0 <= k < i :: DecisionFits(j.decisions[k]) && AgreesWithAll(j.decisions[k], j.reservations)
    {
      var d := j.decisions[i];
      if d.requestId in decided {
        return false;
      }
      if !DecisionFits(d) || !AgreesWithAll(d, j.reservations) {
        return false;
      }
      decided := decided + {d.requestId};
    }
    return true;
  }

  /** The joined map of the journal: every request, reserved or decided, with its attempt. */
  predicate Joined(m: map<string, string>, rs: seq<Reservation>, ds: seq<Decision>) {
    && m.Keys == Ids(rs, ds)
    && (forall i | 0 <= i < |rs| :: rs[i].requestId in m && m[rs[i].requestId] == rs[i].attemptId)
    && (forall k | 0 <= k < |ds| :: ds[k].requestId in m && m[ds[k].requestId] == ds[k].attemptId)
  }

  function OfAttempt(m: map<string, string>, attemptId: string): set<string> {
    set x | x in m && m[x] == attemptId
  }

  predicate JoinedCovers(counts: map<string, int>, m: map<string, string>, x: string)
    requires x in m
  {
    CountCovers(counts, m[x], |OfAttempt(m, m[x])|)
  }

  lemma JoinedIsCharged(m: map<string, string>, rs: seq<Reservation>, ds: seq<Decision>, attemptId: string)
    requires Joined(m, rs, ds)
    ensures OfAttempt(m, attemptId) == Charged(rs, ds, attemptId)
  {
    forall x ensures x in OfAttempt(m, attemptId) <==> x in Charged(rs, ds, attemptId) {
      if x in m {
        assert x in ReservedIds(rs) || x in DecidedIds(ds);
      }
    }
  }

  lemma JoinedCoverIsCover(counts: map<string, int>, m: map<string, string>, rs: seq<Reservation>, ds: seq<Decision>)
    requires Joined(m, rs, ds)
    ensures CountsCover(counts, rs, ds) <==> forall x | x in m :: JoinedCovers(counts, m, x)
  {
    hide Charged, OfAttempt;
    forall a ensures OfAttempt(m, a) == Charged(rs, ds, a) {
      JoinedIsCharged(m, rs, ds, a);
    }
    if forall x | x in m :: JoinedCovers(counts, m, x) {
      forall i | 0 <= i < |rs| ensures CountCovers(counts, rs[i].attemptId, |Charged(rs, ds, rs[i].attemptId)|) {
        assert JoinedCovers(counts, m, rs[i].requestId);
      }
      forall k | 0 <= k < |ds| ensures CountCovers(counts, ds[k].attemptId, |Charged(rs, ds, ds[k].attemptId)|) {
        assert JoinedCovers(counts, m, ds[k].requestId);
      }
    }
    if CountsCover(counts, rs, ds) {
      forall x | x in m ensures JoinedCovers(counts, m, x) {
        assert x in ReservedIds(rs) || x in DecidedIds(ds);
      }
    }
  }

  /** Entries later in the list replace earlier ones of the same request, as the pairs given to a map do. */
  method Join(rs: seq<Reservation>, ds: seq<Decision>) returns (m: map<string, string>)
    requires DistinctReservations(rs) && DistinctDecisions(ds) && forall k | 0 <= k < |ds| :: AgreesWithAll(ds[k], rs)
    ensures Joined(m, rs, ds)
  {
    m := map[];
    for i := 0 to |rs|
      invariant Joined(m, rs[..i], [])
    {
      assert rs[..i + 1] == rs[..i] + [rs[i]];
      assert ReservedIds(rs[..i + 1]) == ReservedIds(rs[..i]) + {rs[i].requestId};
      m := m[rs[i].requestId := rs[i].attemptId];
    }
    assert rs[..|rs|] == rs;
    for k := 0 to |ds|
      invariant Joined(m, rs, ds[..k])
    {
      var d := ds[k];
      assert ds[..k + 1] == ds[..k] + [d];
      assert DecidedIds(ds[..k + 1]) == DecidedIds(ds[..k]) + {d.requestId};
      assert AgreesWithAll(d, rs);
      m := m[d.requestId := d.attemptId];
    }
    assert ds[..|ds|] == ds;
  }

  method CheckCounts(j: Journal) returns (ok: bool)
    requires DistinctReservations(j.reservations) && DecisionsFit(j.decisions, j.reservations)
    ensures ok <==> CountsFit(j)
  {
    hide DecisionFits, ReservedWithin, EpochFits, OfAttempt, CountsCover;
    if !CountsInRange(j.counts) {
      return false;
    }
    var joined := Join(j.reservations, j.decisions);
    JoinedCoverIsCover(j.counts, joined, j.reservations, j.decisions);
    var left := joined.Keys;
    while left != {}
      invariant left <= joined.Keys
      invariant forall x | x in joined && x !in left :: JoinedCovers(j.counts, joined, x)
    {
      var x :| x in left;
      if !JoinedCovers(j.counts, joined, x) {
        return false;
      }
      left := left - {x};
    }
    ok := CheckReserved(j.counts, j.reservations, j.policy);
  }

  method CheckReserved(counts: map<string, int>, rs: seq<Reservation>, policy: Option<Policy>) returns (ok: bool)
    ensures ok <==> forall i | 0 <= i < |rs| :: ReservedWithin(counts, rs, i) && EpochFits(rs[i], policy)
  {
    var reserved: map<string, int> := map[];
    for i := 0 to |rs|
      invariant forall a :: ReservedFor(rs[..i], a) == if a in reserved then reserved[a] else 0
      invariant forall k | 0 <= k < i :: ReservedWithin(counts, rs, k) && EpochFits(rs[k], policy)
    {
      var r := rs[i];
      assert rs[..i + 1][..i] == rs[..i];
      reserved := reserved[r.attemptId := (if r.attemptId in reserved then reserved[r.attemptId] else 0) + 1];
      assert ReservedFor(rs[..i + 1], r.attemptId) == reserved[r.attemptId];
      if r.attemptId !in counts || counts[r.attemptId] < reserved[r.attemptId] || policy.None? || r.epoch != policy.value.epoch {
        assert !ReservedWithin(counts, rs, i) || !EpochFits(rs[i], policy);
        return false;
      }
    }
    return true;
  }
}
