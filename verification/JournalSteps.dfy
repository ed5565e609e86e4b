/** The changes the gate makes to its journal, and the invariant every one of them keeps. */
module JournalSteps {
  import opened Text
  import opened Receipts
  import opened Journals

  function FindReservation(rs: seq<Reservation>, id: string): (at: Option<nat>)
    ensures at.Some? ==> at.value < |rs| && rs[at.value].requestId == id
    ensures at.None? ==> forall i | 0 <= i < |rs| :: rs[i].requestId != id
  {
    if |rs| == 0 then None
    else if rs[0].requestId == id then Some(0)
    else
      var rest := FindReservation(rs[1..], id);
      if rest.None? then
        assert forall i | 1 <= i < |rs| :: rs[i] == rs[1..][i - 1];
        None
      else Some(rest.value + 1)
  }

  function FindDecision(ds: seq<Decision>, id: string): (at: Option<nat>)
    ensures at.Some? ==> at.value < |ds| && ds[at.value].requestId == id
    ensures at.None? ==> forall i | 0 <= i < |ds| :: ds[i].requestId != id
  {
    if |ds| == 0 then None
    else if ds[0].requestId == id then Some(0)
    else
      var rest := FindDecision(ds[1..], id);
      if rest.None? then
        assert forall i | 1 <= i < |ds| :: ds[i] == ds[1..][i - 1];
        None
      else Some(rest.value + 1)
  }

  // ---- changes ----

  function WithOutcome(j: Journal, i: nat, outcome: Outcome): Journal
    requires i < |j.reservations|
  {
    j.(reservations := j.reservations[i := j.reservations[i].(outcome := Some(outcome))])
  }

  function WithSendPossible(j: Journal, i: nat): Journal
    requires i < |j.reservations| && j.reservations[i].router.Some?
  {
    var r := j.reservations[i];
    j.(reservations := j.reservations[i := r.(router := Some(r.router.value.(send := SendPossible)))])
  }

  function Without(j: Journal, i: nat): Journal
    requires i < |j.reservations|
  {
    j.(reservations := j.reservations[..i] + j.reservations[i + 1..])
  }

  function CountOf(counts: map<string, int>, attemptId: string): int {
    if attemptId in counts then counts[attemptId] else 0
  }

  function WithReservation(j: Journal, r: Reservation): Journal {
    j.(reservations := j.reservations + [r], counts := j.counts[r.attemptId := CountOf(j.counts, r.attemptId) + 1])
  }

  /** `recordDecision`: the decision already there wins; the 65th is refused. */
  function Recorded(j: Journal, i: nat, evidence: Evidence, verdict: Verdict, completionDigest: Option<string>): Option<Journal>
    requires i < |j.reservations| && j.reservations[i].router.Some?
  {
    var r := j.reservations[i];
    if FindDecision(j.decisions, r.requestId).Some? then Some(j)
    else if |j.decisions| >= MAX_DECISIONS then None
    else Some(j.(decisions := j.decisions +
                              [Decision(r.requestId, r.taskId, r.attemptId, r.router.value, verdict, evidence, completionDigest, None)]))
  }

  function WithDelivery(j: Journal, k: nat, outcome: Outcome): Journal
    requires k < |j.decisions|
  {
    j.(decisions := j.decisions[k := j.decisions[k].(delivery := Some(outcome))])
  }

  function OnlyActive(rs: seq<Reservation>): seq<Reservation> {
    if |rs| == 0 then []
    else (if rs[0].outcome.None? then [rs[0]] else []) + OnlyActive(rs[1..])
  }

  // ---- the invariant ----

  /** What the journal is at every moment: acceptable to the check, and under schema 2 every attempt is
      charged for exactly the distinct requests the journal knows of, at most 64 of them in all. */
  ghost predicate Good(j: Journal) {
    match j
    case Journal(_, _, _, _, _, reservations, _, decisions) => Sound(j) && LiveSucceeded(decisions, reservations)
  }

  ghost predicate Sound(j: Journal) {
    match j
    case Journal(schema, _, _, _, _, reservations, counts, decisions) =>
      ValidJournal(j) &&
      (schema == 2 ==> ExactCharges(counts, reservations, decisions) && |Ids(reservations, decisions)| <= MAX_DECISIONS)
  }

  /** A decided request that still holds its reservation was decided a success. */
  ghost predicate LiveSucceeded(ds: seq<Decision>, rs: seq<Reservation>) {
    forall k, i | 0 <= k < |ds| && 0 <= i < |rs| && ds[k].requestId == rs[i].requestId :: ds[k].verdict == ValidatedSuccess
  }

  ghost predicate ExactCharges(counts: map<string, int>, rs: seq<Reservation>, ds: seq<Decision>) {
    forall a :: |Charged(rs, ds, a)| == CountOf(counts, a)
  }

  predicate SendMarked(r: Reservation) {
    r.router.Some? && r.router.value.send == SendPossible
  }

  /** The journal admits that the request may have reached the router. */
  ghost predicate MayBeSent(rs: seq<Reservation>, ds: seq<Decision>, id: string) {
    || (exists i :: 0 <= i < |rs| && rs[i].requestId == id && SendMarked(rs[i]))
    || (exists k :: 0 <= k < |ds| && ds[k].requestId == id && ds[k].verdict != NeverSent)
  }

  predicate SameRuling(d: Decision, e: Decision) {
    d == e.(delivery := d.delivery)
  }

  ghost predicate StillDecided(d: Decision, ds: seq<Decision>) {
    exists m :: 0 <= m < |ds| && SameRuling(d, ds[m])
  }

  ghost predicate AllStillDecided(ds: seq<Decision>, later: seq<Decision>) {
    forall k | 0 <= k < |ds| :: StillDecided(ds[k], later)
  }

  ghost predicate CountsGrow(counts: map<string, int>, later: map<string, int>) {
    forall a | a in counts :: a in later && counts[a] <= later[a]
  }

  /** Nothing the earlier journal promised is taken back: rulings, send marks and charges stay. */
  ghost predicate Extends(j: Journal, later: Journal) {
    && AllStillDecided(j.decisions, later.decisions)
    && (forall id | MayBeSent(j.reservations, j.decisions, id) :: MayBeSent(later.reservations, later.decisions, id))
    && CountsGrow(j.counts, later.counts)
  }

  lemma ExtendsTransitive(a: Journal, b: Journal, c: Journal)
    requires Extends(a, b) && Extends(b, c)
    ensures Extends(a, c)
  {
    forall k | 0 <= k < |a.decisions| ensures StillDecided(a.decisions[k], c.decisions) {
      assert StillDecided(a.decisions[k], b.decisions);
      var m :| 0 <= m < |b.decisions| && SameRuling(a.decisions[k], b.decisions[m]);
      assert StillDecided(b.decisions[m], c.decisions);
    }
  }

  lemma DecisionsStay(ds: seq<Decision>, later: seq<Decision>)
    requires |ds| <= |later| && forall k | 0 <= k < |ds| :: SameRuling(ds[k], later[k])
    ensures AllStillDecided(ds, later)
  {
    forall k | 0 <= k < |ds| ensures StillDecided(ds[k], later) {
      assert SameRuling(ds[k], later[k]);
    }
  }

  lemma ExtendsReflexive(j: Journal)
    ensures Extends(j, j)
  {
    DecisionsStay(j.decisions, j.decisions);
  }

  // ---- counting ----

  lemma {:induction false} ReservedIsCardinality(rs: seq<Reservation>, attemptId: string)
    requires DistinctReservations(rs)
    ensures ReservedFor(rs, attemptId) == |ReservedBy(rs, attemptId)|
  {
    if |rs| > 0 {
      var init, last := rs[..|rs| - 1], rs[|rs| - 1];
      ReservedIsCardinality(init, attemptId);
      assert forall i | 0 <= i < |init| :: init[i] == rs[i];
      if last.attemptId == attemptId {
        assert ReservedBy(rs, attemptId) == ReservedBy(init, attemptId) + {last.requestId};
      } else {
        assert ReservedBy(rs, attemptId) == ReservedBy(init, attemptId);
      }
    }
  }

  lemma {:induction false} DecisionsAreCounted(ds: seq<Decision>)
    requires DistinctDecisions(ds)
    ensures |DecidedIds(ds)| == |ds|
  {
    if |ds| > 0 {
      var init, last := ds[..|ds| - 1], ds[|ds| - 1];
      DecisionsAreCounted(init);
      assert forall i | 0 <= i < |init| :: init[i] == ds[i];
      assert DecidedIds(ds) == DecidedIds(init) + {last.requestId};
    }
  }

  lemma Subset<T>(a: set<T>, b: set<T>)
    requires a <= b
    ensures |a| <= |b|
  {
    assert b == a + (b - a);
  }

  /** The second counting loop of the check never refuses what the first one accepts: request ids are distinct. */
  lemma SecondCountIsRedundant(counts: map<string, int>, rs: seq<Reservation>, ds: seq<Decision>)
    requires DistinctReservations(rs) && CountsCover(counts, rs, ds)
    ensures forall i | 0 <= i < |rs| :: ReservedWithin(counts, rs, i)
  {
    forall i | 0 <= i < |rs| ensures ReservedWithin(counts, rs, i) {
      var a := rs[i].attemptId;
      var prefix := rs[..i + 1];
      ReservedIsCardinality(prefix, a);
      assert forall k | 0 <= k < |prefix| :: prefix[k] == rs[k];
      Subset(ReservedBy(prefix, a), Charged(rs, ds, a));
      assert CountCovers(counts, a, |Charged(rs, ds, a)|);
    }
  }

  // ---- every change keeps the invariant ----

  /** What one change of the journal keeps: the invariant, the promises and the set of known requests. */
  ghost predicate Keeps(j: Journal, later: Journal) {
    && Good(later) && Extends(j, later) && later.schema == j.schema
    && Ids(later.reservations, later.decisions) <= Ids(j.reservations, j.decisions)
  }

  /** Conjuncts of the invariant that a change has to argue for. */
  lemma SoundFrom(j: Journal)
    requires HeaderFits(j.schema, j.policy, j.fingerprint, |j.reservations|, j.decisions)
    requires ReservationsFit(j.reservations, j.schema, j.policy)
    requires DecisionsFit(j.decisions, j.reservations)
    requires CountsInRange(j.counts) && CountsCover(j.counts, j.reservations, j.decisions)
    requires forall i | 0 <= i < |j.reservations| :: EpochFits(j.reservations[i], j.policy)
    requires j.schema == 2 ==> ExactCharges(j.counts, j.reservations, j.decisions) &&
                               |Ids(j.reservations, j.decisions)| <= MAX_DECISIONS
    ensures Sound(j)
  {
    hide Charged, Ids, DecisionsFit, ReservationFits;
    SecondCountIsRedundant(j.counts, j.reservations, j.decisions);
  }

  predicate SamePairs(rs: seq<Reservation>, later: seq<Reservation>) {
    |later| == |rs| &&
    forall i | 0 <= i < |rs| :: later[i].requestId == rs[i].requestId && later[i].attemptId == rs[i].attemptId
  }

  lemma SameReserved(rs: seq<Reservation>, later: seq<Reservation>, ds: seq<Decision>)
    requires SamePairs(rs, later)
    ensures Ids(later, ds) == Ids(rs, ds)
    ensures forall a :: Charged(later, ds, a) == Charged(rs, ds, a)
  {
    assert ReservedIds(later) == ReservedIds(rs);
    forall a ensures Charged(later, ds, a) == Charged(rs, ds, a) {
      assert ReservedBy(later, a) == ReservedBy(rs, a);
    }
  }

  lemma SameCover(counts: map<string, int>, rs: seq<Reservation>, later: seq<Reservation>, ds: seq<Decision>)
    requires CountsCover(counts, rs, ds) && SamePairs(rs, later)
    ensures CountsCover(counts, later, ds)
  {
    SameReserved(rs, later, ds);
    forall i | 0 <= i < |later| ensures CountCovers(counts, later[i].attemptId, |Charged(later, ds, later[i].attemptId)|) {
      assert CountCovers(counts, rs[i].attemptId, |Charged(rs, ds, rs[i].attemptId)|);
    }
    forall k | 0 <= k < |ds| ensures CountCovers(counts, ds[k].attemptId, |Charged(later, ds, ds[k].attemptId)|) {
      assert CountCovers(counts, ds[k].attemptId, |Charged(rs, ds, ds[k].attemptId)|);
    }
  }

  lemma PhaseKeeps(j: Journal, generation: string, phase: Phase)
    requires Good(j)
    ensures Keeps(j, j.(generation := generation, phase := phase))
  {
    ExtendsReflexive(j);
  }

  /** Replacing one reservation by another of the same request. */
  lemma ReplacedFits(rs: seq<Reservation>, i: nat, r: Reservation, schema: int, policy: Option<Policy>)
    requires ReservationsFit(rs, schema, policy) && i < |rs|
    requires r.requestId == rs[i].requestId && ReservationFits(r, schema, policy)
    ensures ReservationsFit(rs[i := r], schema, policy)
  {
    var later := rs[i := r];
    forall n | 0 <= n < |later| ensures ReservationFits(later[n], schema, policy) {
      assert n != i ==> later[n] == rs[n];
    }
  }

  lemma ReplacedAgrees(ds: seq<Decision>, rs: seq<Reservation>, i: nat, r: Reservation)
    requires DecisionsFit(ds, rs) && i < |rs|
    requires forall k | 0 <= k < |ds| :: Agrees(ds[k], r)
    ensures DecisionsFit(ds, rs[i := r])
  {
    forall k | 0 <= k < |ds| ensures AgreesWithAll(ds[k], rs[i := r]) {
      assert AgreesWithAll(ds[k], rs);
    }
  }

  lemma OutcomeFits(r: Reservation, outcome: Outcome, schema: int, policy: Option<Policy>)
    requires ReservationFits(r, schema, policy)
    ensures ReservationFits(r.(outcome := Some(outcome)), schema, policy)
  {
  }

  /** The new entry speaks about the same request, attempt and epoch, and keeps a send mark. */
  predicate Supersedes(r: Reservation, was: Reservation) {
    && r.requestId == was.requestId && r.attemptId == was.attemptId && r.epoch == was.epoch
    && (SendMarked(was) ==> SendMarked(r))
  }

  lemma ReplacedGood(j: Journal, i: nat, r: Reservation)
    requires Good(j) && i < |j.reservations| && Supersedes(r, j.reservations[i])
    requires ReservationFits(r, j.schema, j.policy)
    requires forall k | 0 <= k < |j.decisions| :: Agrees(j.decisions[k], r)
    ensures Good(j.(reservations := j.reservations[i := r]))
  {
    hide Charged, Ids;
    var rs := j.reservations[i := r];
    ReplacedFits(j.reservations, i, r, j.schema, j.policy);
    ReplacedAgrees(j.decisions, j.reservations, i, r);
    SameReserved(j.reservations, rs, j.decisions);
    SameCover(j.counts, j.reservations, rs, j.decisions);
    SecondCountIsRedundant(j.counts, rs, j.decisions);
    assert EpochFits(j.reservations[i], j.policy);
  }

  lemma ReplacedKeeps(j: Journal, i: nat, r: Reservation)
    requires Good(j) && i < |j.reservations| && Supersedes(r, j.reservations[i])
    requires ReservationFits(r, j.schema, j.policy)
    requires forall k | 0 <= k < |j.decisions| :: Agrees(j.decisions[k], r)
    ensures Keeps(j, j.(reservations := j.reservations[i := r]))
  {
    hide Charged, Ids, Good;
    ReplacedGood(j, i, r);
    SameReserved(j.reservations, j.reservations[i := r], j.decisions);
    DecisionsStay(j.decisions, j.decisions);
    SentStays(j.reservations, j.reservations[i := r], j.decisions);
  }

  lemma OutcomeKeeps(j: Journal, i: nat, outcome: Outcome)
    requires Good(j) && i < |j.reservations|
    ensures Keeps(j, WithOutcome(j, i, outcome))
  {
    var r := j.reservations[i];
    OutcomeFits(r, outcome, j.schema, j.policy);
    forall k | 0 <= k < |j.decisions| ensures Agrees(j.decisions[k], r.(outcome := Some(outcome))) {
      assert AgreesWithAll(j.decisions[k], j.reservations);
    }
    ReplacedKeeps(j, i, r.(outcome := Some(outcome)));
  }

  lemma SentStays(rs: seq<Reservation>, later: seq<Reservation>, ds: seq<Decision>)
    requires |later| == |rs|
    requires forall i | 0 <= i < |rs| :: later[i].requestId == rs[i].requestId && (SendMarked(rs[i]) ==> SendMarked(later[i]))
    ensures forall id | MayBeSent(rs, ds, id) :: MayBeSent(later, ds, id)
  {
    forall id | MayBeSent(rs, ds, id) ensures MayBeSent(later, ds, id) {
      if i :| 0 <= i < |rs| && rs[i].requestId == id && SendMarked(rs[i]) {
        assert later[i].requestId == id && SendMarked(later[i]);
      }
    }
  }

  lemma SendKeeps(j: Journal, i: nat)
    requires Good(j) && i < |j.reservations|
    requires j.reservations[i].router.Some? && j.reservations[i].router.value.send == Reserved
    ensures Keeps(j, WithSendPossible(j, i))
  {
    hide Charged, Ids;
    var r := j.reservations[i];
    var marked := r.(router := Some(r.router.value.(send := SendPossible)));
    assert ReservationFits(r, j.schema, j.policy);
    forall k | 0 <= k < |j.decisions| ensures Agrees(j.decisions[k], marked) {
      assert AgreesWithAll(j.decisions[k], j.reservations) && Agrees(j.decisions[k], r);
      assert DecisionFits(j.decisions[k]);
    }
    ReplacedKeeps(j, i, marked);
  }

  lemma DeliverySound(j: Journal, k: nat, outcome: Outcome)
    requires Sound(j) && k < |j.decisions|
    ensures var later := WithDelivery(j, k, outcome);
            Sound(later) && Extends(j, later) && Ids(later.reservations, later.decisions) == Ids(j.reservations, j.decisions)
  {
    hide Charged, Ids, MayBeSent, DecisionsFit, ReservationsFit, AllStillDecided;
    var later := WithDelivery(j, k, outcome);
    DecisionsStay(j.decisions, later.decisions);
    SameDecided(j.reservations, j.decisions, later.decisions);
    DeliveryFits(j.decisions, j.reservations, k, outcome);
    DeliverySent(j.reservations, j.decisions, k, outcome);
    DeliveryCovers(j, k, outcome);
    SoundFrom(later);
  }

  lemma SameDecided(rs: seq<Reservation>, ds: seq<Decision>, later: seq<Decision>)
    requires |later| == |ds|
    requires forall k | 0 <= k < |ds| :: later[k].requestId == ds[k].requestId && later[k].attemptId == ds[k].attemptId
    ensures Ids(rs, later) == Ids(rs, ds)
    ensures forall a :: Charged(rs, later, a) == Charged(rs, ds, a)
  {
    assert DecidedIds(later) == DecidedIds(ds);
    forall a ensures Charged(rs, later, a) == Charged(rs, ds, a) {
      assert DecidedFor(later, a) == DecidedFor(ds, a);
    }
  }

  lemma DeliveryCovers(j: Journal, k: nat, outcome: Outcome)
    requires CountsCover(j.counts, j.reservations, j.decisions) && k < |j.decisions|
    ensures CountsCover(j.counts, j.reservations, WithDelivery(j, k, outcome).decisions)
  {
    var later := WithDelivery(j, k, outcome).decisions;
    SameDecided(j.reservations, j.decisions, later);
    hide Charged;
    forall m | 0 <= m < |later|
      ensures CountCovers(j.counts, later[m].attemptId, |Charged(j.reservations, later, later[m].attemptId)|)
    {
      assert CountCovers(j.counts, j.decisions[m].attemptId, |Charged(j.reservations, j.decisions, j.decisions[m].attemptId)|);
    }
  }

  lemma DeliveryFits(ds: seq<Decision>, rs: seq<Reservation>, k: nat, outcome: Outcome)
    requires DecisionsFit(ds, rs) && k < |ds|
    ensures DecisionsFit(ds[k := ds[k].(delivery := Some(outcome))], rs)
  {
    var later := ds[k := ds[k].(delivery := Some(outcome))];
    assert DecisionFits(ds[k]) && AgreesWithAll(ds[k], rs);
    assert DecisionFits(later[k]) && AgreesWithAll(later[k], rs);
  }

  lemma DeliverySent(rs: seq<Reservation>, ds: seq<Decision>, k: nat, outcome: Outcome)
    requires k < |ds|
    ensures forall id | MayBeSent(rs, ds, id) :: MayBeSent(rs, ds[k := ds[k].(delivery := Some(outcome))], id)
  {
    var later := ds[k := ds[k].(delivery := Some(outcome))];
    forall id | MayBeSent(rs, ds, id) ensures MayBeSent(rs, later, id) {
      if m :| 0 <= m < |ds| && ds[m].requestId == id && ds[m].verdict != NeverSent {
        assert later[m].requestId == id && later[m].verdict != NeverSent;
      }
    }
  }

  const NO_RECEIPT := Evidence(QuiescentFailure, None, [])

  /** The evidence that allows a ruling on a reservation. */
  ghost predicate Justified(r: Reservation, evidence: Evidence, verdict: Verdict, completionDigest: Option<string>) {
    && r.router.Some?
    && (r.router.value.send == Reserved ==> verdict == NeverSent && evidence == NO_RECEIPT && completionDigest.None?)
    && (r.router.value.send == SendPossible ==>
          && verdict != NeverSent
          && evidence.disposition != PendingOrUnknown
          && (exists raw :: evidence == Classify(raw, r.requestId, r.router.value.policy))
          && (if verdict == ValidatedSuccess
              then evidence.disposition == OriginalSuccess && completionDigest.Some? && Sha256(completionDigest.value)
              else completionDigest.None?))
  }

  lemma JustifiedFits(r: Reservation, policy: Option<Policy>, evidence: Evidence, verdict: Verdict, completionDigest: Option<string>)
    requires ReservationFits(r, 2, policy) && Justified(r, evidence, verdict, completionDigest)
    ensures DecisionFits(Decision(r.requestId, r.taskId, r.attemptId, r.router.value, verdict, evidence, completionDigest, None))
  {
    if r.router.value.send == SendPossible {
      var raw :| evidence == Classify(raw, r.requestId, r.router.value.policy);
      Reclassifies(raw, r.requestId, r.router.value.policy);
    }
  }

  /** The decision list never fills up before a live request is decided: the 65th decision that
      `recordDecision` refuses does not exist. */
  lemma NeverFull(j: Journal, i: nat)
    requires Sound(j) && j.schema == 2 && i < |j.reservations|
    requires FindDecision(j.decisions, j.reservations[i].requestId).None?
    ensures |j.decisions| < MAX_DECISIONS
  {
    DecisionsAreCounted(j.decisions);
    var id := j.reservations[i].requestId;
    assert id !in DecidedIds(j.decisions);
    assert id in ReservedIds(j.reservations);
    Subset(DecidedIds(j.decisions) + {id}, Ids(j.reservations, j.decisions));
  }

  lemma AppendedDecision(rs: seq<Reservation>, ds: seq<Decision>, i: nat, d: Decision)
    requires i < |rs| && d.requestId == rs[i].requestId && d.attemptId == rs[i].attemptId
    ensures Ids(rs, ds + [d]) == Ids(rs, ds)
    ensures forall a :: Charged(rs, ds + [d], a) == Charged(rs, ds, a)
  {
    var later := ds + [d];
    assert later[|ds|] == d && forall k | 0 <= k < |ds| :: later[k] == ds[k];
    assert DecidedIds(later) == DecidedIds(ds) + {d.requestId};
    assert rs[i].requestId in ReservedIds(rs);
    forall a ensures Charged(rs, later, a) == Charged(rs, ds, a) {
      if a == d.attemptId {
        assert DecidedFor(later, a) == DecidedFor(ds, a) + {d.requestId};
        assert rs[i].requestId in ReservedBy(rs, a);
      } else {
        assert DecidedFor(later, a) == DecidedFor(ds, a);
      }
    }
  }

  lemma AppendedFits(ds: seq<Decision>, rs: seq<Reservation>, d: Decision)
    requires DecisionsFit(ds, rs) && DecisionFits(d) && AgreesWithAll(d, rs)
    requires forall k | 0 <= k < |ds| :: ds[k].requestId != d.requestId
    ensures DecisionsFit(ds + [d], rs)
  {
    var later := ds + [d];
    forall k | 0 <= k < |later| ensures DecisionFits(later[k]) && AgreesWithAll(later[k], rs) {
      assert k < |ds| ==> later[k] == ds[k];
    }
  }

  lemma AppendedCovers(counts: map<string, int>, rs: seq<Reservation>, ds: seq<Decision>, i: nat, d: Decision)
    requires CountsCover(counts, rs, ds) && i < |rs| && d.requestId == rs[i].requestId && d.attemptId == rs[i].attemptId
    ensures CountsCover(counts, rs, ds + [d])
  {
    AppendedDecision(rs, ds, i, d);
    hide Charged;
    var later := ds + [d];
    forall k | 0 <= k < |later| ensures CountCovers(counts, later[k].attemptId, |Charged(rs, later, later[k].attemptId)|) {
      if k == |ds| {
        assert CountCovers(counts, rs[i].attemptId, |Charged(rs, ds, rs[i].attemptId)|);
      } else {
        assert CountCovers(counts, ds[k].attemptId, |Charged(rs, ds, ds[k].attemptId)|);
      }
    }
  }

  /** Recording a justified ruling succeeds and keeps everything but the reservation's claim to be undecided. */
  lemma RecordedSound(j: Journal, i: nat, evidence: Evidence, verdict: Verdict, completionDigest: Option<string>)
    requires Good(j) && j.schema == 2 && i < |j.reservations|
    requires Justified(j.reservations[i], evidence, verdict, completionDigest)
    ensures var recorded := Recorded(j, i, evidence, verdict, completionDigest);
            && recorded.Some? && Sound(recorded.value) && Extends(j, recorded.value)
            && Ids(j.reservations, recorded.value.decisions) == Ids(j.reservations, j.decisions)
            && FindDecision(recorded.value.decisions, j.reservations[i].requestId).Some?
  {
    hide Charged, Ids, MayBeSent, DecisionFits, Justified;
    var r := j.reservations[i];
    if FindDecision(j.decisions, r.requestId).Some? {
      ExtendsReflexive(j);
    } else {
      NeverFull(j, i);
      var d := Decision(r.requestId, r.taskId, r.attemptId, r.router.value, verdict, evidence, completionDigest, None);
      var later := j.(decisions := j.decisions + [d]);
      assert later.decisions[|j.decisions|].requestId == r.requestId;
      JustifiedFits(r, j.policy, evidence, verdict, completionDigest);
      AppendedSound(j, i, d);
    }
  }

  lemma AppendedSound(j: Journal, i: nat, d: Decision)
    requires Good(j) && j.schema == 2 && i < |j.reservations| && DecisionFits(d) && Agrees(d, j.reservations[i])
    requires d.requestId == j.reservations[i].requestId && |j.decisions| < MAX_DECISIONS
    requires forall k | 0 <= k < |j.decisions| :: j.decisions[k].requestId != d.requestId
    ensures var later := j.(decisions := j.decisions + [d]);
            Sound(later) && Extends(j, later) && Ids(j.reservations, later.decisions) == Ids(j.reservations, j.decisions)
  {
    hide Charged, Ids, MayBeSent, DecisionFits, ReservationFits;
    var later := j.(decisions := j.decisions + [d]);
    AppendedSent(j.reservations, j.decisions, d);
    AppendedFits(j.decisions, j.reservations, d);
    AppendedDecision(j.reservations, j.decisions, i, d);
    AppendedCovers(j.counts, j.reservations, j.decisions, i, d);
    DecisionsStay(j.decisions, later.decisions);
    SoundFrom(later);
  }

  lemma AppendedSent(rs: seq<Reservation>, ds: seq<Decision>, d: Decision)
    ensures forall id | MayBeSent(rs, ds, id) :: MayBeSent(rs, ds + [d], id)
  {
    var later := ds + [d];
    forall id | MayBeSent(rs, ds, id) ensures MayBeSent(rs, later, id) {
      if m :| 0 <= m < |ds| && ds[m].requestId == id && ds[m].verdict != NeverSent {
        assert later[m].requestId == id && later[m].verdict != NeverSent;
      }
    }
  }

  // ---- removing reservations ----

  predicate Decided(rs: seq<Reservation>, ds: seq<Decision>, i: nat)
    requires i < |rs|
  {
    FindDecision(ds, rs[i].requestId).Some?
  }

  function Drop(rs: seq<Reservation>, i: nat): seq<Reservation>
    requires i < |rs|
  {
    rs[..i] + rs[i + 1..]
  }

  lemma DropElements(rs: seq<Reservation>, i: nat)
    requires i < |rs|
    ensures |Drop(rs, i)| == |rs| - 1
    ensures forall n | 0 <= n < |rs| - 1 :: Drop(rs, i)[n] == if n < i then rs[n] else rs[n + 1]
    ensures forall n | 0 <= n < |rs| && n != i :: rs[n] == if n < i then Drop(rs, i)[n] else Drop(rs, i)[n - 1]
  {
  }

  /** Dropping a decided reservation loses no request: its decision stays. */
  lemma DropCharges(rs: seq<Reservation>, ds: seq<Decision>, i: nat)
    requires i < |rs| && Decided(rs, ds, i)
    requires forall k | 0 <= k < |ds| :: AgreesWithAll(ds[k], rs)
    ensures Ids(Drop(rs, i), ds) == Ids(rs, ds)
    ensures forall a :: Charged(Drop(rs, i), ds, a) == Charged(rs, ds, a)
  {
    DropElements(rs, i);
    var r := rs[i];
    var k := FindDecision(ds, r.requestId).value;
    assert Agrees(ds[k], r);
    assert r.requestId in DecidedIds(ds);
    forall n | 0 <= n < |rs| && n != i
      ensures rs[n].requestId in ReservedIds(Drop(rs, i)) && rs[n].requestId in ReservedBy(Drop(rs, i), rs[n].attemptId)
    {
      assert Drop(rs, i)[if n < i then n else n - 1] == rs[n];
    }
    forall n | 0 <= n < |rs| - 1
      ensures Drop(rs, i)[n].requestId in ReservedIds(rs) && Drop(rs, i)[n].requestId in ReservedBy(rs, Drop(rs, i)[n].attemptId)
    {
      assert Drop(rs, i)[n] == rs[if n < i then n else n + 1];
    }
    assert Ids(Drop(rs, i), ds) == Ids(rs, ds);
    forall a ensures Charged(Drop(rs, i), ds, a) == Charged(rs, ds, a) {
      assert a == r.attemptId ==> r.requestId in DecidedFor(ds, a);
    }
  }

  lemma DropCovers(counts: map<string, int>, rs: seq<Reservation>, ds: seq<Decision>, i: nat)
    requires CountsCover(counts, rs, ds) && i < |rs|
    requires forall a :: |Charged(Drop(rs, i), ds, a)| <= |Charged(rs, ds, a)|
    ensures CountsCover(counts, Drop(rs, i), ds)
  {
    hide Charged;
    var later := Drop(rs, i);
    DropElements(rs, i);
    forall n | 0 <= n < |later| ensures CountCovers(counts, later[n].attemptId, |Charged(later, ds, later[n].attemptId)|) {
      var m := if n < i then n else n + 1;
      assert CountCovers(counts, rs[m].attemptId, |Charged(rs, ds, rs[m].attemptId)|);
    }
    forall k | 0 <= k < |ds| ensures CountCovers(counts, ds[k].attemptId, |Charged(later, ds, ds[k].attemptId)|) {
      assert CountCovers(counts, ds[k].attemptId, |Charged(rs, ds, ds[k].attemptId)|);
    }
  }

  lemma DropFits(j: Journal, i: nat)
    requires i < |j.reservations|
    requires ReservationsFit(j.reservations, j.schema, j.policy) && DecisionsFit(j.decisions, j.reservations)
    requires forall n | 0 <= n < |j.reservations| :: EpochFits(j.reservations[n], j.policy)
    ensures var rs := Drop(j.reservations, i);
            && ReservationsFit(rs, j.schema, j.policy) && DecisionsFit(j.decisions, rs)
            && forall n | 0 <= n < |rs| :: EpochFits(rs[n], j.policy)
  {
    hide ReservationFits, DecisionFits;
    DropElements(j.reservations, i);
    forall k | 0 <= k < |j.decisions| ensures AgreesWithAll(j.decisions[k], Drop(j.reservations, i)) {
      assert AgreesWithAll(j.decisions[k], j.reservations);
    }
  }

  /** The send mark of a decided reservation survives it as a verdict other than `never_sent`. */
  lemma DropSent(rs: seq<Reservation>, ds: seq<Decision>, i: nat)
    requires i < |rs| && Decided(rs, ds, i) && DecisionsFit(ds, rs)
    ensures forall id | MayBeSent(rs, ds, id) :: MayBeSent(Drop(rs, i), ds, id)
  {
    DropElements(rs, i);
    var d := FindDecision(ds, rs[i].requestId).value;
    assert AgreesWithAll(ds[d], rs) && Agrees(ds[d], rs[i]) && DecisionFits(ds[d]);
    forall id | MayBeSent(rs, ds, id) ensures MayBeSent(Drop(rs, i), ds, id) {
      if n :| 0 <= n < |rs| && rs[n].requestId == id && SendMarked(rs[n]) {
        if n == i {
          assert ds[d].requestId == id && ds[d].verdict != NeverSent;
        } else {
          var m := if n < i then n else n - 1;
          assert Drop(rs, i)[m].requestId == id && SendMarked(Drop(rs, i)[m]);
        }
      }
    }
  }

  lemma DroppedSound(j: Journal, i: nat)
    requires Sound(j) && i < |j.reservations| && Decided(j.reservations, j.decisions, i)
    ensures var later := Without(j, i);
            && Sound(later) && Extends(j, later)
            && Ids(later.reservations, later.decisions) == Ids(j.reservations, j.decisions)
  {
    hide Charged, Ids, MayBeSent, DecisionFits, ReservationFits;
    assert Without(j, i).reservations == Drop(j.reservations, i);
    DropFits(j, i);
    DropCharges(j.reservations, j.decisions, i);
    DropCovers(j.counts, j.reservations, j.decisions, i);
    DropSent(j.reservations, j.decisions, i);
    DecisionsStay(j.decisions, j.decisions);
    SoundFrom(Without(j, i));
  }

  /** Ruling on a live request and releasing its reservation, in one persisted change. */
  function Settled(j: Journal, i: nat, evidence: Evidence, verdict: Verdict, delivery: Option<Outcome>): (settled: Option<Journal>)
    requires i < |j.reservations| && j.reservations[i].router.Some?
    ensures settled.Some? ==> |settled.value.reservations| == |j.reservations| - 1
  {
    var recorded := Recorded(j, i, evidence, verdict, None);
    if recorded.None? then None
    else
      var at := FindDecision(recorded.value.decisions, j.reservations[i].requestId);
      if delivery.None? || at.None? then Some(Without(recorded.value, i))
      else Some(Without(WithDelivery(recorded.value, at.value, delivery.value), i))
  }

  lemma SettledKeeps(j: Journal, i: nat, evidence: Evidence, verdict: Verdict, delivery: Option<Outcome>)
    requires Good(j) && j.schema == 2 && i < |j.reservations| && Justified(j.reservations[i], evidence, verdict, None)
    ensures Settled(j, i, evidence, verdict, delivery).Some?
    ensures Keeps(j, Settled(j, i, evidence, verdict, delivery).value)
  {
    hide Charged, Ids, MayBeSent, Sound, LiveSucceeded, Extends;
    RecordedSound(j, i, evidence, verdict, None);
    var one := Recorded(j, i, evidence, verdict, None).value;
    var at := FindDecision(one.decisions, j.reservations[i].requestId);
    var two := if delivery.None? then one else WithDelivery(one, at.value, delivery.value);
    if delivery.Some? {
      DeliverySound(one, at.value, delivery.value);
      ExtendsTransitive(j, one, two);
      assert two.decisions[at.value].requestId == j.reservations[i].requestId;
    }
    DroppedSound(two, i);
    ExtendsTransitive(j, two, Without(two, i));
    SettledLive(j, i, one.decisions);
    SameVerdicts(one.decisions, two.decisions, Drop(j.reservations, i));
  }

  lemma SettledLive(j: Journal, i: nat, ds: seq<Decision>)
    requires Good(j) && i < |j.reservations| && |j.decisions| <= |ds|
    requires forall k | 0 <= k < |j.decisions| :: ds[k] == j.decisions[k]
    requires forall k | |j.decisions| <= k < |ds| :: ds[k].requestId == j.reservations[i].requestId
    ensures LiveSucceeded(ds, Drop(j.reservations, i))
  {
    hide Charged, Ids, ReservationFits, DecisionsFit;
    DropElements(j.reservations, i);
  }

  lemma SameVerdicts(ds: seq<Decision>, later: seq<Decision>, rs: seq<Reservation>)
    requires LiveSucceeded(ds, rs) && |ds| == |later| && forall k | 0 <= k < |ds| :: SameRuling(ds[k], later[k])
    ensures LiveSucceeded(later, rs)
  {
  }

  lemma SuccessKeeps(j: Journal, i: nat, evidence: Evidence, completionDigest: string)
    requires Good(j) && j.schema == 2 && i < |j.reservations|
    requires Justified(j.reservations[i], evidence, ValidatedSuccess, Some(completionDigest))
    ensures var recorded := Recorded(j, i, evidence, ValidatedSuccess, Some(completionDigest));
            && recorded.Some? && Keeps(j, recorded.value)
            && HasSuccess(recorded.value.decisions, j.reservations[i].requestId)
  {
    hide Charged, Ids, MayBeSent, Sound, Extends;
    RecordedSound(j, i, evidence, ValidatedSuccess, Some(completionDigest));
    var later := Recorded(j, i, evidence, ValidatedSuccess, Some(completionDigest)).value;
    forall k, n | 0 <= k < |later.decisions| && 0 <= n < |j.reservations| && later.decisions[k].requestId == j.reservations[n].requestId
      ensures later.decisions[k].verdict == ValidatedSuccess
    {
      assert k < |j.decisions| ==> later.decisions[k] == j.decisions[k];
    }
    var at := FindDecision(later.decisions, j.reservations[i].requestId).value;
    assert later.decisions[at].verdict == ValidatedSuccess;
  }

  ghost predicate HasSuccess(ds: seq<Decision>, id: string) {
    exists k :: 0 <= k < |ds| && ds[k].requestId == id && ds[k].verdict == ValidatedSuccess
  }

  // ---- admission ----

  lemma ChargedWithinCount(counts: map<string, int>, rs: seq<Reservation>, ds: seq<Decision>, a: string)
    requires CountsCover(counts, rs, ds) && CountsInRange(counts)
    ensures |Charged(rs, ds, a)| <= CountOf(counts, a)
  {
    if id :| id in Charged(rs, ds, a) {
      if id in ReservedBy(rs, a) {
        var i :| 0 <= i < |rs| && rs[i].attemptId == a;
        assert CountCovers(counts, rs[i].attemptId, |Charged(rs, ds, rs[i].attemptId)|);
      } else {
        var k :| 0 <= k < |ds| && ds[k].attemptId == a;
        assert CountCovers(counts, ds[k].attemptId, |Charged(rs, ds, ds[k].attemptId)|);
      }
    } else {
      assert Charged(rs, ds, a) == {};
    }
  }

  lemma AdmittedIds(rs: seq<Reservation>, ds: seq<Decision>, r: Reservation)
    requires r.requestId !in Ids(rs, ds)
    ensures Ids(rs + [r], ds) == Ids(rs, ds) + {r.requestId}
    ensures |Ids(rs + [r], ds)| == |Ids(rs, ds)| + 1
  {
    var later := rs + [r];
    assert later[|rs|] == r && forall i | 0 <= i < |rs| :: later[i] == rs[i];
    assert ReservedIds(later) == ReservedIds(rs) + {r.requestId};
    assert Ids(later, ds) == Ids(rs, ds) + {r.requestId};
  }

  lemma ReservedByMore(rs: seq<Reservation>, r: Reservation, a: string)
    ensures ReservedBy(rs + [r], a) == ReservedBy(rs, a) + if a == r.attemptId then {r.requestId} else {}
  {
    var later := rs + [r];
    assert later[|rs|] == r && forall i | 0 <= i < |rs| :: later[i] == rs[i];
  }

  lemma ChargedAreKnown(rs: seq<Reservation>, ds: seq<Decision>, a: string)
    ensures Charged(rs, ds, a) <= Ids(rs, ds)
  {
  }

  lemma AdmittedCharge(rs: seq<Reservation>, ds: seq<Decision>, r: Reservation, a: string)
    requires r.requestId !in Ids(rs, ds)
    ensures |Charged(rs + [r], ds, a)| == |Charged(rs, ds, a)| + if a == r.attemptId then 1 else 0
  {
    hide ReservedBy, DecidedFor, Ids;
    ReservedByMore(rs, r, a);
    ChargedAreKnown(rs, ds, a);
    if a == r.attemptId {
      assert Charged(rs + [r], ds, a) == Charged(rs, ds, a) + {r.requestId};
    }
  }

  lemma AdmittedCovers(counts: map<string, int>, rs: seq<Reservation>, ds: seq<Decision>, r: Reservation)
    requires CountsCover(counts, rs, ds) && CountsInRange(counts) && r.requestId !in Ids(rs, ds)
    ensures CountsCover(counts[r.attemptId := CountOf(counts, r.attemptId) + 1], rs + [r], ds)
  {
    hide Charged, Ids, Reference;
    ChargedWithinCount(counts, rs, ds, r.attemptId);
    var later, more := rs + [r], counts[r.attemptId := CountOf(counts, r.attemptId) + 1];
    forall i | 0 <= i < |later| ensures CountCovers(more, later[i].attemptId, |Charged(later, ds, later[i].attemptId)|) {
      AdmittedCharge(rs, ds, r, later[i].attemptId);
      if i < |rs| {
        assert CountCovers(counts, rs[i].attemptId, |Charged(rs, ds, rs[i].attemptId)|);
      }
    }
    forall k | 0 <= k < |ds| ensures CountCovers(more, ds[k].attemptId, |Charged(later, ds, ds[k].attemptId)|) {
      AdmittedCharge(rs, ds, r, ds[k].attemptId);
      assert CountCovers(counts, ds[k].attemptId, |Charged(rs, ds, ds[k].attemptId)|);
    }
  }

  lemma AdmittedFits(j: Journal, r: Reservation)
    requires ReservationsFit(j.reservations, j.schema, j.policy) && DecisionsFit(j.decisions, j.reservations)
    requires r.requestId !in Ids(j.reservations, j.decisions) && ReservationFits(r, j.schema, j.policy)
    requires LiveSucceeded(j.decisions, j.reservations)
    ensures ReservationsFit(j.reservations + [r], j.schema, j.policy) && DecisionsFit(j.decisions, j.reservations + [r])
    ensures LiveSucceeded(j.decisions, j.reservations + [r])
  {
    hide ReservationFits, DecisionFits;
    var rs := j.reservations + [r];
    assert forall i | 0 <= i < |j.reservations| :: j.reservations[i].requestId in ReservedIds(j.reservations);
    assert forall k | 0 <= k < |j.decisions| :: j.decisions[k].requestId in DecidedIds(j.decisions);
    forall k | 0 <= k < |j.decisions| ensures AgreesWithAll(j.decisions[k], rs) {
      assert AgreesWithAll(j.decisions[k], j.reservations);
    }
  }

  lemma AdmittedSent(rs: seq<Reservation>, ds: seq<Decision>, r: Reservation)
    ensures forall id | MayBeSent(rs, ds, id) :: MayBeSent(rs + [r], ds, id)
  {
    var later := rs + [r];
    forall id | MayBeSent(rs, ds, id) ensures MayBeSent(later, ds, id) {
      if i :| 0 <= i < |rs| && rs[i].requestId == id && SendMarked(rs[i]) {
        assert later[i].requestId == id && SendMarked(later[i]);
      }
    }
  }

  lemma AdmittedKeeps(j: Journal, r: Reservation)
    requires Good(j) && j.policy.Some? && ReservationFits(r, j.schema, j.policy) && EpochFits(r, j.policy)
    requires r.requestId !in Ids(j.reservations, j.decisions) && |j.reservations| < MAX_RESERVATIONS
    requires CountOf(j.counts, r.attemptId) < MAX_COUNT && (|j.counts| < MAX_ATTEMPTS || r.attemptId in j.counts)
    requires j.schema == 2 ==> |j.decisions| + |j.reservations| < MAX_DECISIONS
    ensures var later := WithReservation(j, r);
            && Good(later) && Extends(j, later)
            && Ids(later.reservations, later.decisions) == Ids(j.reservations, j.decisions) + {r.requestId}
  {
    hide Charged, Ids, MayBeSent, Good, ReservationFits;
    IdsBounded(j.reservations, j.decisions);
    AdmittedIds(j.reservations, j.decisions, r);
    AdmittedSent(j.reservations, j.decisions, r);
    DecisionsStay(j.decisions, j.decisions);
    AdmittedGood(j, r);
  }

  lemma AdmittedGood(j: Journal, r: Reservation)
    requires Good(j) && j.policy.Some? && ReservationFits(r, j.schema, j.policy) && EpochFits(r, j.policy)
    requires r.requestId !in Ids(j.reservations, j.decisions) && |j.reservations| < MAX_RESERVATIONS
    requires CountOf(j.counts, r.attemptId) < MAX_COUNT && (|j.counts| < MAX_ATTEMPTS || r.attemptId in j.counts)
    requires j.schema == 2 ==> |Ids(j.reservations, j.decisions)| < MAX_DECISIONS
    ensures Good(WithReservation(j, r))
  {
    hide Charged, Ids, ReservationFits, DecisionFits, ReservationsFit, DecisionsFit;
    AdmittedFits(j, r);
    AdmittedIds(j.reservations, j.decisions, r);
    forall a ensures |Charged(j.reservations + [r], j.decisions, a)| ==
                     |Charged(j.reservations, j.decisions, a)| + if a == r.attemptId then 1 else 0
    {
      AdmittedCharge(j.reservations, j.decisions, r, a);
    }
    AdmittedCovers(j.counts, j.reservations, j.decisions, r);
    ReferenceOf(r, j.schema, j.policy);
    SoundFrom(WithReservation(j, r));
  }

  lemma ReferenceOf(r: Reservation, schema: int, policy: Option<Policy>)
    requires ReservationFits(r, schema, policy)
    ensures Reference(r.attemptId)
  {
  }

  lemma {:induction false} ReservedBound(rs: seq<Reservation>)
    ensures |ReservedIds(rs)| <= |rs|
  {
    if |rs| > 0 {
      var init := rs[..|rs| - 1];
      ReservedBound(init);
      assert forall i | 0 <= i < |init| :: init[i] == rs[i];
      assert ReservedIds(rs) == ReservedIds(init) + {rs[|rs| - 1].requestId};
    }
  }

  lemma {:induction false} DecidedBound(ds: seq<Decision>)
    ensures |DecidedIds(ds)| <= |ds|
  {
    if |ds| > 0 {
      var init := ds[..|ds| - 1];
      DecidedBound(init);
      assert forall i | 0 <= i < |init| :: init[i] == ds[i];
      assert DecidedIds(ds) == DecidedIds(init) + {ds[|ds| - 1].requestId};
    }
  }

  lemma IdsBounded(rs: seq<Reservation>, ds: seq<Decision>)
    ensures |Ids(rs, ds)| <= |rs| + |ds|
  {
    ReservedBound(rs);
    DecidedBound(ds);
    assert Ids(rs, ds) == ReservedIds(rs) + (DecidedIds(ds) - ReservedIds(rs));
    Subset(DecidedIds(ds) - ReservedIds(rs), DecidedIds(ds));
  }

  // ---- schema 1: reservations released without a decision ----

  ghost predicate SubsequenceOf(later: seq<Reservation>, rs: seq<Reservation>) {
    && DistinctReservations(later)
    && forall n | 0 <= n < |later| :: later[n] in rs
  }

  lemma {:induction false} OnlyActiveIsSubsequence(rs: seq<Reservation>)
    requires DistinctReservations(rs)
    ensures SubsequenceOf(OnlyActive(rs), rs) && |OnlyActive(rs)| <= |rs|
    ensures forall r :: r in OnlyActive(rs) <==> r in rs && r.outcome.None?
  {
    if |rs| > 0 {
      OnlyActiveIsSubsequence(rs[1..]);
      var rest, all := OnlyActive(rs[1..]), OnlyActive(rs);
      forall n | 0 <= n < |all| ensures all[n] in rs {
        assert all[n] == rs[0] || all[n] in rest;
      }
      assert forall n | 0 <= n < |rest| :: rest[n] in rs[1..] && rest[n].requestId != rs[0].requestId;
    }
  }

  lemma ReleasedKeeps(j: Journal, later: seq<Reservation>)
    requires Good(j) && j.schema == 1 && SubsequenceOf(later, j.reservations) && |later| <= |j.reservations|
    ensures Keeps(j, j.(reservations := later))
  {
    hide DecisionFits, ReservationFits;
    var rs, ds := j.reservations, j.decisions;
    assert ReservedIds(later) <= ReservedIds(rs);
    NothingMarked(rs, j.policy);
    ReleasedCovers(j.counts, rs, later, ds);
    hide Charged, Ids;
    DecisionsStay(ds, ds);
    SoundFrom(j.(reservations := later));
  }

  lemma ReleasedCovers(counts: map<string, int>, rs: seq<Reservation>, later: seq<Reservation>, ds: seq<Decision>)
    requires CountsCover(counts, rs, ds) && SubsequenceOf(later, rs)
    ensures CountsCover(counts, later, ds)
  {
    forall a: string ensures |Charged(later, ds, a)| <= |Charged(rs, ds, a)| {
      assert ReservedBy(later, a) <= ReservedBy(rs, a);
      Subset(Charged(later, ds, a), Charged(rs, ds, a));
    }
    hide Charged;
    forall n | 0 <= n < |later| ensures CountCovers(counts, later[n].attemptId, |Charged(later, ds, later[n].attemptId)|) {
      var m :| 0 <= m < |rs| && rs[m] == later[n];
      assert CountCovers(counts, rs[m].attemptId, |Charged(rs, ds, rs[m].attemptId)|);
    }
    forall k | 0 <= k < |ds| ensures CountCovers(counts, ds[k].attemptId, |Charged(later, ds, ds[k].attemptId)|) {
      assert CountCovers(counts, ds[k].attemptId, |Charged(rs, ds, ds[k].attemptId)|);
    }
  }

  lemma NothingMarked(rs: seq<Reservation>, policy: Option<Policy>)
    requires forall i | 0 <= i < |rs| :: ReservationFits(rs[i], 1, policy)
    ensures forall id :: !MayBeSent(rs, [], id)
  {
  }
}
