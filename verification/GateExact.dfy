/** When exactly each call of the gate succeeds and what exactly it then changes, in the terms of the journal and of what the
    world answers (`experiments/inference-boundary/policy.ts:200-356`). */
module GateExact {
  import opened Text
  import opened Receipts
  import opened Journals
  import opened JournalSteps
  import opened GateModel

  /** A call of an action that is let in. */
  predicate LetIn(v: View, entry: Entry) {
    v.lifecycle == Serving && !v.failed && !v.uncertainMutation && entry == Enter
  }

  /** The journal is this one, in memory and in the file, and everything else is as it was. */
  function Stored(v: View, later: Journal): View {
    v.(state := later, disk := Some(later), durable := later.decisions)
  }

  /** The reservation of a request: the first with its id. */
  predicate HoldsAt(rs: seq<Reservation>, id: string, i: nat) {
    i < |rs| && rs[i].requestId == id && forall k | 0 <= k < i :: rs[k].requestId != id
  }

  predicate DecidedAt(ds: seq<Decision>, id: string, k: nat) {
    k < |ds| && ds[k].requestId == id && forall m | 0 <= m < k :: ds[m].requestId != id
  }

  predicate Undecided(ds: seq<Decision>, id: string) {
    forall k | 0 <= k < |ds| :: ds[k].requestId != id
  }

  predicate RoomFor(ds: seq<Decision>, id: string) {
    Undecided(ds, id) ==> |ds| < MAX_DECISIONS
  }

  lemma FoundAt(rs: seq<Reservation>, id: string, i: nat)
    requires HoldsAt(rs, id, i)
    ensures FindReservation(rs, id) == Some(i)
  {
    FirstFound(rs, id);
  }

  lemma {:induction false} FirstFound(rs: seq<Reservation>, id: string)
    ensures var at := FindReservation(rs, id); at.Some? ==> HoldsAt(rs, id, at.value)
  {
    if |rs| > 0 && rs[0].requestId != id {
      FirstFound(rs[1..], id);
      var at := FindReservation(rs[1..], id);
      if at.Some? {
        forall k | 0 <= k < at.value + 1 ensures rs[k].requestId != id {
          assert k > 0 ==> rs[k] == rs[1..][k - 1];
        }
      }
    }
  }

  lemma {:induction false} FirstDecided(ds: seq<Decision>, id: string)
    ensures var at := FindDecision(ds, id); at.Some? ==> DecidedAt(ds, id, at.value)
  {
    if |ds| > 0 && ds[0].requestId != id {
      FirstDecided(ds[1..], id);
      var at := FindDecision(ds[1..], id);
      if at.Some? {
        forall k | 0 <= k < at.value + 1 ensures ds[k].requestId != id {
          assert k > 0 ==> ds[k] == ds[1..][k - 1];
        }
      }
    }
  }

  // ---- admission ----

  predicate SomeEnded(rs: seq<Reservation>) {
    exists i :: 0 <= i < |rs| && rs[i].outcome.Some?
  }

  /** The reservations whose handler has not ended, in order. */
  function StillRunning(rs: seq<Reservation>): seq<Reservation> {
    if |rs| == 0 then []
    else StillRunning(rs[..|rs| - 1]) + (if rs[|rs| - 1].outcome == None then [rs[|rs| - 1]] else [])
  }

  lemma {:induction false} RunningMore(r: Reservation, rs: seq<Reservation>)
    ensures StillRunning([r] + rs) == (if r.outcome == None then [r] else []) + StillRunning(rs)
  {
    if |rs| == 0 {
      assert [r] + rs == [r] && [r][..0] == [];
    } else {
      var all := [r] + rs;
      assert all[..|all| - 1] == [r] + rs[..|rs| - 1];
      RunningMore(r, rs[..|rs| - 1]);
    }
  }

  lemma {:induction false} ActiveIsRunning(rs: seq<Reservation>)
    ensures OnlyActive(rs) == StillRunning(rs)
  {
    if |rs| > 0 {
      ActiveIsRunning(rs[1..]);
      RunningMore(rs[0], rs[1..]);
      assert rs == [rs[0]] + rs[1..];
    }
  }

  /** The reservations an admission finds: under the fixture policy ended ones leave once the authority calls them quiescent. */
  function Remaining(rs: seq<Reservation>, p: Policy, retired: Call<bool>): seq<Reservation> {
    if p.FixturePolicy? && SomeEnded(rs) && retired == Answered(true) then StillRunning(rs) else rs
  }

  predicate SpeaksOf(b: Binding, p: Policy) {
    b.routerId == p.routerId && b.routeId == p.routeId && b.epoch == p.epoch && b.revision == p.revision
  }

  /** What a router policy asks beyond the fixture policy. */
  predicate RouterReady(j: Journal, p: Policy, requestDigest: Option<string>, authorityCurrent: bool) {
    p.RouterPolicy? ==>
      && authorityCurrent && requestDigest.Some? && Sha256(requestDigest.value) && j.schema != 1
      && |j.decisions| + |j.reservations| < MAX_DECISIONS
      && (p.profile == NativeTranslation ==> j.reservations == [])
  }

  predicate RoomLeft(left: seq<Reservation>, counts: map<string, int>, p: Policy, attemptId: string) {
    && ReservedFor(left, attemptId) < p.limits.concurrency && |left| < MAX_RESERVATIONS
    && 0 <= CountOf(counts, attemptId) <= MAX_SAFE && CountOf(counts, attemptId) < p.limits.requestCount
    && (attemptId in counts || |counts| < MAX_ATTEMPTS)
  }

  /** An admission goes through: the gate is in service, the authority agrees, the binding speaks of the policy in force, there is
      room under every limit, and the write succeeds. */
  predicate MayAdmit(v: View, b: Binding, requestDigest: Option<string>, w: AdmitWorld) {
    && ValidBinding(b) && !b.native && LetIn(v, w.entry)
    && v.state.phase == Active && v.state.policy.Some?
    && var p := v.state.policy.value;
    && RouterReady(v.state, p, requestDigest, w.authorityCurrent)
    && (p.FixturePolicy? && SomeEnded(v.state.reservations) ==> w.retired.Answered?)
    && !w.interrupted && w.current && SpeaksOf(b, p)
    && RoomLeft(Remaining(v.state.reservations, p, w.retired), v.state.counts, p, b.attemptId)
    && w.save == Written
  }

  function Reserving(p: Policy, b: Binding, requestDigest: Option<string>, requestId: string): Reservation {
    Reservation(requestId, b.attemptId, b.taskId, p.epoch, None,
                if p.RouterPolicy? && requestDigest.Some? then Some(Saved(p, b, requestDigest.value, Reserved)) else None)
  }

  /** A refusal names something that is so. */
  predicate ReasonHolds(v: View, b: Binding, requestDigest: Option<string>, w: AdmitWorld, reason: Reason) {
    match reason
    case Unauthorized => !w.current
    case PolicyDenied => !ValidBinding(b) || b.native || (v.state.policy.Some? && !SpeaksOf(b, v.state.policy.value))
    case Cancelled => w.entry == Aborted || w.interrupted
    case ConcurrencyLimit =>
      v.state.policy.Some? &&
      var p, left := v.state.policy.value, Remaining(v.state.reservations, v.state.policy.value, w.retired);
      ReservedFor(left, b.attemptId) >= p.limits.concurrency || |left| >= MAX_RESERVATIONS ||
      (p.RouterPolicy? && p.profile == NativeTranslation && v.state.reservations != [])
    case AttemptLimit =>
      v.state.policy.Some? &&
      var p := v.state.policy.value;
      CountOf(v.state.counts, b.attemptId) >= p.limits.requestCount || (|v.state.counts| >= MAX_ATTEMPTS && b.attemptId !in v.state.counts) ||
      (p.RouterPolicy? && (requestDigest.None? || !Sha256(requestDigest.value) || |v.state.decisions| + |v.state.reservations| >= MAX_DECISIONS))
    case Fault => v.state.policy.Some? && v.state.policy.value.RouterPolicy? && v.state.schema == 1
    case BoundaryClosed => !MayAdmit(v, b, requestDigest, w)
    case ReceiptUnverified => false
    case ReplacementReadOnly => false
  }

  lemma RetireExact(v: View, p: Policy, retired: Call<bool>)
    ensures var t := Retire(v, p, retired);
            && (t.reply.Done? <==> (p.FixturePolicy? && SomeEnded(v.state.reservations) ==> retired.Answered?))
            && t.view.state.reservations == Remaining(v.state.reservations, p, retired)
            && (t.reply.Done? ==> t.view == v.(state := v.state.(reservations := Remaining(v.state.reservations, p, retired))))
            && t.view.state == v.state.(reservations := t.view.state.reservations, phase := t.view.state.phase)
  {
    ActiveIsRunning(v.state.reservations);
  }

  /** The refusals of the two checks, condition by condition. */
  lemma RefusalExact(j: Journal, p: Policy, b: Binding, requestDigest: Option<string>, authorityCurrent: bool)
    ensures RouterRefusal(j, p, b, requestDigest, authorityCurrent).None? <==>
            RouterReady(j, p, requestDigest, authorityCurrent) && !b.native
  {
    hide Sha256;
  }

  lemma CapacityExact(j: Journal, p: Policy, b: Binding, w: AdmitWorld)
    ensures CapacityRefusal(j, p, b, w).None? <==>
            !w.interrupted && w.current && SpeaksOf(b, p) && RoomLeft(j.reservations, j.counts, p, b.attemptId)
  {
    hide ReservedFor;
  }

  lemma AdmitBodyExact(v: View, b: Binding, requestDigest: Option<string>, w: AdmitWorld)
    requires ValidBinding(b) && LetIn(v, w.entry)
    ensures var t := AdmitBody(v, b, requestDigest, w);
            && (t.reply.Done? <==> MayAdmit(v, b, requestDigest, w))
            && (t.reply.Done? ==> AdmittedTo(v, t, b, requestDigest, w))
            && (t.reply.Denied? ==> Turned(v, t.view, b, w))
  {
    hide ValidBinding, RouterRefusal, CapacityRefusal, RouterReady, RoomLeft, Retire, Remaining, SomeEnded, SpeaksOf;
    if v.state.phase == Active && v.state.policy.Some? {
      var p := v.state.policy.value;
      RefusalExact(v.state, p, b, requestDigest, w.authorityCurrent);
      RetireExact(v, p, w.retired);
      var retired := Retire(v, p, w.retired);
      CapacityExact(retired.view.state, p, b, w);
      RouterGiven(v.state, p, requestDigest, w.authorityCurrent);
    }
  }

  lemma RouterGiven(j: Journal, p: Policy, requestDigest: Option<string>, authorityCurrent: bool)
    ensures RouterReady(j, p, requestDigest, authorityCurrent) && p.RouterPolicy? ==> requestDigest.Some?
  {
  }

  /** What an admission changes. */
  predicate AdmittedTo(v: View, t: Turn<Reservation>, b: Binding, requestDigest: Option<string>, w: AdmitWorld) {
    && v.state.policy.Some?
    && var p := v.state.policy.value;
    && var r := Reserving(p, b, requestDigest, w.requestId);
    && var later := v.state.(
         reservations := Remaining(v.state.reservations, p, w.retired) + [r],
         counts := v.state.counts[b.attemptId := CountOf(v.state.counts, b.attemptId) + 1]);
    && t == Turn(Stored(v, later), Done(r))
  }

  /** What a refusal leaves: unless the gate has failed, nothing was charged or reserved. */
  predicate Turned(v: View, later: View, b: Binding, w: AdmitWorld) {
    later.failed ||
      (&& later.state.counts == v.state.counts && later.state.decisions == v.state.decisions && later.state.policy == v.state.policy
       && (later.state.reservations == v.state.reservations ||
           (v.state.policy.Some? && later.state.reservations == Remaining(v.state.reservations, v.state.policy.value, w.retired))))
  }

  lemma RefusalReason(v: View, b: Binding, requestDigest: Option<string>, w: AdmitWorld)
    requires v.state.policy.Some?
    ensures var refusal := RouterRefusal(v.state, v.state.policy.value, b, requestDigest, w.authorityCurrent);
            refusal.Some? && refusal != Some(BoundaryClosed) ==> ReasonHolds(v, b, requestDigest, w, refusal.value)
  {
    hide ValidBinding, Remaining, Sha256, ReservedFor, MayAdmit;
  }

  lemma CapacityReason(v: View, u: Journal, b: Binding, requestDigest: Option<string>, w: AdmitWorld)
    requires v.state.policy.Some? && u.counts == v.state.counts && u.reservations == Remaining(v.state.reservations, v.state.policy.value, w.retired)
    ensures var full := CapacityRefusal(u, v.state.policy.value, b, w);
            full.Some? && full != Some(BoundaryClosed) ==> ReasonHolds(v, b, requestDigest, w, full.value)
  {
    hide ValidBinding, Remaining, Sha256, ReservedFor, MayAdmit;
  }

  lemma BodyReason(v: View, b: Binding, requestDigest: Option<string>, w: AdmitWorld)
    requires ValidBinding(b) && LetIn(v, w.entry)
    ensures var t := AdmitBody(v, b, requestDigest, w); t.reply.Denied? ==> ReasonHolds(v, b, requestDigest, w, t.reply.reason)
  {
    hide ValidBinding, Retire, Remaining, RouterRefusal, CapacityRefusal, MayAdmit, NewReservation;
    AdmitBodyExact(v, b, requestDigest, w);
    if v.state.phase == Active && v.state.policy.Some? {
      var p := v.state.policy.value;
      RetireExact(v, p, w.retired);
      RetireReason(v, p, w.retired);
      RefusalReason(v, b, requestDigest, w);
      CapacityReason(v, Retire(v, p, w.retired).view.state, b, requestDigest, w);
    }
    assert forall reason :: reason == BoundaryClosed && !MayAdmit(v, b, requestDigest, w) ==> ReasonHolds(v, b, requestDigest, w, reason);
  }

  lemma RetireReason(v: View, p: Policy, retired: Call<bool>)
    ensures var t := Retire(v, p, retired); t.reply.Denied? ==> t.reply.reason == BoundaryClosed
  {
  }

  lemma RescueKeepsReason<T>(t: Turn<T>, save: Option<Save>)
    ensures var u := Rescue(t, save);
            && (t.reply.Done? ==> u == t) && (u.reply.Done? ==> t.reply.Done?)
            && (u.reply == t.reply || u.reply == Denied(BoundaryClosed))
            && u.view.state == t.view.state.(phase := u.view.state.phase) && (t.view.failed ==> u.view.failed)
  {
  }

  /** `admit`, in full: when it succeeds, what it then changes, what a refusal leaves, and that a refusal tells the truth. */
  lemma AdmitExact(v: View, b: Binding, requestDigest: Option<string>, w: AdmitWorld)
    ensures var t := Admit(v, b, requestDigest, w);
            && (t.reply.Done? <==> MayAdmit(v, b, requestDigest, w))
            && (t.reply.Done? ==> AdmittedTo(v, t, b, requestDigest, w))
            && (t.reply.Denied? ==> Turned(v, t.view, b, w) && ReasonHolds(v, b, requestDigest, w, t.reply.reason))
  {
    hide ValidBinding, AdmitBody, AdmittedTo, Remaining, RoomLeft, RouterReady, SpeaksOf, SomeEnded, Rescue;
    if ValidBinding(b) && LetIn(v, w.entry) {
      AdmitBodyExact(v, b, requestDigest, w);
      BodyReason(v, b, requestDigest, w);
      RescueKeepsReason(AdmitBody(v, b, requestDigest, w), w.rescue);
    }
  }

  function PlacesOf(rs: seq<Reservation>, attemptId: string): set<nat> {
    set i | 0 <= i < |rs| && rs[i].attemptId == attemptId
  }

  /** The count that the limit is compared with is the number of the attempt's reservations. */
  lemma {:induction false} ReservedForCounts(rs: seq<Reservation>, attemptId: string)
    ensures ReservedFor(rs, attemptId) == |PlacesOf(rs, attemptId)|
  {
    if |rs| > 0 {
      var n := |rs| - 1;
      ReservedForCounts(rs[..n], attemptId);
      PlacesMore(rs, attemptId);
    } else {
      assert PlacesOf(rs, attemptId) == {};
    }
  }

  lemma PlacesMore(rs: seq<Reservation>, attemptId: string)
    requires |rs| > 0
    ensures var n := |rs| - 1; var init := PlacesOf(rs[..n], attemptId);
            n !in init && PlacesOf(rs, attemptId) == if rs[n].attemptId == attemptId then init + {n} else init
  {
    var n := |rs| - 1;
    forall i ensures i in PlacesOf(rs, attemptId) <==> i in PlacesOf(rs[..n], attemptId) || (i == n && rs[n].attemptId == attemptId) {
      if 0 <= i < n {
        assert rs[..n][i] == rs[i];
      }
    }
  }

  // ---- sending ----

  predicate MayMark(v: View, i: nat, w: SendWorld)
    requires i < |v.state.reservations|
  {
    var router := v.state.reservations[i].router;
    && LetIn(v, w.entry) && v.state.phase == Active
    && router.Some? && router.value.send == Reserved
    && w.authorityCurrent && !w.interrupted && w.save == Written
  }

  function WithMark(r: Reservation): Reservation {
    if r.router.None? then r
    else
      var s := r.router.value;
      Reservation(r.requestId, r.attemptId, r.taskId, r.epoch, r.outcome, Some(Saved(s.policy, s.binding, s.requestDigest, SendPossible)))
  }

  /** `markSend` succeeds for a reserved, unsent request of a gate in service, and changes its mark alone. */
  lemma MarkSendExact(v: View, requestId: string, i: nat, w: SendWorld)
    requires HoldsAt(v.state.reservations, requestId, i)
    ensures var t := MarkSend(v, requestId, w);
            && (t.reply.Done? <==> MayMark(v, i, w))
            && (t.reply.Done? ==>
                  var later := v.state.(reservations := v.state.reservations[i := WithMark(v.state.reservations[i])]);
                  t == Turn(Stored(v, later), Done(())))
            && (t.reply.Denied? ==> t.view.failed || t.view.state == v.state.(phase := t.view.state.phase))
  {
    FoundAt(v.state.reservations, requestId, i);
    hide HoldsAt;
  }

  lemma UnknownIsRefused(v: View, requestId: string, completionDigest: string, outcome: Outcome, neverForwarded: bool,
                         s: SendWorld, z: FinalizeWorld, f: FinishWorld)
    requires forall k | 0 <= k < |v.state.reservations| :: v.state.reservations[k].requestId != requestId
    ensures MarkSend(v, requestId, s).reply.Denied? && Finalize(v, requestId, completionDigest, z).reply.Denied?
    ensures Finish(v, requestId, outcome, neverForwarded, f).reply.Denied?
  {
  }

  // ---- success ----

  predicate MayFinalize(v: View, i: nat, completionDigest: string, w: FinalizeWorld)
    requires i < |v.state.reservations|
  {
    var r := v.state.reservations[i];
    && LetIn(v, w.entry) && (v.state.phase == Active || v.state.phase == Draining)
    && r.router.Some? && r.router.value.send == SendPossible && Sha256(completionDigest)
    && w.receipt.Answered? && Classify(w.receipt.value, r.requestId, r.router.value.policy).disposition == OriginalSuccess
    && w.currentBefore && w.authorityBefore && RoomFor(v.state.decisions, r.requestId) && w.save == Written
    && !w.interrupted && w.currentAfter && w.authorityAfter
  }

  /** The rulings after a request got one, unless it had one. */
  function Ruled(ds: seq<Decision>, d: Decision): seq<Decision> {
    if Undecided(ds, d.requestId) then ds + [d] else ds
  }

  function Success(r: Reservation, completionDigest: string, receipt: RawReceipt): Decision
    requires r.router.Some?
  {
    Decision(r.requestId, r.taskId, r.attemptId, r.router.value, ValidatedSuccess,
             Classify(receipt, r.requestId, r.router.value.policy), Some(completionDigest), None)
  }

  /** What a success changes: one ruling, in memory and in the file. */
  predicate FinalizedTo(v: View, later: View, i: nat, completionDigest: string, w: FinalizeWorld)
    requires i < |v.state.reservations|
  {
    && v.state.reservations[i].router.Some? && w.receipt.Answered?
    && later == Stored(v, v.state.(decisions := Ruled(v.state.decisions, Success(v.state.reservations[i], completionDigest, w.receipt.value))))
  }

  lemma RecordedExact(j: Journal, i: nat, evidence: Evidence, verdict: Verdict, completionDigest: Option<string>)
    requires i < |j.reservations| && j.reservations[i].router.Some?
    ensures var r := j.reservations[i];
            var recorded := Recorded(j, i, evidence, verdict, completionDigest);
            var d := Decision(r.requestId, r.taskId, r.attemptId, r.router.value, verdict, evidence, completionDigest, None);
            (recorded.Some? <==> RoomFor(j.decisions, r.requestId)) && (recorded.Some? ==> recorded.value == j.(decisions := Ruled(j.decisions, d)))
  {
  }

  lemma FinalizeBodyExact(v: View, requestId: string, i: nat, completionDigest: string, w: FinalizeWorld)
    requires FindReservation(v.state.reservations, requestId) == Some(i) && LetIn(v, w.entry)
    ensures var t := FinalizeBody(v, requestId, completionDigest, w);
            && (t.reply.Done? <==> MayFinalize(v, i, completionDigest, w))
            && (t.reply.Done? ==> FinalizedTo(v, t.view, i, completionDigest, w))
            && t.view.state.reservations == v.state.reservations && t.view.state.counts == v.state.counts
  {
    hide FindReservation, Classify, Sha256, Recorded, RoomFor, Ruled;
    var r := v.state.reservations[i];
    if r.router.Some? && w.receipt.Answered? {
      RecordedExact(v.state, i, Classify(w.receipt.value, requestId, r.router.value.policy), ValidatedSuccess, Some(completionDigest));
    }
  }

  /** `finalize` succeeds on a receipt that proves success for a marked request while every check holds before and after the
      write, and then records exactly that. */
  lemma FinalizeExact(v: View, requestId: string, i: nat, completionDigest: string, w: FinalizeWorld)
    requires HoldsAt(v.state.reservations, requestId, i)
    ensures var t := Finalize(v, requestId, completionDigest, w);
            && (t.reply.Done? <==> MayFinalize(v, i, completionDigest, w))
            && (t.reply.Done? ==> FinalizedTo(v, t.view, i, completionDigest, w))
            && t.view.state.reservations == v.state.reservations && t.view.state.counts == v.state.counts
  {
    FoundAt(v.state.reservations, requestId, i);
    hide HoldsAt, FinalizeBody, Rescue, FindReservation, FinalizedTo;
    if LetIn(v, w.entry) {
      FinalizeBodyExact(v, requestId, i, completionDigest, w);
      RescueKeepsReason(FinalizeBody(v, requestId, completionDigest, w), w.rescue);
    }
  }

  // ---- finishing ----

  function WithEnding(r: Reservation, outcome: Outcome): Reservation {
    Reservation(r.requestId, r.attemptId, r.taskId, r.epoch, Some(outcome), r.router)
  }

  function Dropped(rs: seq<Reservation>, i: nat): seq<Reservation>
    requires i < |rs|
  {
    rs[..i] + rs[i + 1..]
  }

  /** What is known of a routed request: nothing is needed where it was never marked. */
  predicate Conclusive(r: Reservation, receipt: Call<RawReceipt>)
    requires r.router.Some?
  {
    r.router.value.send == Reserved ||
    (receipt.Answered? && Classify(receipt.value, r.requestId, r.router.value.policy).disposition != PendingOrUnknown)
  }

  /** The ruling on a request that ends without success. */
  function EndRuling(r: Reservation, receipt: Call<RawReceipt>): (d: Decision)
    requires r.router.Some? && Conclusive(r, receipt)
    ensures d.requestId == r.requestId
  {
    var never := r.router.value.send == Reserved;
    Decision(r.requestId, r.taskId, r.attemptId, r.router.value, if never then NeverSent else QuiescentVerdict,
             if never then Evidence(QuiescentFailure, None, []) else Classify(receipt.value, r.requestId, r.router.value.policy), None, None)
  }

  /** A list of rulings in which the first one of a request has this delivery and nothing else differs. */
  predicate Delivered(ds: seq<Decision>, later: seq<Decision>, id: string, outcome: Outcome) {
    |later| == |ds| && forall k | 0 <= k < |ds| ::
      later[k] == if DecidedAt(ds, id, k) then ds[k].(delivery := Some(outcome)) else ds[k]
  }

  /** A reservation without a router record leaves when it was never forwarded or the authority calls it quiescent, and only
      then; whichever way the write ends. */
  predicate PlainFinish(v: View, t: Turn<bool>, i: nat, outcome: Outcome, neverForwarded: bool, w: FinishWorld)
    requires i < |v.state.reservations|
  {
    var gone := neverForwarded || w.quiescent == Answered(true);
    && t.view.state.reservations == (if gone then Dropped(v.state.reservations, i)
                                     else v.state.reservations[i := WithEnding(v.state.reservations[i], outcome)])
    && t.view.state.decisions == v.state.decisions && t.view.state.counts == v.state.counts
    && (t.reply.Done? <==> (neverForwarded || w.quiescent.Answered?) && w.save == Written)
    && (t.reply.Done? ==> t.reply.value == gone && t.view.disk == Some(t.view.state) && t.view.state.phase == v.state.phase)
  }

  /** A routed reservation leaves with a ruling, unless the receipt leaves its work pending. */
  predicate RoutedFinish(v: View, t: Turn<bool>, i: nat, outcome: Outcome, w: FinishWorld)
    requires i < |v.state.reservations| && v.state.reservations[i].router.Some?
  {
    var r := v.state.reservations[i];
    var settled := Conclusive(r, w.receipt) && RoomFor(v.state.decisions, r.requestId);
    && t.view.state.counts == v.state.counts
    && t.view.state.reservations == (if settled then Dropped(v.state.reservations, i) else v.state.reservations[i := WithEnding(r, outcome)])
    && (if settled then Delivered(Ruled(v.state.decisions, EndRuling(r, w.receipt)), t.view.state.decisions, r.requestId, outcome)
        else t.view.state.decisions == v.state.decisions)
    && (t.reply.Done? <==> w.save == Written && (settled || (r.router.value.send == SendPossible && w.receipt.Answered? && !Conclusive(r, w.receipt))))
    && (t.reply.Done? ==> t.reply.value == settled && t.view.disk == Some(t.view.state) && t.view.state.phase == v.state.phase)
  }

  lemma FinishPlainExact(v: View, i: nat, outcome: Outcome, neverForwarded: bool, w: FinishWorld)
    requires i < |v.state.reservations| && LetIn(v, w.entry)
    ensures PlainFinish(v, FinishPlain(v.(state := WithOutcome(v.state, i, outcome)), i, neverForwarded, w), i, outcome, neverForwarded, w)
  {
    var rs := v.state.reservations;
    var later := WithOutcome(v.state, i, outcome).reservations;
    assert later[..i] == rs[..i] && later[i + 1..] == rs[i + 1..];
  }

  lemma WithDeliveryExact(ds: seq<Decision>, id: string, outcome: Outcome)
    ensures var at := FindDecision(ds, id);
            at.Some? ==> Delivered(ds, ds[at.value := ds[at.value].(delivery := Some(outcome))], id, outcome)
  {
    FirstDecided(ds, id);
  }

  lemma RuledIsFound(ds: seq<Decision>, d: Decision)
    ensures FindDecision(Ruled(ds, d), d.requestId).Some?
  {
    if Undecided(ds, d.requestId) {
      assert (ds + [d])[|ds|] == d;
    }
  }

  lemma SettledExact(j: Journal, i: nat, receipt: Call<RawReceipt>, outcome: Outcome)
    requires i < |j.reservations| && j.reservations[i].router.Some? && Conclusive(j.reservations[i], receipt)
    ensures var r := j.reservations[i];
            var d := EndRuling(r, receipt);
            var settled := Settled(j, i, d.evidence, d.verdict, Some(outcome));
            && (settled.Some? <==> RoomFor(j.decisions, r.requestId))
            && (settled.Some? ==>
                  && settled.value == j.(reservations := Dropped(j.reservations, i), decisions := settled.value.decisions)
                  && Delivered(Ruled(j.decisions, d), settled.value.decisions, r.requestId, outcome))
  {
    hide Classify, Recorded, RoomFor, Ruled, FindDecision, Delivered, Conclusive;
    var d := EndRuling(j.reservations[i], receipt);
    RecordedExact(j, i, d.evidence, d.verdict, None);
    RuledIsFound(j.decisions, d);
    WithDeliveryExact(Ruled(j.decisions, d), d.requestId, outcome);
  }

  lemma EvidenceExact(r: Reservation, receipt: Call<RawReceipt>)
    requires r.router.Some?
    ensures var evidence := EvidenceFor(r, receipt);
            && (evidence.Answered? <==> r.router.value.send == Reserved || receipt.Answered?)
            && (evidence.Answered? ==> (evidence.value.disposition != PendingOrUnknown <==> Conclusive(r, receipt)))
            && (Conclusive(r, receipt) ==> evidence == Answered(EndRuling(r, receipt).evidence) && RulingFor(r) == EndRuling(r, receipt).verdict)
  {
    hide Classify;
  }

  lemma EndedAgain(j: Journal, i: nat, outcome: Outcome, receipt: Call<RawReceipt>)
    requires i < |j.reservations| && j.reservations[i].router.Some?
    ensures var ended := WithOutcome(j, i, outcome);
            && ended == j.(reservations := j.reservations[i := WithEnding(j.reservations[i], outcome)])
            && Dropped(ended.reservations, i) == Dropped(j.reservations, i)
            && (Conclusive(ended.reservations[i], receipt) <==> Conclusive(j.reservations[i], receipt))
            && (Conclusive(j.reservations[i], receipt) ==> EndRuling(ended.reservations[i], receipt) == EndRuling(j.reservations[i], receipt))
  {
    hide Classify;
  }

  lemma FinishRoutedExact(v: View, i: nat, outcome: Outcome, w: FinishWorld)
    requires i < |v.state.reservations| && v.state.reservations[i].router.Some? && LetIn(v, w.entry)
    ensures RoutedFinish(v, FinishRouted(v.(state := WithOutcome(v.state, i, outcome)), i, outcome, w), i, outcome, w)
  {
    hide Classify, Settled, RoomFor, Ruled, Delivered, Conclusive, EndRuling, EvidenceFor, RulingFor, WithOutcome, Dropped;
    EndedAgain(v.state, i, outcome, w.receipt);
    var ended := WithOutcome(v.state, i, outcome);
    EvidenceExact(ended.reservations[i], w.receipt);
    if Conclusive(ended.reservations[i], w.receipt) {
      SettledExact(ended, i, w.receipt, outcome);
    }
    ReservedIsKnown(v.state.reservations[i], w.receipt);
  }

  lemma ReservedIsKnown(r: Reservation, receipt: Call<RawReceipt>)
    requires r.router.Some?
    ensures r.router.value.send == Reserved ==> Conclusive(r, receipt)
    ensures Conclusive(r, receipt) && r.router.value.send == SendPossible ==> receipt.Answered?
  {
  }

  lemma FinishedUnder(v: View, t: Turn<bool>, u: Turn<bool>, i: nat, outcome: Outcome, neverForwarded: bool, w: FinishWorld)
    requires i < |v.state.reservations|
    requires (t.reply.Done? ==> u == t) && (u.reply.Done? ==> t.reply.Done?) && u.view.state == t.view.state.(phase := u.view.state.phase)
    ensures PlainFinish(v, t, i, outcome, neverForwarded, w) ==> PlainFinish(v, u, i, outcome, neverForwarded, w)
    ensures v.state.reservations[i].router.Some? && RoutedFinish(v, t, i, outcome, w) ==> RoutedFinish(v, u, i, outcome, w)
  {
    hide Classify, RoomFor, Ruled, Delivered, Conclusive, EndRuling, Dropped;
  }

  /** `finish` of a request that holds a reservation. */
  lemma FinishExact(v: View, requestId: string, i: nat, outcome: Outcome, neverForwarded: bool, w: FinishWorld)
    requires HoldsAt(v.state.reservations, requestId, i) && LetIn(v, w.entry)
    ensures var t := Finish(v, requestId, outcome, neverForwarded, w);
            && t.view.state.policy == v.state.policy && t.view.state.schema == v.state.schema
            && if v.state.reservations[i].router.Some? then RoutedFinish(v, t, i, outcome, w)
               else PlainFinish(v, t, i, outcome, neverForwarded, w)
  {
    FoundAt(v.state.reservations, requestId, i);
    hide HoldsAt, FinishPlain, FinishRouted, PlainFinish, RoutedFinish, Rescue, FindReservation;
    var body := FinishBody(v, requestId, outcome, neverForwarded, w);
    FinishTouches(v, i, outcome, neverForwarded, w);
    if v.state.reservations[i].router.Some? {
      FinishRoutedExact(v, i, outcome, w);
    } else {
      FinishPlainExact(v, i, outcome, neverForwarded, w);
    }
    RescueKeepsReason(body, w.rescue);
    FinishedUnder(v, body, Rescue(body, w.rescue), i, outcome, neverForwarded, w);
  }

  lemma SettledTouches(j: Journal, i: nat, evidence: Evidence, verdict: Verdict, delivery: Option<Outcome>)
    requires i < |j.reservations| && j.reservations[i].router.Some?
    ensures var settled := Settled(j, i, evidence, verdict, delivery);
            settled.Some? ==> settled.value == j.(reservations := settled.value.reservations, decisions := settled.value.decisions)
  {
    hide FindDecision;
  }

  lemma RoutedTouches(v: View, i: nat, outcome: Outcome, w: FinishWorld)
    requires i < |v.state.reservations| && v.state.reservations[i].router.Some?
    ensures var later := FinishRouted(v, i, outcome, w).view.state; later.policy == v.state.policy && later.schema == v.state.schema
  {
    hide Classify, FindDecision, Settled, EvidenceFor;
    var evidence := EvidenceFor(v.state.reservations[i], w.receipt);
    if evidence.Answered? {
      SettledTouches(v.state, i, evidence.value, RulingFor(v.state.reservations[i]), Some(outcome));
    }
  }

  lemma FinishTouches(v: View, i: nat, outcome: Outcome, neverForwarded: bool, w: FinishWorld)
    requires i < |v.state.reservations|
    ensures var u := v.(state := WithOutcome(v.state, i, outcome));
            var plain := FinishPlain(u, i, neverForwarded, w).view.state;
            && plain.policy == v.state.policy && plain.schema == v.state.schema
            && (v.state.reservations[i].router.Some? ==>
                  var routed := FinishRouted(u, i, outcome, w).view.state;
                  routed.policy == v.state.policy && routed.schema == v.state.schema)
  {
    hide FinishRouted;
    if v.state.reservations[i].router.Some? {
      RoutedTouches(v.(state := WithOutcome(v.state, i, outcome)), i, outcome, w);
    }
  }

  // ---- activation ----

  /** The rulings after the first n left-over reservations were ruled on, in order. */
  function RuledAll(rs: seq<Reservation>, ds: seq<Decision>, ws: seq<Settlement>, n: nat): seq<Decision>
    requires n <= |rs|
  {
    if n == 0 then ds
    else
      var earlier := RuledAll(rs, ds, ws, n - 1);
      if n <= |ws| && rs[n - 1].router.Some? && Conclusive(rs[n - 1], ws[n - 1].receipt)
      then Ruled(earlier, EndRuling(rs[n - 1], ws[n - 1].receipt)) else earlier
  }

  /** The reservation can be ruled on and the ruling is written. */
  predicate CanRule(rs: seq<Reservation>, ds: seq<Decision>, ws: seq<Settlement>, n: nat)
    requires n < |rs|
  {
    && n < |ws| && rs[n].router.Some? && Conclusive(rs[n], ws[n].receipt) && ws[n].save == Written
    && RoomFor(RuledAll(rs, ds, ws, n), rs[n].requestId)
  }

  predicate Recoverable(rs: seq<Reservation>, ds: seq<Decision>, ws: seq<Settlement>) {
    forall n | 0 <= n < |rs| :: CanRule(rs, ds, ws, n)
  }

  lemma {:induction false} RuledFromSecond(rs: seq<Reservation>, ds: seq<Decision>, ws: seq<Settlement>, n: nat)
    requires 1 <= n <= |rs| && |ws| > 0 && rs[0].router.Some? && Conclusive(rs[0], ws[0].receipt)
    ensures RuledAll(rs, ds, ws, n) == RuledAll(rs[1..], Ruled(ds, EndRuling(rs[0], ws[0].receipt)), ws[1..], n - 1)
  {
    hide Conclusive, EndRuling, Ruled;
    if n == 1 {
      assert RuledAll(rs, ds, ws, 0) == ds;
    } else {
      RuledFromSecond(rs, ds, ws, n - 1);
    }
  }

  lemma RecoverableFromSecond(rs: seq<Reservation>, ds: seq<Decision>, ws: seq<Settlement>)
    requires |rs| > 0
    ensures Recoverable(rs, ds, ws) <==>
            CanRule(rs, ds, ws, 0) && Recoverable(rs[1..], Ruled(ds, EndRuling(rs[0], ws[0].receipt)), ws[1..])
  {
    hide Conclusive, EndRuling, Ruled, RoomFor, RuledAll;
    if CanRule(rs, ds, ws, 0) {
      var ruled := Ruled(ds, EndRuling(rs[0], ws[0].receipt));
      forall n | 0 <= n < |rs| - 1 ensures CanRule(rs, ds, ws, n + 1) <==> CanRule(rs[1..], ruled, ws[1..], n) {
        RuledFromSecond(rs, ds, ws, n + 1);
        assert rs[n + 1] == rs[1..][n];
        assert n + 1 < |ws| ==> ws[n + 1] == ws[1..][n];
      }
      if Recoverable(rs[1..], ruled, ws[1..]) {
        forall n | 0 <= n < |rs| ensures CanRule(rs, ds, ws, n) {
          assert n > 0 ==> CanRule(rs[1..], ruled, ws[1..], n - 1);
        }
      }
    }
  }

  lemma SettledUndelivered(j: Journal, i: nat, receipt: Call<RawReceipt>)
    requires i < |j.reservations| && j.reservations[i].router.Some? && Conclusive(j.reservations[i], receipt)
    ensures var d := EndRuling(j.reservations[i], receipt);
            var settled := Settled(j, i, d.evidence, d.verdict, None);
            && (settled.Some? <==> RoomFor(j.decisions, d.requestId))
            && (settled.Some? ==> settled.value == j.(reservations := Dropped(j.reservations, i), decisions := Ruled(j.decisions, d)))
  {
    hide Classify, Recorded, RoomFor, Ruled, FindDecision, Conclusive;
    var d := EndRuling(j.reservations[i], receipt);
    RecordedExact(j, i, d.evidence, d.verdict, None);
  }

  function RecoveredView(v: View, ws: seq<Settlement>): View {
    if v.state.reservations == [] then v
    else
      var ds := RuledAll(v.state.reservations, v.state.decisions, ws, |v.state.reservations|);
      var later := v.state.(reservations := [], decisions := ds);
      v.(state := later, disk := Some(later), durable := ds)
  }

  /** One round of the recovery loop. */
  lemma RecoverRound(v: View, ws: seq<Settlement>)
    requires v.lifecycle == Serving && |v.state.reservations| > 0 && v.state.reservations[0].router.Some?
    ensures var r := v.state.reservations[0];
            var can := |ws| > 0 && Conclusive(r, ws[0].receipt) && RoomFor(v.state.decisions, r.requestId) && ws[0].save == Written;
            && (!can ==> Recover(v, ws).reply.Denied?)
            && (can ==>
                  var ruled := Ruled(v.state.decisions, EndRuling(r, ws[0].receipt));
                  var later := v.state.(reservations := v.state.reservations[1..], decisions := ruled);
                  Recover(v, ws) == Recover(v.(state := later, disk := Some(later), durable := ruled), ws[1..]))
  {
    hide Conclusive, EndRuling, Ruled, RoomFor, EvidenceFor, RulingFor, Settled;
    var r := v.state.reservations[0];
    var receipt := if |ws| > 0 then ws[0].receipt else TurnedAway;
    EvidenceExact(r, receipt);
    if Conclusive(r, receipt) {
      SettledUndelivered(v.state, 0, receipt);
      assert Dropped(v.state.reservations, 0) == v.state.reservations[1..];
      var settled := Settled(v.state, 0, EndRuling(r, receipt).evidence, EndRuling(r, receipt).verdict, None);
      assert EvidenceFor(r, receipt).value == EndRuling(r, receipt).evidence;
      if settled.Some? {
        var ruled := Ruled(v.state.decisions, EndRuling(r, receipt));
        var later := v.state.(reservations := v.state.reservations[1..], decisions := ruled);
        assert settled.value == later;
        var saved := Persist(v.(state := settled.value), false, if |ws| > 0 then ws[0].save else NotWritten);
        if |ws| > 0 && ws[0].save == Written {
          assert saved == Turn(v.(state := later, disk := Some(later), durable := ruled), Done(()));
          assert Recover(v, ws) == Recover(saved.view, ws[1..]);
        } else {
          assert saved.reply.Denied?;
        }
      }
    }
  }

  lemma {:induction false} RecoverExact(v: View, ws: seq<Settlement>)
    requires v.lifecycle == Serving
    ensures var t := Recover(v, ws);
            && (t.reply.Done? <==> Recoverable(v.state.reservations, v.state.decisions, ws))
            && (t.reply.Done? ==> t.view == RecoveredView(v, ws))
    decreases |v.state.reservations|
  {
    hide Conclusive, EndRuling, Ruled, RoomFor, RuledAll, Recoverable, EvidenceFor, RulingFor, Settled, CanRule;
    var rs, ds := v.state.reservations, v.state.decisions;
    if |rs| == 0 {
      NothingToRecover(ds, ws);
    } else if rs[0].router.Some? {
      RecoverableFromSecond(rs, ds, ws);
      FirstRules(rs, ds, ws);
      RecoverRound(v, ws);
      if CanRule(rs, ds, ws, 0) {
        var ruled := Ruled(ds, EndRuling(rs[0], ws[0].receipt));
        var later := v.state.(reservations := rs[1..], decisions := ruled);
        RecoverExact(v.(state := later, disk := Some(later), durable := ruled), ws[1..]);
        RuledFromSecond(rs, ds, ws, |rs|);
        NothingLeft(rs[1..], ruled, ws[1..]);
      }
    } else {
      RecoverableFromSecond(rs, ds, ws);
      FirstRules(rs, ds, ws);
    }
  }

  lemma NothingToRecover(ds: seq<Decision>, ws: seq<Settlement>)
    ensures Recoverable([], ds, ws)
  {
  }

  lemma NothingLeft(rs: seq<Reservation>, ds: seq<Decision>, ws: seq<Settlement>)
    ensures rs == [] ==> RuledAll(rs, ds, ws, |rs|) == ds
  {
  }

  lemma FirstRules(rs: seq<Reservation>, ds: seq<Decision>, ws: seq<Settlement>)
    requires |rs| > 0
    ensures CanRule(rs, ds, ws, 0) <==>
            |ws| > 0 && rs[0].router.Some? && Conclusive(rs[0], ws[0].receipt) && ws[0].save == Written && RoomFor(ds, rs[0].requestId)
  {
  }

  predicate Unused(j: Journal) {
    j.policy == None && j.reservations == [] && j.counts == map[]
  }

  /** `activate` goes through: closed and in service, every old request ruled on, a valid policy that the schema allows, a
      quiescent authority, and the write. */
  predicate MayActivate(v: View, w: ActivateWorld) {
    && LetIn(v, w.entry) && v.state.phase == Closed
    && (v.state.schema == 2 ==> Recoverable(v.state.reservations, v.state.decisions, w.settlements))
    && w.policy.Answered? && ValidPolicy(w.policy.value) && w.quiescent == Answered(true) && w.save == Written
    && (if w.policy.value.RouterPolicy? then w.receiptsReady && (v.state.schema == 1 ==> Unused(v.state)) else v.state.schema != 2)
  }

  function ActivatedState(v: View, w: ActivateWorld): Journal
    requires w.policy.Answered?
  {
    var p := w.policy.value;
    v.state.(
      schema := (if p.RouterPolicy? then 2 else 1), phase := Active, policy := Some(p), fingerprint := Some(p), reservations := [],
      decisions := (if v.state.schema == 2 then RecoveredView(v, w.settlements).state.decisions else v.state.decisions))
  }

  lemma ActivateBodyExact(v: View, w: ActivateWorld)
    requires LetIn(v, w.entry)
    ensures var t := ActivateBody(v, w);
            && (t.reply.Done? <==> MayActivate(v, w))
            && (t.reply.Done? ==> t == Turn(Stored(v, ActivatedState(v, w)), Done(w.policy.value)))
  {
    hide Recover, RuledAll, Recoverable, ValidPolicy;
    if v.state.schema == 2 {
      RecoverExact(v, w.settlements);
    }
  }

  /** `activate`, in full. */
  lemma ActivateExact(v: View, w: ActivateWorld)
    ensures var t := Activate(v, w);
            && (t.reply.Done? <==> MayActivate(v, w))
            && (t.reply.Done? ==> t == Turn(Stored(v, ActivatedState(v, w)), Done(w.policy.value)))
  {
    hide ActivateBody, ActivatedState, Rescue, Recoverable, ValidPolicy;
    if LetIn(v, w.entry) {
      ActivateBodyExact(v, w);
      RescueKeepsReason(ActivateBody(v, w), w.rescue);
    }
  }

  // ---- replacement ----

  predicate NoneRunning(rs: seq<Reservation>) {
    forall i | 0 <= i < |rs| :: rs[i].outcome.Some?
  }

  /** The proposal is the next epoch of the same route under another revision, and the gate can start to drain. */
  predicate MayDrain(v: View, next: Policy, w: ReplaceWorld) {
    && LetIn(v, w.entry) && (v.state.phase == Active || v.state.phase == Draining)
    && v.state.policy.Some? && v.state.policy.value.FixturePolicy? && ValidPolicy(next)
    && var p := v.state.policy.value;
    && next.epoch == p.epoch + 1 && next.revision != p.revision && next.routerId == p.routerId && next.routeId == p.routeId
    && w.saveDraining == Written
  }

  predicate MayReplace(v: View, next: Policy, w: ReplaceWorld) {
    && MayDrain(v, next, w) && NoneRunning(v.state.reservations) && w.quiescent == Answered(true)
    && w.saveMutating == Written && w.answer == Answered(next) && w.saveActive == Written
  }

  predicate MustWait(v: View, next: Policy, w: ReplaceWorld) {
    MayDrain(v, next, w) && (!NoneRunning(v.state.reservations) || w.quiescent == Answered(false))
  }

  lemma ReplaceBodyExact(v: View, next: Policy, w: ReplaceWorld)
    requires LetIn(v, w.entry)
    ensures var t := ReplaceBody(v, next, w);
            && (t.reply == Done(true) <==> MayReplace(v, next, w)) && (t.reply == Done(false) <==> MustWait(v, next, w))
            && (t.reply == Done(true) ==>
                  t.view == Stored(v, v.state.(policy := Some(next), fingerprint := Some(next), phase := Active, reservations := [])))
            && (t.reply == Done(false) ==> t.view == Stored(v, v.state.(phase := Draining)))
  {
    hide ValidPolicy;
  }

  /** `drainAndReplace`, in full: replaced, told to wait, or refused. */
  lemma DrainAndReplaceExact(v: View, next: Policy, w: ReplaceWorld)
    ensures var t := DrainAndReplace(v, next, w);
            && (t.reply == Done(true) <==> MayReplace(v, next, w)) && (t.reply == Done(false) <==> MustWait(v, next, w))
            && (t.reply == Done(true) ==>
                  t.view == Stored(v, v.state.(policy := Some(next), fingerprint := Some(next), phase := Active, reservations := [])))
            && (t.reply == Done(false) ==> t.view == Stored(v, v.state.(phase := Draining)))
  {
    hide ReplaceBody, Rescue, ValidPolicy;
    if LetIn(v, w.entry) {
      ReplaceBodyExact(v, next, w);
      RescueKeepsReason(ReplaceBody(v, next, w), w.rescue);
    }
  }

  // ---- opening and closing ----

  lemma CloseExact(v: View, w: CloseWorld)
    ensures var t := EndClose(v, w);
            && (t.reply.Done? <==> v.lifecycle != Shut && w.save == Written && !v.uncertainMutation && w.ownerKept)
            && t.view.state == v.state.(phase := Closed) && t.view.lifecycle == Shut
            && t.view.disk == (if v.lifecycle != Shut && w.save != NotWritten then Some(t.view.state) else v.disk)
  {
  }

  lemma OpenExact(disk: Option<Journal>, generation: string, save: Save)
    ensures var t := Opened(disk, generation, save);
            && (t.reply.Done? <==> (disk.Some? ==> ValidJournal(disk.value)) && save == Written)
            && (disk.Some? ==> t.view.state == disk.value.(generation := generation, phase := Closed))
            && (disk.None? ==> t.view.state == Journal(1, generation, Closed, None, None, [], map[], []))
            && (t.reply.Done? ==> t.view.disk == Some(t.view.state) && t.view.durable == t.view.state.decisions && LetIn(t.view, Enter))
  {
    hide ValidJournal;
  }
}
