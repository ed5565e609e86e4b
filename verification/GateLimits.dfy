/** No attempt ever holds more reservations than the policy in force allows: every call of the gate keeps that, in memory and in
    the file (`experiments/inference-boundary/policy.ts:241-341`). */
module GateLimits {
  import opened Text
  import opened Receipts
  import opened Journals
  import opened JournalSteps
  import opened GateModel
  import opened GateExact

  ghost predicate Limited(j: Journal) {
    j.policy.Some? ==> forall a :: ReservedFor(j.reservations, a) <= j.policy.value.limits.concurrency
  }

  ghost predicate LimitedView(v: View) {
    Limited(v.state) && (v.disk.Some? ==> Limited(v.disk.value))
  }

  // ---- lists of reservations ----

  ghost predicate NoMore(rs: seq<Reservation>, later: seq<Reservation>) {
    forall a :: ReservedFor(later, a) <= ReservedFor(rs, a)
  }

  lemma {:induction false} ReservedInParts(rs: seq<Reservation>, more: seq<Reservation>, a: string)
    ensures ReservedFor(rs + more, a) == ReservedFor(rs, a) + ReservedFor(more, a)
  {
    if |more| == 0 {
      assert rs + more == rs;
    } else {
      assert (rs + more)[..|rs + more| - 1] == rs + more[..|more| - 1];
      ReservedInParts(rs, more[..|more| - 1], a);
    }
  }

  lemma ReservedOne(r: Reservation, a: string)
    ensures ReservedFor([r], a) == if r.attemptId == a then 1 else 0
  {
    assert [r][..0] == [];
  }

  lemma WithoutOne(rs: seq<Reservation>, i: nat)
    requires i < |rs|
    ensures NoMore(rs, rs[..i] + rs[i + 1..])
  {
    forall a ensures ReservedFor(rs[..i] + rs[i + 1..], a) <= ReservedFor(rs, a) {
      assert rs == rs[..i] + ([rs[i]] + rs[i + 1..]);
      ReservedInParts(rs[..i], [rs[i]] + rs[i + 1..], a);
      ReservedInParts([rs[i]], rs[i + 1..], a);
      ReservedInParts(rs[..i], rs[i + 1..], a);
    }
  }

  lemma SameAttempt(rs: seq<Reservation>, i: nat, r: Reservation)
    requires i < |rs| && r.attemptId == rs[i].attemptId
    ensures NoMore(rs, rs[i := r])
  {
    forall a ensures ReservedFor(rs[i := r], a) <= ReservedFor(rs, a) {
      assert rs == rs[..i] + ([rs[i]] + rs[i + 1..]) && rs[i := r] == rs[..i] + ([r] + rs[i + 1..]);
      ReservedInParts(rs[..i], [rs[i]] + rs[i + 1..], a);
      ReservedInParts([rs[i]], rs[i + 1..], a);
      ReservedInParts(rs[..i], [r] + rs[i + 1..], a);
      ReservedInParts([r], rs[i + 1..], a);
      ReservedOne(r, a);
      ReservedOne(rs[i], a);
    }
  }

  lemma {:induction false} RunningNoMore(rs: seq<Reservation>)
    ensures NoMore(rs, StillRunning(rs))
  {
    if |rs| > 0 {
      var n := |rs| - 1;
      RunningNoMore(rs[..n]);
      forall a ensures ReservedFor(StillRunning(rs), a) <= ReservedFor(rs, a) {
        ReservedInParts(StillRunning(rs[..n]), if rs[n].outcome == None then [rs[n]] else [], a);
        ReservedOne(rs[n], a);
      }
    }
  }

  lemma RemainingNoMore(rs: seq<Reservation>, p: Policy, retired: Call<bool>)
    ensures NoMore(rs, Remaining(rs, p, retired))
  {
    RunningNoMore(rs);
  }

  /** A journal that follows a limited one under the same policy with no more reservations is limited. */
  lemma StaysLimited(j: Journal, later: Journal)
    requires Limited(j) && later.policy == j.policy && NoMore(j.reservations, later.reservations)
    ensures Limited(later)
  {
    forall a ensures later.policy.Some? ==> ReservedFor(later.reservations, a) <= later.policy.value.limits.concurrency {
      assert ReservedFor(later.reservations, a) <= ReservedFor(j.reservations, a);
    }
  }

  lemma NoneReserved(j: Journal)
    requires j.reservations == [] && (j.policy.Some? ==> ValidPolicy(j.policy.value))
    ensures Limited(j)
  {
  }

  lemma Cleared(j: Journal)
    requires Limited(j)
    ensures Limited(j.(reservations := []))
  {
    assert NoMore(j.reservations, []);
    StaysLimited(j, j.(reservations := []));
  }

  // ---- the calls ----

  lemma PersistLimited(v: View, closing: bool, save: Save)
    requires LimitedView(v)
    ensures LimitedView(Persist(v, closing, save).view)
  {
  }

  lemma RescueLimited<T>(t: Turn<T>, save: Option<Save>)
    requires LimitedView(t.view)
    ensures LimitedView(Rescue(t, save).view)
  {
  }

  lemma BeginLimited(v: View, entry: Entry)
    requires LimitedView(v)
    ensures LimitedView(Begin(v, entry).view)
  {
  }

  lemma CallFailedLimited<T>(v: View, c: Call<T>, mutating: bool)
    requires LimitedView(v) && !c.Answered?
    ensures LimitedView(CallFailed(v, c, mutating))
  {
  }

  lemma StateLimited(v: View, later: Journal)
    requires LimitedView(v) && Limited(later)
    ensures LimitedView(v.(state := later))
  {
  }

  lemma AddedLimited(j: Journal, p: Policy, r: Reservation)
    requires Limited(j) && j.policy == Some(p) && ReservedFor(j.reservations, r.attemptId) < p.limits.concurrency
    ensures Limited(WithReservation(j, r))
  {
    forall a ensures ReservedFor(j.reservations + [r], a) <= p.limits.concurrency {
      ReservedInParts(j.reservations, [r], a);
      ReservedOne(r, a);
    }
  }

  lemma RetireLimited(v: View, p: Policy, retired: Call<bool>)
    requires LimitedView(v)
    ensures LimitedView(Retire(v, p, retired).view)
  {
    hide Limited, Retire, Remaining, SomeEnded;
    RetireExact(v, p, retired);
    RemainingNoMore(v.state.reservations, p, retired);
    StaysLimited(v.state, Retire(v, p, retired).view.state);
    RetireDisk(v, p, retired);
  }

  lemma RetireDisk(v: View, p: Policy, retired: Call<bool>)
    ensures Retire(v, p, retired).view.disk == v.disk && Retire(v, p, retired).view.state.policy == v.state.policy
  {
  }

  lemma AdmitBodyLimited(v: View, b: Binding, requestDigest: Option<string>, w: AdmitWorld)
    requires LimitedView(v)
    ensures LimitedView(AdmitBody(v, b, requestDigest, w).view)
  {
    hide LimitedView, Limited, Retire, RouterRefusal, Persist, RoomLeft, SpeaksOf, WithReservation, Remaining;
    if v.state.policy.Some? {
      var p := v.state.policy.value;
      RetireLimited(v, p, w.retired);
      RetireDisk(v, p, w.retired);
      var u := Retire(v, p, w.retired).view;
      if RouterRefusal(v.state, p, b, requestDigest, w.authorityCurrent).None? && CapacityRefusal(u.state, p, b, w).None? {
        ViewParts(u);
        AddedLimited(u.state, p, NewReservation(p, b, requestDigest, w.requestId));
        var later := WithReservation(u.state, NewReservation(p, b, requestDigest, w.requestId));
        StateLimited(u, later);
        PersistLimited(u.(state := later), false, w.save);
      }
    }
  }

  lemma ViewParts(v: View)
    requires LimitedView(v)
    ensures Limited(v.state)
  {
  }

  lemma AdmitLimited(v: View, b: Binding, requestDigest: Option<string>, w: AdmitWorld)
    requires LimitedView(v)
    ensures LimitedView(Admit(v, b, requestDigest, w).view)
  {
    hide LimitedView, AdmitBody, Rescue, Begin, ValidBinding;
    BeginLimited(v, w.entry);
    AdmitBodyLimited(Begin(v, w.entry).view, b, requestDigest, w);
    RescueLimited(AdmitBody(Begin(v, w.entry).view, b, requestDigest, w), w.rescue);
  }

  lemma MarkSendLimited(v: View, requestId: string, w: SendWorld)
    requires LimitedView(v)
    ensures LimitedView(MarkSend(v, requestId, w).view)
  {
    hide LimitedView, Limited, MarkSendBody, Rescue, Begin;
    BeginLimited(v, w.entry);
    MarkSendBodyLimited(Begin(v, w.entry).view, requestId, w);
    RescueLimited(MarkSendBody(Begin(v, w.entry).view, requestId, w), w.rescue);
  }

  lemma MarkSendBodyLimited(v: View, requestId: string, w: SendWorld)
    requires LimitedView(v)
    ensures LimitedView(MarkSendBody(v, requestId, w).view)
  {
    hide LimitedView, Limited, Persist;
    var at := FindReservation(v.state.reservations, requestId);
    if at.Some? && v.state.reservations[at.value].router.Some? {
      var later := WithSendPossible(v.state, at.value);
      SameAttempt(v.state.reservations, at.value, later.reservations[at.value]);
      ViewParts(v);
      StaysLimited(v.state, later);
      StateLimited(v, later);
      PersistLimited(v.(state := later), false, w.save);
    }
  }

  lemma FinalizeLimited(v: View, requestId: string, completionDigest: string, w: FinalizeWorld)
    requires LimitedView(v)
    ensures LimitedView(Finalize(v, requestId, completionDigest, w).view)
  {
    hide LimitedView, FinalizeBody, Rescue, Begin;
    BeginLimited(v, w.entry);
    FinalizeBodyLimited(Begin(v, w.entry).view, requestId, completionDigest, w);
    RescueLimited(FinalizeBody(Begin(v, w.entry).view, requestId, completionDigest, w), w.rescue);
  }

  lemma FinalizeBodyLimited(v: View, requestId: string, completionDigest: string, w: FinalizeWorld)
    requires LimitedView(v)
    ensures LimitedView(FinalizeBody(v, requestId, completionDigest, w).view)
  {
    hide FindReservation, Classify, Sha256, FindDecision;
  }

  lemma SettledLimited(j: Journal, i: nat, evidence: Evidence, verdict: Verdict, delivery: Option<Outcome>)
    requires Limited(j) && i < |j.reservations| && j.reservations[i].router.Some?
    ensures var settled := Settled(j, i, evidence, verdict, delivery); settled.Some? ==> Limited(settled.value)
  {
    hide Limited, FindDecision;
    WithoutOne(j.reservations, i);
    var settled := Settled(j, i, evidence, verdict, delivery);
    if settled.Some? {
      StaysLimited(j, settled.value);
    }
  }

  lemma EndedLimited(j: Journal, i: nat, outcome: Outcome)
    requires Limited(j) && i < |j.reservations|
    ensures Limited(WithOutcome(j, i, outcome)) && Limited(Without(WithOutcome(j, i, outcome), i))
  {
    hide Limited;
    var ended := WithOutcome(j, i, outcome);
    SameAttempt(j.reservations, i, ended.reservations[i]);
    StaysLimited(j, ended);
    WithoutOne(ended.reservations, i);
    StaysLimited(ended, Without(ended, i));
  }

  lemma FinishBodyLimited(v: View, requestId: string, outcome: Outcome, neverForwarded: bool, w: FinishWorld)
    requires LimitedView(v)
    ensures LimitedView(FinishBody(v, requestId, outcome, neverForwarded, w).view)
  {
    hide LimitedView, Limited, FindReservation, FinishRouted, FinishPlain, WithOutcome;
    var at := FindReservation(v.state.reservations, requestId);
    if at.Some? {
      ViewParts(v);
      EndedLimited(v.state, at.value, outcome);
      var ended := WithOutcome(v.state, at.value, outcome);
      WithOutcomeRouter(v.state, at.value, outcome);
      StateLimited(v, ended);
      if ended.reservations[at.value].router.Some? {
        FinishRoutedLimited(v.(state := ended), at.value, outcome, w);
      } else {
        FinishPlainLimited(v.(state := ended), at.value, neverForwarded, w);
      }
    }
  }

  lemma FinishPlainLimited(v: View, i: nat, neverForwarded: bool, w: FinishWorld)
    requires LimitedView(v) && i < |v.state.reservations|
    ensures LimitedView(FinishPlain(v, i, neverForwarded, w).view)
  {
    hide Limited;
    WithoutOne(v.state.reservations, i);
    StaysLimited(v.state, Without(v.state, i));
    PhaseLimited(v.state, Closed);
    PhaseLimited(Without(v.state, i), Closed);
  }

  lemma FinishRoutedLimited(v: View, i: nat, outcome: Outcome, w: FinishWorld)
    requires LimitedView(v) && i < |v.state.reservations| && v.state.reservations[i].router.Some?
    ensures LimitedView(FinishRouted(v, i, outcome, w).view)
  {
    hide LimitedView, Limited, Settled, EvidenceFor, Persist, CallFailed;
    var evidence := EvidenceFor(v.state.reservations[i], w.receipt);
    ViewParts(v);
    PersistLimited(v, false, w.save);
    if !evidence.Answered? {
      CallFailedLimited(v, evidence, false);
    } else {
      var settled := Settled(v.state, i, evidence.value, RulingFor(v.state.reservations[i]), Some(outcome));
      SettledLimited(v.state, i, evidence.value, RulingFor(v.state.reservations[i]), Some(outcome));
      if settled.Some? {
        StateLimited(v, settled.value);
        PersistLimited(v.(state := settled.value), false, w.save);
      }
    }
  }

  lemma WithOutcomeRouter(j: Journal, i: nat, outcome: Outcome)
    requires i < |j.reservations|
    ensures |WithOutcome(j, i, outcome).reservations| == |j.reservations|
  {
  }

  lemma FinishLimited(v: View, requestId: string, outcome: Outcome, neverForwarded: bool, w: FinishWorld)
    requires LimitedView(v)
    ensures LimitedView(Finish(v, requestId, outcome, neverForwarded, w).view)
  {
    hide LimitedView, FinishBody, Rescue, Begin;
    BeginLimited(v, w.entry);
    FinishBodyLimited(Begin(v, w.entry).view, requestId, outcome, neverForwarded, w);
    RescueLimited(FinishBody(Begin(v, w.entry).view, requestId, outcome, neverForwarded, w), w.rescue);
  }

  lemma {:induction false} RecoverLimited(v: View, settlements: seq<Settlement>)
    requires LimitedView(v)
    ensures LimitedView(Recover(v, settlements).view)
    decreases |v.state.reservations|
  {
    hide LimitedView, Limited, Settled, EvidenceFor, Persist, CallFailed;
    ViewParts(v);
    if |v.state.reservations| > 0 && v.state.reservations[0].router.Some? {
      var r := v.state.reservations[0];
      var world := if |settlements| > 0 then settlements[0] else Settlement(TurnedAway, NotWritten);
      var evidence := EvidenceFor(r, world.receipt);
      if !evidence.Answered? {
        CallFailedLimited(v, evidence, false);
      } else {
        SettledLimited(v.state, 0, evidence.value, RulingFor(r), None);
        var settled := Settled(v.state, 0, evidence.value, RulingFor(r), None);
        if settled.Some? {
          StateLimited(v, settled.value);
          PersistLimited(v.(state := settled.value), false, world.save);
          var saved := Persist(v.(state := settled.value), false, world.save);
          SavedReservations(v.(state := settled.value), false, world.save);
          RecoverLimited(saved.view, if |settlements| > 0 then settlements[1..] else []);
        }
      }
    }
  }

  lemma SavedReservations(v: View, closing: bool, save: Save)
    ensures Persist(v, closing, save).view.state.reservations == v.state.reservations
  {
  }

  lemma AdoptLimited(v: View, p: Policy, w: ActivateWorld)
    requires LimitedView(v) && ValidPolicy(p)
    ensures LimitedView(Adopt(v, p, w).view)
  {
    hide Limited, ValidPolicy;
    Cleared(v.state);
    var cleared := v.state.(reservations := []);
    NoneReserved(cleared.(schema := (if p.RouterPolicy? then 2 else 1), policy := Some(p), fingerprint := Some(p), phase := Active));
    NoneReserved(cleared.(schema := (if p.RouterPolicy? then 2 else 1), policy := Some(p), fingerprint := Some(p), phase := Closed));
  }

  lemma ActivateBodyLimited(v: View, w: ActivateWorld)
    requires LimitedView(v)
    ensures LimitedView(ActivateBody(v, w).view)
  {
    hide LimitedView, Limited, Recover, Adopt, ValidPolicy, CallFailed;
    RecoverLimited(v, w.settlements);
    var u := if v.state.schema == 2 then Recover(v, w.settlements).view else v;
    if !w.policy.Answered? {
      CallFailedLimited(u, w.policy, false);
    } else if ValidPolicy(w.policy.value) {
      AdoptLimited(u, w.policy.value, w);
    }
    if !w.quiescent.Answered? {
      CallFailedLimited(u, w.quiescent, false);
    }
  }

  lemma ActivateLimited(v: View, w: ActivateWorld)
    requires LimitedView(v)
    ensures LimitedView(Activate(v, w).view)
  {
    hide LimitedView, ActivateBody, Rescue, Begin;
    BeginLimited(v, w.entry);
    ActivateBodyLimited(Begin(v, w.entry).view, w);
    RescueLimited(ActivateBody(Begin(v, w.entry).view, w), w.rescue);
  }

  lemma ReplacePolicyLimited(v: View, next: Policy, w: ReplaceWorld)
    requires LimitedView(v) && ValidPolicy(next) && v.state.reservations == []
    ensures LimitedView(ReplacePolicy(v, next, w).view)
  {
    hide Limited, ValidPolicy;
    var replaced := v.state.(policy := Some(next), fingerprint := Some(next), phase := Active);
    NoneReserved(replaced);
    NoneReserved(replaced.(phase := Closed));
    PhaseLimited(v.state, Closed);
  }

  lemma PhaseLimited(j: Journal, phase: Phase)
    requires Limited(j)
    ensures Limited(j.(phase := phase))
  {
  }

  lemma DrainedReplaceLimited(v: View, next: Policy, w: ReplaceWorld)
    requires LimitedView(v) && ValidPolicy(next)
    ensures LimitedView(DrainedReplace(v, next, w).view)
  {
    hide LimitedView, Limited, ValidPolicy, ReplacePolicy, Persist, CallFailed;
    if !w.quiescent.Answered? {
      CallFailedLimited(v, w.quiescent, false);
    } else {
      ViewParts(v);
      Cleared(v.state);
      var mutating := v.state.(reservations := [], phase := Mutating);
      PhaseLimited(v.state.(reservations := []), Mutating);
      StateLimited(v, mutating);
      PersistLimited(v.(state := mutating), false, w.saveMutating);
      SavedReservations(v.(state := mutating), false, w.saveMutating);
      ReplacePolicyLimited(Persist(v.(state := mutating), false, w.saveMutating).view, next, w);
    }
  }

  lemma ReplaceBodyLimited(v: View, next: Policy, w: ReplaceWorld)
    requires LimitedView(v)
    ensures LimitedView(ReplaceBody(v, next, w).view)
  {
    hide LimitedView, Limited, ValidPolicy, Follows, DrainedReplace, Persist;
    ViewParts(v);
    PhaseLimited(v.state, Closed);
    PhaseLimited(v.state, Draining);
    StateLimited(v, v.state.(phase := Closed));
    StateLimited(v, v.state.(phase := Draining));
    PersistLimited(InPhase(v, Closed), false, w.saveDraining);
    PersistLimited(InPhase(v, Draining), false, w.saveDraining);
    if ValidPolicy(next) {
      DrainedReplaceLimited(Persist(InPhase(v, Draining), false, w.saveDraining).view, next, w);
    }
  }

  lemma DrainAndReplaceLimited(v: View, next: Policy, w: ReplaceWorld)
    requires LimitedView(v)
    ensures LimitedView(DrainAndReplace(v, next, w).view)
  {
    hide LimitedView, ReplaceBody, Rescue, Begin;
    BeginLimited(v, w.entry);
    ReplaceBodyLimited(Begin(v, w.entry).view, next, w);
    RescueLimited(ReplaceBody(Begin(v, w.entry).view, next, w), w.rescue);
  }

  lemma CloseLimited(v: View, w: CloseWorld)
    requires LimitedView(v)
    ensures LimitedView(EndClose(v, w).view)
  {
  }

  lemma OpenedLimited(disk: Option<Journal>, generation: string, save: Save)
    requires disk.Some? ==> Limited(disk.value)
    ensures LimitedView(Opened(disk, generation, save).view)
  {
    hide ValidJournal;
  }
}
