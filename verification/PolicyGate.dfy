/** The policy gate as the object it is: methods that update the journal in memory and write it to the file
    (`experiments/inference-boundary/policy.ts`). Each method is tied to the function of `GateModel`, and each public one
    states what it keeps: a good gate stays good and takes nothing back, and what a success promises is on disk. */
module PolicyGates {
  import opened Text
  import opened Receipts
  import opened Journals
  import opened JournalSteps
  import opened GateModel
  import opened GateExact
  import opened GateInvariant
  import opened GateSync

  /** The file `state.json`. */
  class Disk {
    var file: Option<Journal>

    constructor ()
      ensures file == None
    {
      file := None;
    }
  }

  class PolicyGate {
    const disk: Disk
    var state: Journal
    var durableDecisions: seq<Decision>
    var failed: bool
    var lifecycle: Lifecycle
    var uncertainMutation: bool

    ghost function View(): View
      reads this, disk
    {
      GateModel.View.View(state, durableDecisions, failed, lifecycle, uncertainMutation, disk.file)
    }

    /** `open`, after the stored journal was accepted or found missing: a new generation, closed. The first
        write is `Persist`. */
    constructor (disk: Disk, generation: string)
      ensures this.disk == disk
      ensures var state := (if disk.file.None? then INITIAL else disk.file.value).(generation := generation, phase := Closed);
              View() == GateModel.View.View(state, state.decisions, false, Serving, false, disk.file)
    {
      this.disk := disk;
      var previous := if disk.file.None? then INITIAL else disk.file.value;
      state := previous.(generation := generation, phase := Closed);
      durableDecisions := previous.decisions;
      failed := false;
      lifecycle := Serving;
      uncertainMutation := false;
    }

    method Persist(closing: bool, save: Save) returns (r: Reply<()>)
      modifies this, disk
      ensures Turn(View(), r) == GateModel.Persist(old(View()), closing, save)
    {
      if (lifecycle == Shut || (lifecycle == Closing && !closing)) || save == NotWritten {
        failed := true;
        state := state.(phase := Closed);
        return Denied(BoundaryClosed);
      }
      disk.file := Some(state);
      if save == Unconfirmed {
        failed := true;
        state := state.(phase := Closed);
        return Denied(BoundaryClosed);
      }
      durableDecisions := state.decisions;
      return Done(());
    }

    method Enter(entry: Entry) returns (r: Reply<()>)
      modifies this
      ensures Turn(View(), r) == Begin(old(View()), entry)
    {
      if lifecycle != Serving || failed || uncertainMutation {
        return Denied(BoundaryClosed);
      }
      match entry
      case Aborted =>
        return Denied(Cancelled);
      case OwnerLost =>
        failed := true;
        state := state.(phase := Closed);
        return Denied(BoundaryClosed);
      case Enter =>
        return Done(());
    }

    /** The error path of `serial`. */
    method Leave<T>(reply: Reply<T>, rescue: Option<Save>) returns (r: Reply<T>)
      modifies this, disk
      ensures Turn(View(), r) == Rescue(Turn(old(View()), reply), rescue)
    {
      r := reply;
      if reply.Denied? && lifecycle == Serving && !failed && state.phase == Closed && rescue.Some? {
        var saved := Persist(false, rescue.value);
        if saved.Denied? {
          r := Denied(BoundaryClosed);
        }
      }
    }

    /** The error path of `authorityCall`. */
    method CallFailed<T>(c: Call<T>, mutating: bool)
      requires !c.Answered?
      modifies this
      ensures View() == GateModel.CallFailed(old(View()), c, mutating)
    {
      if c.Failed? {
        if mutating && c.unsettled {
          uncertainMutation := true;
        }
        state := state.(phase := Closed);
        if c.ownerLost {
          failed := true;
        }
      }
    }

    method Admit(b: Binding, requestDigest: Option<string>, w: AdmitWorld) returns (r: Reply<Reservation>)
      modifies this, disk
      ensures Turn(View(), r) == GateModel.Admit(old(View()), b, requestDigest, w)
      ensures old(GoodView(View())) && RequestId(w.requestId) && w.requestId !in old(IdsIn(state)) ==>
                && Safe(old(View()), View(), {w.requestId})
                && (r.Done? ==> r.value.requestId == w.requestId && disk.file == Some(state) && r.value in state.reservations)
                && (r.Done? ==> state.counts == old(state.counts)[b.attemptId := CountOf(old(state.counts), b.attemptId) + 1])
      ensures old(Synced(View())) ==> Synced(View())
      ensures r.Done? <==> old(MayAdmit(View(), b, requestDigest, w))
      ensures r.Done? ==> AdmittedTo(old(View()), Turn(View(), r), b, requestDigest, w)
      ensures r.Denied? ==> Turned(old(View()), View(), b, w) && ReasonHolds(old(View()), b, requestDigest, w, r.reason)
    {
      hide GoodView, Safe, Synced, IdsIn, RequestId, AdmitBody, ValidBinding, MayAdmit, AdmittedTo, Turned, ReasonHolds;
      ghost var v := View();
      AdmitExact(v, b, requestDigest, w);
      if GoodView(v) && RequestId(w.requestId) && w.requestId !in IdsIn(v.state) {
        AdmitSafe(v, b, requestDigest, w);
      }
      if Synced(v) {
        AdmitSynced(v, b, requestDigest, w);
      }
      if !ValidBinding(b) {
        return Denied(PolicyDenied);
      }
      var entered := Enter(w.entry);
      if entered.Denied? {
        return Denied(entered.reason);
      }
      r := AdmitAction(b, requestDigest, w);
      r := Leave(r, w.rescue);
    }

    method AdmitAction(b: Binding, requestDigest: Option<string>, w: AdmitWorld) returns (r: Reply<Reservation>)
      modifies this, disk
      ensures Turn(View(), r) == AdmitBody(old(View()), b, requestDigest, w)
    {
      hide RouterRefusal, CapacityRefusal, OnlyActive, GateModel.Persist;
      if failed || state.phase != Active || state.policy.None? {
        return Denied(BoundaryClosed);
      }
      var policy := state.policy.value;
      var refusal := RouterRefusal(state, policy, b, requestDigest, w.authorityCurrent);
      if refusal.Some? {
        return Denied(refusal.value);
      }
      if policy.FixturePolicy? && exists i :: 0 <= i < |state.reservations| && state.reservations[i].outcome.Some? {
        if !w.retired.Answered? {
          CallFailed(w.retired, false);
          return Denied(BoundaryClosed);
        }
        if w.retired.value {
          state := state.(reservations := OnlyActive(state.reservations));
        }
      }
      var full := CapacityRefusal(state, policy, b, w);
      if full.Some? {
        return Denied(full.value);
      }
      var reservation := NewReservation(policy, b, requestDigest, w.requestId);
      var count := if b.attemptId in state.counts then state.counts[b.attemptId] else 0;
      state := state.(reservations := state.reservations + [reservation], counts := state.counts[b.attemptId := count + 1]);
      var saved := Persist(false, w.save);
      if saved.Denied? {
        return Denied(BoundaryClosed);
      }
      return Done(reservation);
    }

    method MarkSend(requestId: string, w: SendWorld) returns (r: Reply<()>)
      modifies this, disk
      ensures Turn(View(), r) == GateModel.MarkSend(old(View()), requestId, w)
      ensures old(GoodView(View())) ==> Safe(old(View()), View(), {})
      ensures old(GoodView(View())) && r.Done? ==> disk.file == Some(state) && MayBeSentIn(state, requestId)
      ensures old(Synced(View())) ==> Synced(View())
      ensures forall i: nat :: HoldsAt(old(state.reservations), requestId, i) ==> (r.Done? <==> MayMark(old(View()), i, w))
      ensures forall i: nat :: HoldsAt(old(state.reservations), requestId, i) && r.Done? ==>
                state == old(state).(reservations := old(state.reservations)[i := WithMark(old(state.reservations)[i])])
    {
      hide GoodView, Safe, Synced, MayBeSentIn, MarkSendBody, HoldsAt, MayMark, WithMark;
      ghost var v := View();
      forall i: nat | HoldsAt(v.state.reservations, requestId, i) {
        MarkSendExact(v, requestId, i, w);
      }
      if GoodView(v) {
        MarkSendSafe(v, requestId, w);
      }
      if Synced(v) {
        MarkSendSynced(v, requestId, w);
      }
      r := Enter(w.entry);
      if r.Denied? {
        return;
      }
      r := MarkSendAction(requestId, w);
      r := Leave(r, w.rescue);
    }

    method MarkSendAction(requestId: string, w: SendWorld) returns (r: Reply<()>)
      modifies this, disk
      ensures Turn(View(), r) == MarkSendBody(old(View()), requestId, w)
    {
      var at := FindReservation(state.reservations, requestId);
      if state.phase != Active || at.None? || state.reservations[at.value].router.None? {
        return Denied(BoundaryClosed);
      }
      var found := state.reservations[at.value];
      if found.router.value.send != Reserved || !w.authorityCurrent {
        return Denied(BoundaryClosed);
      }
      if w.interrupted {
        return Denied(Cancelled);
      }
      var sent := found.(router := Some(found.router.value.(send := SendPossible)));
      state := state.(reservations := state.reservations[at.value := sent]);
      r := Persist(false, w.save);
    }

    method Finalize(requestId: string, completionDigest: string, w: FinalizeWorld) returns (r: Reply<()>)
      modifies this, disk
      ensures Turn(View(), r) == GateModel.Finalize(old(View()), requestId, completionDigest, w)
      ensures old(GoodView(View())) ==> Safe(old(View()), View(), {})
      ensures old(GoodView(View())) && r.Done? ==> disk.file == Some(state) && HasSuccess(state.decisions, requestId)
      ensures old(Synced(View())) ==> Synced(View())
      ensures forall i: nat :: HoldsAt(old(state.reservations), requestId, i) ==> (r.Done? <==> MayFinalize(old(View()), i, completionDigest, w))
      ensures forall i: nat :: HoldsAt(old(state.reservations), requestId, i) && r.Done? ==>
                FinalizedTo(old(View()), View(), i, completionDigest, w)
    {
      hide GoodView, Safe, Synced, HasSuccess, FinalizeBody, HoldsAt, MayFinalize, FinalizedTo;
      ghost var v := View();
      forall i: nat | HoldsAt(v.state.reservations, requestId, i) {
        FinalizeExact(v, requestId, i, completionDigest, w);
      }
      if GoodView(v) {
        FinalizeSafe(v, requestId, completionDigest, w);
      }
      if Synced(v) {
        FinalizeSynced(v, requestId, completionDigest, w);
      }
      r := Enter(w.entry);
      if r.Denied? {
        return;
      }
      r := FinalizeAction(requestId, completionDigest, w);
      r := Leave(r, w.rescue);
    }

    method FinalizeAction(requestId: string, completionDigest: string, w: FinalizeWorld) returns (r: Reply<()>)
      modifies this, disk
      ensures Turn(View(), r) == FinalizeBody(old(View()), requestId, completionDigest, w)
    {
      hide GateModel.Persist, FindReservation, Sha256;
      var at := FindReservation(state.reservations, requestId);
      if (state.phase != Active && state.phase != Draining) || at.None? || state.reservations[at.value].router.None? ||
         state.reservations[at.value].router.value.send != SendPossible || !Sha256(completionDigest) {
        return Denied(BoundaryClosed);
      }
      if !w.receipt.Answered? {
        CallFailed(w.receipt, false);
        return Denied(BoundaryClosed);
      }
      var evidence := Classify(w.receipt.value, requestId, state.reservations[at.value].router.value.policy);
      if evidence.disposition != OriginalSuccess {
        return Denied(ReceiptUnverified);
      }
      if !w.currentBefore {
        return Denied(Cancelled);
      }
      if !w.authorityBefore {
        return Denied(BoundaryClosed);
      }
      var recorded := RecordDecision(at.value, evidence, ValidatedSuccess, Some(completionDigest));
      if !recorded {
        return Denied(AttemptLimit);
      }
      r := Persist(false, w.save);
      if r.Denied? {
        return;
      }
      if w.interrupted || !w.currentAfter {
        return Denied(Cancelled);
      }
      if !w.authorityAfter {
        return Denied(BoundaryClosed);
      }
    }

    method RecordDecision(i: nat, evidence: Evidence, verdict: Verdict, completionDigest: Option<string>) returns (ok: bool)
      requires i < |state.reservations| && state.reservations[i].router.Some?
      modifies this`state
      ensures ok <==> Recorded(old(state), i, evidence, verdict, completionDigest).Some?
      ensures state == if ok then Recorded(old(state), i, evidence, verdict, completionDigest).value else old(state)
    {
      var r := state.reservations[i];
      var found := FindDecision(state.decisions, r.requestId);
      if found.Some? {
        return true;
      }
      if |state.decisions| >= MAX_DECISIONS {
        return false;
      }
      var d := Decision(r.requestId, r.taskId, r.attemptId, r.router.value, verdict, evidence, completionDigest, None);
      state := state.(decisions := state.decisions + [d]);
      return true;
    }

    method AssertRelease(requestId: string, authorityCurrent: bool) returns (r: Reply<()>)
      ensures r == GateModel.AssertRelease(View(), requestId, authorityCurrent)
      ensures state.schema == 2 && Synced(View()) ==>
                (r.Done? <==>
                  && Usable(View()) && (state.phase == Active || state.phase == Draining) && authorityCurrent
                  && RoutedNow(state.reservations, requestId)
                  && disk.file.Some? && HasSuccess(disk.file.value.decisions, requestId))
    {
      if lifecycle != Serving || failed || uncertainMutation {
        return Denied(BoundaryClosed);
      }
      if state.schema == 2 {
        var at := FindReservation(state.reservations, requestId);
        var succeeded := false;
        for k := 0 to |state.decisions|
          invariant succeeded <==> exists m :: && 0 <= m < k && state.decisions[m].requestId == requestId
                                               && state.decisions[m].verdict == ValidatedSuccess
        {
          if state.decisions[k].requestId == requestId && state.decisions[k].verdict == ValidatedSuccess {
            succeeded := true;
          }
        }
        if (state.phase != Active && state.phase != Draining) || at.None? || state.reservations[at.value].router.None? || !succeeded {
          return Denied(ReceiptUnverified);
        }
        if !authorityCurrent {
          return Denied(BoundaryClosed);
        }
      }
      return Done(());
    }

    method Finish(requestId: string, outcome: Outcome, neverForwarded: bool, w: FinishWorld) returns (r: Reply<bool>)
      modifies this, disk
      ensures Turn(View(), r) == GateModel.Finish(old(View()), requestId, outcome, neverForwarded, w)
      ensures old(GoodView(View())) ==> Safe(old(View()), View(), {})
      ensures old(Synced(View())) ==> Synced(View())
      ensures forall i: nat :: HoldsAt(old(state.reservations), requestId, i) && old(LetIn(View(), w.entry)) ==>
                if old(state.reservations)[i].router.Some? then RoutedFinish(old(View()), Turn(View(), r), i, outcome, w)
                else PlainFinish(old(View()), Turn(View(), r), i, outcome, neverForwarded, w)
    {
      hide GoodView, Safe, Synced, FinishBody, HoldsAt, LetIn, RoutedFinish, PlainFinish;
      ghost var v := View();
      forall i: nat | HoldsAt(v.state.reservations, requestId, i) && LetIn(v, w.entry) {
        FinishExact(v, requestId, i, outcome, neverForwarded, w);
      }
      if GoodView(v) {
        FinishSafe(v, requestId, outcome, neverForwarded, w);
      }
      if Synced(v) {
        FinishSynced(v, requestId, outcome, neverForwarded, w);
      }
      var entered := Enter(w.entry);
      if entered.Denied? {
        return Denied(entered.reason);
      }
      r := FinishAction(requestId, outcome, neverForwarded, w);
      r := Leave(r, w.rescue);
    }

    method FinishAction(requestId: string, outcome: Outcome, neverForwarded: bool, w: FinishWorld) returns (r: Reply<bool>)
      modifies this, disk
      ensures Turn(View(), r) == FinishBody(old(View()), requestId, outcome, neverForwarded, w)
    {
      var at := FindReservation(state.reservations, requestId);
      if at.None? {
        return Denied(BoundaryClosed);
      }
      var record := state.reservations[at.value].(outcome := Some(outcome));
      state := state.(reservations := state.reservations[at.value := record]);
      var released: bool;
      if record.router.Some? {
        var evidence := EvidenceFor(record, w.receipt);
        if !evidence.Answered? {
          CallFailed(evidence, false);
          return Denied(BoundaryClosed);
        }
        released := evidence.value.disposition != PendingOrUnknown;
        if released {
          var recorded := Settle(at.value, evidence.value, Some(outcome));
          if !recorded {
            return Denied(AttemptLimit);
          }
        }
      } else {
        released := neverForwarded;
        if !released {
          if !w.quiescent.Answered? {
            CallFailed(w.quiescent, false);
            return Denied(BoundaryClosed);
          }
          released := w.quiescent.value;
        }
        if released {
          state := state.(reservations := state.reservations[..at.value] + state.reservations[at.value + 1..]);
        }
      }
      var saved := Persist(false, w.save);
      if saved.Denied? {
        return Denied(BoundaryClosed);
      }
      return Done(released);
    }

    /** Record the ruling, note the delivery, drop the reservation. */
    method Settle(i: nat, evidence: Evidence, delivery: Option<Outcome>) returns (ok: bool)
      requires i < |state.reservations| && state.reservations[i].router.Some?
      modifies this`state
      ensures var settled := Settled(old(state), i, evidence, RulingFor(old(state).reservations[i]), delivery);
              (ok <==> settled.Some?) && state == if ok then settled.value else old(state)
    {
      var r := state.reservations[i];
      var verdict := if r.router.value.send == Reserved then NeverSent else QuiescentVerdict;
      ok := RecordDecision(i, evidence, verdict, None);
      if !ok {
        return;
      }
      var at := FindDecision(state.decisions, r.requestId);
      if delivery.Some? && at.Some? {
        state := state.(decisions := state.decisions[at.value := state.decisions[at.value].(delivery := delivery)]);
      }
      state := state.(reservations := state.reservations[..i] + state.reservations[i + 1..]);
    }

    method Activate(w: ActivateWorld) returns (r: Reply<Policy>)
      modifies this, disk
      ensures Turn(View(), r) == GateModel.Activate(old(View()), w)
      ensures old(GoodView(View())) ==> Safe(old(View()), View(), {})
      ensures old(Synced(View())) ==> Synced(View())
      ensures r.Done? <==> old(MayActivate(View(), w))
      ensures r.Done? ==> r.value == w.policy.value && View() == Stored(old(View()), ActivatedState(old(View()), w))
    {
      hide GoodView, Safe, Synced, ActivateBody, MayActivate, ActivatedState;
      ghost var v := View();
      ActivateExact(v, w);
      if GoodView(v) {
        ActivateSafe(v, w);
      }
      if Synced(v) {
        ActivateSynced(v, w);
      }
      var entered := Enter(w.entry);
      if entered.Denied? {
        return Denied(entered.reason);
      }
      r := ActivateAction(w);
      r := Leave(r, w.rescue);
    }

    /** The recovery loop of `activate`. */
    method Recover(settlements: seq<Settlement>) returns (r: Reply<()>)
      modifies this, disk
      ensures Turn(View(), r) == GateModel.Recover(old(View()), settlements)
    {
      var left := settlements;
      while |state.reservations| > 0
        invariant GateModel.Recover(View(), left) == GateModel.Recover(old(View()), settlements)
        decreases |state.reservations|
      {
        var record := state.reservations[0];
        var world := if |left| > 0 then left[0] else Settlement(TurnedAway, NotWritten);
        if record.router.None? {
          return Denied(BoundaryClosed);
        }
        var evidence := EvidenceFor(record, world.receipt);
        if !evidence.Answered? {
          CallFailed(evidence, false);
          return Denied(BoundaryClosed);
        }
        if evidence.value.disposition == PendingOrUnknown {
          return Denied(BoundaryClosed);
        }
        var settled := Settle(0, evidence.value, None);
        if !settled {
          return Denied(AttemptLimit);
        }
        r := Persist(false, world.save);
        if r.Denied? {
          return;
        }
        left := if |left| > 0 then left[1..] else [];
      }
      return Done(());
    }

    method ActivateAction(w: ActivateWorld) returns (r: Reply<Policy>)
      modifies this, disk
      ensures Turn(View(), r) == ActivateBody(old(View()), w)
    {
      hide GateModel.Persist, GateModel.Recover, ValidPolicy;
      if failed || state.phase != Closed {
        return Denied(BoundaryClosed);
      }
      if state.schema == 2 {
        var recovered := Recover(w.settlements);
        if recovered.Denied? {
          return Denied(recovered.reason);
        }
      }
      if !w.policy.Answered? {
        CallFailed(w.policy, false);
        return Denied(BoundaryClosed);
      }
      var policy := w.policy.value;
      if !ValidPolicy(policy) || (policy.RouterPolicy? && state.schema == 1 && Used(state)) {
        return Denied(PolicyDenied);
      }
      if !w.quiescent.Answered? {
        CallFailed(w.quiescent, false);
        return Denied(BoundaryClosed);
      }
      if !w.quiescent.value {
        return Denied(BoundaryClosed);
      }
      state := state.(reservations := []);
      if policy.RouterPolicy? && state.schema == 1 && Used(state) {
        return Denied(PolicyDenied);
      }
      if policy.RouterPolicy? {
        if !w.receiptsReady {
          return Denied(BoundaryClosed);
        }
        state := state.(schema := 2);
      } else if state.schema == 2 {
        return Denied(PolicyDenied);
      } else {
        state := state.(schema := 1);
      }
      state := state.(policy := Some(policy), fingerprint := Some(policy), phase := Active);
      var saved := Persist(false, w.save);
      if saved.Denied? {
        return Denied(BoundaryClosed);
      }
      return Done(policy);
    }

    method DrainAndReplace(next: Policy, w: ReplaceWorld) returns (r: Reply<bool>)
      modifies this, disk
      ensures Turn(View(), r) == GateModel.DrainAndReplace(old(View()), next, w)
      ensures old(GoodView(View())) ==> Safe(old(View()), View(), {})
      ensures old(Synced(View())) ==> Synced(View())
      ensures (r == Done(true) <==> old(MayReplace(View(), next, w))) && (r == Done(false) <==> old(MustWait(View(), next, w)))
      ensures r == Done(true) ==>
                state == old(state).(policy := Some(next), fingerprint := Some(next), phase := Active, reservations := [])
      ensures r == Done(false) ==> state == old(state).(phase := Draining)
    {
      hide GoodView, Safe, Synced, ReplaceBody, MayReplace, MustWait;
      ghost var v := View();
      DrainAndReplaceExact(v, next, w);
      if GoodView(v) {
        DrainAndReplaceSafe(v, next, w);
      }
      if Synced(v) {
        DrainAndReplaceSynced(v, next, w);
      }
      var entered := Enter(w.entry);
      if entered.Denied? {
        return Denied(entered.reason);
      }
      r := ReplaceAction(next, w);
      r := Leave(r, w.rescue);
    }

    method ReplaceAction(next: Policy, w: ReplaceWorld) returns (r: Reply<bool>)
      modifies this, disk
      ensures Turn(View(), r) == ReplaceBody(old(View()), next, w)
    {
      hide ValidPolicy, Follows, GateModel.Persist;
      if failed || (state.phase != Active && state.phase != Draining) || state.policy.None? {
        return Denied(BoundaryClosed);
      }
      var previous := state.policy.value;
      if previous.RouterPolicy? {
        state := state.(phase := Closed);
        var closed := Persist(false, w.saveDraining);
        return Denied(if closed.Denied? then BoundaryClosed else ReplacementReadOnly);
      }
      if !ValidPolicy(next) || !Follows(next, previous) {
        return Denied(PolicyDenied);
      }
      state := state.(phase := Draining);
      var draining := Persist(false, w.saveDraining);
      if draining.Denied? {
        return Denied(BoundaryClosed);
      }
      if exists i :: 0 <= i < |state.reservations| && state.reservations[i].outcome.None? {
        return Done(false);
      }
      if !w.quiescent.Answered? {
        CallFailed(w.quiescent, false);
        return Denied(BoundaryClosed);
      }
      if !w.quiescent.value {
        return Done(false);
      }
      state := state.(reservations := [], phase := Mutating);
      var mutating := Persist(false, w.saveMutating);
      if mutating.Denied? {
        return Denied(BoundaryClosed);
      }
      if !w.answer.Answered? {
        CallFailed(w.answer, true);
        state := state.(phase := Closed);
        return Denied(BoundaryClosed);
      }
      if w.answer.value != next {
        state := state.(phase := Closed);
        return Denied(BoundaryClosed);
      }
      state := state.(policy := Some(next), fingerprint := Some(next), phase := Active);
      var saved := Persist(false, w.saveActive);
      if saved.Denied? {
        return Denied(BoundaryClosed);
      }
      return Done(true);
    }

    method StartClosing()
      modifies this
      ensures View() == BeginClose(old(View()))
    {
      if lifecycle == Serving {
        lifecycle := Closing;
      }
    }

    method Close(w: CloseWorld) returns (r: Reply<()>)
      modifies this, disk
      ensures Turn(View(), r) == EndClose(old(View()), w)
      ensures old(GoodView(View())) ==> Safe(old(View()), View(), {})
      ensures lifecycle == Shut && (r.Done? ==> disk.file == Some(state) && state.phase == Closed)
      ensures r.Done? <==> old(lifecycle) != Shut && w.save == Written && !old(uncertainMutation) && w.ownerKept
    {
      hide GoodView, Safe;
      ghost var v := View();
      CloseExact(v, w);
      if GoodView(v) {
        EndCloseSafe(v, w);
      }
      state := state.(phase := Closed);
      r := Persist(true, w.save);
      lifecycle := Shut;
      if r.Done? && uncertainMutation {
        return Denied(BoundaryClosed);
      }
      if r.Done? && !w.ownerKept {
        failed := true;
        return Denied(BoundaryClosed);
      }
    }
  }

  /** Opening the gate over a file: refused when the file does not pass the journal check. */
  method OpenGate(disk: Disk, generation: string, save: Save) returns (gate: PolicyGate, r: Reply<()>)
    modifies disk
    ensures fresh(gate) && gate.disk == disk
    ensures Turn(gate.View(), r) == Opened(old(disk.file), generation, save)
    ensures old(disk.file.Some? ==> Kept(disk.file.value)) ==>
              && GoodView(gate.View()) && (r.Done? ==> disk.file == Some(gate.state))
              && (save == Written ==> (r.Denied? <==> old(disk.file.Some? && Broken(disk.file.value))))
    ensures Synced(gate.View())
  {
    hide GoodView, Kept, Broken, Synced, ValidJournal;
    ghost var before := disk.file;
    if before.Some? ==> Kept(before.value) {
      OpenedSafe(before, generation, save);
    }
    OpenedSynced(before, generation, save);
    var ok := true;
    if disk.file.Some? {
      ok := ValidateJournal(disk.file.value);
    }
    gate := new PolicyGate(disk, generation);
    if !ok {
      return gate, Denied(BoundaryClosed);
    }
    r := gate.Persist(false, save);
  }
}
