/** A gate that has not failed never knows a ruling that its file does not: every change of the rulings is written in the
    same action, or fails the gate. */
module GateSync {
  import opened Text
  import opened Receipts
  import opened Journals
  import opened JournalSteps
  import opened GateModel

  predicate Synced(v: View) {
    !v.failed ==> v.disk.Some? && v.disk.value.decisions == v.state.decisions
  }

  /** The request holds a reservation made under a router policy. */
  predicate RoutedNow(rs: seq<Reservation>, id: string) {
    var at := FindReservation(rs, id);
    at.Some? && rs[at.value].router.Some?
  }

  lemma PersistSynced(v: View, closing: bool, save: Save)
    ensures Synced(Persist(v, closing, save).view)
  {
  }

  lemma CallFailedSynced<T>(v: View, c: Call<T>, mutating: bool)
    requires Synced(v) && !c.Answered?
    ensures Synced(CallFailed(v, c, mutating))
  {
  }

  lemma RescueSynced<T>(t: Turn<T>, save: Option<Save>)
    requires Synced(t.view)
    ensures Synced(Rescue(t, save).view)
  {
  }

  lemma BeginSynced(v: View, entry: Entry)
    requires Synced(v)
    ensures Synced(Begin(v, entry).view)
  {
  }

  lemma AdmitSynced(v: View, b: Binding, requestDigest: Option<string>, w: AdmitWorld)
    requires Synced(v)
    ensures Synced(Admit(v, b, requestDigest, w).view)
  {
    hide RouterRefusal, CapacityRefusal, ValidBinding, OnlyActive, Persist, Rescue;
    BeginSynced(v, w.entry);
    var u := Begin(v, w.entry).view;
    AdmitBodySynced(u, b, requestDigest, w);
    RescueSynced(AdmitBody(u, b, requestDigest, w), w.rescue);
  }

  lemma AdmitBodySynced(v: View, b: Binding, requestDigest: Option<string>, w: AdmitWorld)
    requires Synced(v)
    ensures Synced(AdmitBody(v, b, requestDigest, w).view)
  {
    hide RouterRefusal, CapacityRefusal, OnlyActive, Persist, CallFailed;
    if !w.retired.Answered? {
      CallFailedSynced(v, w.retired, false);
    }
    if v.state.policy.Some? && RouterRefusal(v.state, v.state.policy.value, b, requestDigest, w.authorityCurrent).None? {
      var u := Retire(v, v.state.policy.value, w.retired).view;
      PersistSynced(u.(state := WithReservation(u.state, NewReservation(v.state.policy.value, b, requestDigest, w.requestId))), false, w.save);
    }
  }

  lemma MarkSendSynced(v: View, requestId: string, w: SendWorld)
    requires Synced(v)
    ensures Synced(MarkSend(v, requestId, w).view)
  {
    hide FindReservation, Rescue;
    BeginSynced(v, w.entry);
    RescueSynced(MarkSendBody(Begin(v, w.entry).view, requestId, w), w.rescue);
  }

  lemma FinalizeSynced(v: View, requestId: string, completionDigest: string, w: FinalizeWorld)
    requires Synced(v)
    ensures Synced(Finalize(v, requestId, completionDigest, w).view)
  {
    hide FinalizeBody, Rescue;
    BeginSynced(v, w.entry);
    FinalizeBodySynced(Begin(v, w.entry).view, requestId, completionDigest, w);
    RescueSynced(FinalizeBody(Begin(v, w.entry).view, requestId, completionDigest, w), w.rescue);
  }

  lemma FinalizeBodySynced(v: View, requestId: string, completionDigest: string, w: FinalizeWorld)
    requires Synced(v)
    ensures Synced(FinalizeBody(v, requestId, completionDigest, w).view)
  {
    hide FindReservation, Recorded, Classify, Sha256;
  }

  lemma FinishSynced(v: View, requestId: string, outcome: Outcome, neverForwarded: bool, w: FinishWorld)
    requires Synced(v)
    ensures Synced(Finish(v, requestId, outcome, neverForwarded, w).view)
  {
    hide FinishBody, Rescue;
    BeginSynced(v, w.entry);
    FinishBodySynced(Begin(v, w.entry).view, requestId, outcome, neverForwarded, w);
    RescueSynced(FinishBody(Begin(v, w.entry).view, requestId, outcome, neverForwarded, w), w.rescue);
  }

  lemma FinishBodySynced(v: View, requestId: string, outcome: Outcome, neverForwarded: bool, w: FinishWorld)
    requires Synced(v)
    ensures Synced(FinishBody(v, requestId, outcome, neverForwarded, w).view)
  {
    hide FindReservation, Settled, EvidenceFor;
  }

  lemma {:induction false} RecoverSynced(v: View, settlements: seq<Settlement>)
    requires Synced(v)
    ensures Synced(Recover(v, settlements).view)
    decreases |v.state.reservations|
  {
    hide Settled, EvidenceFor, Classify;
    if |v.state.reservations| > 0 && v.state.reservations[0].router.Some? {
      var r := v.state.reservations[0];
      var world := if |settlements| > 0 then settlements[0] else Settlement(TurnedAway, NotWritten);
      var evidence := EvidenceFor(r, world.receipt);
      if evidence.Answered? && evidence.value.disposition != PendingOrUnknown {
        var settled := Settled(v.state, 0, evidence.value, RulingFor(r), None);
        if settled.Some? {
          var saved := Persist(v.(state := settled.value), false, world.save);
          if saved.reply.Done? {
            SettledShrinks(v.state, evidence.value, RulingFor(r));
            RecoverSynced(saved.view, if |settlements| > 0 then settlements[1..] else []);
          }
        }
      }
    }
  }

  lemma SettledShrinks(j: Journal, evidence: Evidence, verdict: Verdict)
    requires |j.reservations| > 0 && j.reservations[0].router.Some?
    ensures var settled := Settled(j, 0, evidence, verdict, None);
            settled.Some? ==> |settled.value.reservations| < |j.reservations|
  {
  }

  lemma ActivateSynced(v: View, w: ActivateWorld)
    requires Synced(v)
    ensures Synced(Activate(v, w).view)
  {
    hide ActivateBody, Rescue;
    BeginSynced(v, w.entry);
    ActivateBodySynced(Begin(v, w.entry).view, w);
    RescueSynced(ActivateBody(Begin(v, w.entry).view, w), w.rescue);
  }

  lemma ActivateBodySynced(v: View, w: ActivateWorld)
    requires Synced(v)
    ensures Synced(ActivateBody(v, w).view)
  {
    hide Recover, ValidPolicy;
    RecoverSynced(v, w.settlements);
  }

  lemma DrainAndReplaceSynced(v: View, next: Policy, w: ReplaceWorld)
    requires Synced(v)
    ensures Synced(DrainAndReplace(v, next, w).view)
  {
    hide ReplaceBody, Rescue;
    BeginSynced(v, w.entry);
    ReplaceBodySynced(Begin(v, w.entry).view, next, w);
    RescueSynced(ReplaceBody(Begin(v, w.entry).view, next, w), w.rescue);
  }

  lemma ReplaceBodySynced(v: View, next: Policy, w: ReplaceWorld)
    requires Synced(v)
    ensures Synced(ReplaceBody(v, next, w).view)
  {
    hide ValidPolicy, Follows;
  }

  /** Opened gates are in step with the file that was just written. */
  lemma OpenedSynced(disk: Option<Journal>, generation: string, save: Save)
    ensures Synced(Opened(disk, generation, save).view)
  {
    hide ValidJournal;
  }
}
