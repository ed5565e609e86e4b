/** Who may free a place: a reservation without a router record leaves the journal only on the authority's word that the work is
    quiescent, or because the request was never forwarded (`experiments/inference-boundary/policy.ts:264-341`). */
module GateHolds {
  import opened Text
  import opened Receipts
  import opened Journals
  import opened JournalSteps
  import opened GateModel
  import opened GateExact

  /** The request holds a reservation without a router record. */
  predicate HeldPlain(rs: seq<Reservation>, id: string) {
    exists i :: 0 <= i < |rs| && rs[i].requestId == id && rs[i].router.None?
  }

  lemma HeldMore(rs: seq<Reservation>, later: seq<Reservation>, id: string)
    requires HeldPlain(rs, id) && rs <= later
    ensures HeldPlain(later, id)
  {
    var i :| 0 <= i < |rs| && rs[i].requestId == id && rs[i].router.None?;
    assert later[i] == rs[i];
  }

  lemma HeldReplaced(rs: seq<Reservation>, k: nat, r: Reservation, id: string)
    requires HeldPlain(rs, id) && k < |rs| && r.requestId == rs[k].requestId && (rs[k].router.None? ==> r.router.None?)
    ensures HeldPlain(rs[k := r], id)
  {
    var i :| 0 <= i < |rs| && rs[i].requestId == id && rs[i].router.None?;
    assert rs[k := r][i].requestId == id && rs[k := r][i].router.None?;
  }

  lemma HeldDropped(rs: seq<Reservation>, k: nat, id: string)
    requires HeldPlain(rs, id) && k < |rs| && (rs[k].requestId != id || rs[k].router.Some?)
    ensures HeldPlain(rs[..k] + rs[k + 1..], id)
  {
    var i :| 0 <= i < |rs| && rs[i].requestId == id && rs[i].router.None?;
    var later := rs[..k] + rs[k + 1..];
    assert i < k ==> later[i] == rs[i];
    assert i > k ==> later[i - 1] == rs[i];
  }

  predicate Held(v: View, id: string) { HeldPlain(v.state.reservations, id) }

  lemma RescueHolds<T>(t: Turn<T>, save: Option<Save>, id: string)
    ensures Held(Rescue(t, save).view, id) == Held(t.view, id)
  {
  }

  lemma AdmitHolds(v: View, b: Binding, requestDigest: Option<string>, w: AdmitWorld, id: string)
    requires Held(v, id) && w.retired != Answered(true)
    ensures Held(Admit(v, b, requestDigest, w).view, id)
  {
    hide RouterRefusal, CapacityRefusal, ValidBinding, Rescue, OnlyActive, HeldPlain;
    var u := Begin(v, w.entry).view;
    if Begin(v, w.entry).reply.Done? {
      RescueHolds(AdmitBody(u, b, requestDigest, w), w.rescue, id);
      assert v.state.reservations <= AdmitBody(u, b, requestDigest, w).view.state.reservations;
      HeldMore(v.state.reservations, AdmitBody(u, b, requestDigest, w).view.state.reservations, id);
    }
  }

  lemma MarkSendHolds(v: View, requestId: string, w: SendWorld, id: string)
    requires Held(v, id)
    ensures Held(MarkSend(v, requestId, w).view, id)
  {
    hide HeldPlain, Rescue, FindReservation;
    var u := Begin(v, w.entry).view;
    if Begin(v, w.entry).reply.Done? {
      RescueHolds(MarkSendBody(u, requestId, w), w.rescue, id);
      var at := FindReservation(u.state.reservations, requestId);
      if at.Some? && u.state.reservations[at.value].router.Some? {
        HeldReplaced(u.state.reservations, at.value, WithSendPossible(u.state, at.value).reservations[at.value], id);
      }
    }
  }

  lemma FinalizeHolds(v: View, requestId: string, completionDigest: string, w: FinalizeWorld, id: string)
    requires Held(v, id)
    ensures Held(Finalize(v, requestId, completionDigest, w).view, id)
  {
    hide HeldPlain, Rescue, FindReservation, FindDecision, Classify, Sha256;
    var u := Begin(v, w.entry).view;
    if Begin(v, w.entry).reply.Done? {
      RescueHolds(FinalizeBody(u, requestId, completionDigest, w), w.rescue, id);
    }
  }

  lemma FinishHolds(v: View, requestId: string, outcome: Outcome, neverForwarded: bool, w: FinishWorld, id: string)
    requires Held(v, id) && (requestId == id ==> !neverForwarded && w.quiescent != Answered(true))
    requires DistinctReservations(v.state.reservations)
    ensures Held(Finish(v, requestId, outcome, neverForwarded, w).view, id)
  {
    hide HeldPlain, FinishBody, Rescue, PlainFinish, RoutedFinish;
    var at := FindReservation(v.state.reservations, requestId);
    if LetIn(v, w.entry) {
      if at.Some? {
        FirstFound(v.state.reservations, requestId);
        FinishExact(v, requestId, at.value, outcome, neverForwarded, w);
        FinishedHolds(v, Finish(v, requestId, outcome, neverForwarded, w), at.value, outcome, neverForwarded, w, id);
      } else {
        NoReservation(v, requestId, outcome, neverForwarded, w);
        RescueHolds(FinishBody(v, requestId, outcome, neverForwarded, w), w.rescue, id);
      }
    }
  }

  lemma NoReservation(v: View, requestId: string, outcome: Outcome, neverForwarded: bool, w: FinishWorld)
    requires FindReservation(v.state.reservations, requestId).None?
    ensures FinishBody(v, requestId, outcome, neverForwarded, w).view == v
  {
  }

  lemma FinishedHolds(v: View, t: Turn<bool>, i: nat, outcome: Outcome, neverForwarded: bool, w: FinishWorld, id: string)
    requires Held(v, id) && i < |v.state.reservations|
    requires v.state.reservations[i].requestId == id ==> !neverForwarded && w.quiescent != Answered(true)
    requires if v.state.reservations[i].router.Some? then RoutedFinish(v, t, i, outcome, w) else PlainFinish(v, t, i, outcome, neverForwarded, w)
    ensures Held(t.view, id)
  {
    hide HeldPlain, Conclusive, RoomFor, Ruled, Delivered, EndRuling;
    var r := v.state.reservations[i];
    HeldReplaced(v.state.reservations, i, WithEnding(r, outcome), id);
    if r.requestId != id || r.router.Some? {
      HeldDropped(v.state.reservations, i, id);
    }
  }

  lemma {:induction false} RecoverHolds(v: View, settlements: seq<Settlement>, id: string)
    requires Held(v, id)
    ensures Held(Recover(v, settlements).view, id)
    decreases |v.state.reservations|
  {
    hide HeldPlain, EvidenceFor, Classify, FindDecision;
    if |v.state.reservations| > 0 && v.state.reservations[0].router.Some? {
      var r := v.state.reservations[0];
      var world := if |settlements| > 0 then settlements[0] else Settlement(TurnedAway, NotWritten);
      var evidence := EvidenceFor(r, world.receipt);
      if evidence.Answered? {
        var settled := Settled(v.state, 0, evidence.value, RulingFor(r), None);
        if settled.Some? {
          HeldDropped(v.state.reservations, 0, id);
          RecoverHolds(Persist(v.(state := settled.value), false, world.save).view, if |settlements| > 0 then settlements[1..] else [], id);
        }
      }
    }
  }

  lemma ActivateHolds(v: View, w: ActivateWorld, id: string)
    requires Held(v, id) && w.quiescent != Answered(true)
    ensures Held(Activate(v, w).view, id)
  {
    hide HeldPlain, Rescue, Recover, ValidPolicy, Adopt;
    var u := Begin(v, w.entry).view;
    if Begin(v, w.entry).reply.Done? {
      RescueHolds(ActivateBody(u, w), w.rescue, id);
      RecoverHolds(u, w.settlements, id);
    }
  }

  lemma DrainAndReplaceHolds(v: View, next: Policy, w: ReplaceWorld, id: string)
    requires Held(v, id) && w.quiescent != Answered(true)
    ensures Held(DrainAndReplace(v, next, w).view, id)
  {
    hide HeldPlain, Rescue, ValidPolicy, Follows, ReplacePolicy;
    var u := Begin(v, w.entry).view;
    if Begin(v, w.entry).reply.Done? {
      RescueHolds(ReplaceBody(u, next, w), w.rescue, id);
    }
  }

  lemma CloseHolds(v: View, w: CloseWorld, id: string)
    ensures Held(EndClose(v, w).view, id) == Held(v, id)
  {
  }
}
