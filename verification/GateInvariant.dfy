/** The invariant of the policy gate: whatever the file system and the authority answer, memory and file stay
    acceptable to the journal check and neither takes back what it once said. */
module GateInvariant {
  import opened Text
  import opened Receipts
  import opened Journals
  import opened JournalSteps
  import opened GateModel

  function IdsIn(j: Journal): set<string> {
    Ids(j.reservations, j.decisions)
  }

  /** What a router policy adopted over a journal of schema 1 leaves: the check refuses it, nothing is decided or
      reserved in it, and its counts stand. */
  ghost predicate Broken(j: Journal) {
    match j
    case Journal(schema, _, _, policy, fingerprint, reservations, counts, decisions) =>
      && schema == 1 && policy.Some? && policy.value.RouterPolicy? && ValidPolicy(policy.value) && fingerprint == policy
      && reservations == [] && decisions == [] && CountsInRange(counts)
  }

  ghost predicate Kept(j: Journal) {
    Good(j) || Broken(j)
  }

  ghost predicate GoodView(v: View) {
    && Kept(v.state)
    && (v.disk.None? ==> v.durable == [])
    && (v.disk.Some? ==> Kept(v.disk.value) && Extends(v.disk.value, v.state) && AllStillDecided(v.durable, v.disk.value.decisions))
  }

  /** The later journal extends the earlier one, knows no new request but the given ones, and keeps its schema
      once it has a policy. */
  ghost predicate Grows(j: Journal, later: Journal, added: set<string>) {
    && Extends(j, later)
    && IdsIn(later) <= IdsIn(j) + added
    && (j.policy.Some? ==> later.policy.Some? && later.schema == j.schema)
    && (later.schema != j.schema ==> IdsIn(later) <= added)
  }

  /** What one call may do to a good view. */
  ghost predicate Safe(v: View, later: View, added: set<string>) {
    && GoodView(later)
    && Grows(v.state, later.state, added)
    && (later.disk == v.disk || (later.disk.Some? && Grows(v.state, later.disk.value, added)))
  }

  lemma GrowsTransitive(a: Journal, b: Journal, c: Journal, added: set<string>)
    requires Grows(a, b, added) && Grows(b, c, added)
    ensures Grows(a, c, added)
  {
    ExtendsTransitive(a, b, c);
  }

  lemma GrowsReflexive(j: Journal, added: set<string>)
    ensures Grows(j, j, added)
  {
    ExtendsReflexive(j);
  }

  lemma KeepsGrows(j: Journal, later: Journal, added: set<string>)
    requires Keeps(j, later) && later.policy == j.policy
    ensures Grows(j, later, added)
  {
  }

  lemma SafeTransitive(a: View, b: View, c: View, added: set<string>)
    requires Safe(a, b, added) && Safe(b, c, added)
    ensures Safe(a, c, added)
  {
    GrowsTransitive(a.state, b.state, c.state, added);
    if c.disk != b.disk {
      GrowsTransitive(a.state, b.state, c.disk.value, added);
    }
  }

  lemma SafeReflexive(v: View, added: set<string>)
    requires GoodView(v)
    ensures Safe(v, v, added)
  {
    GrowsReflexive(v.state, added);
  }

  /** A change of memory alone. */
  lemma SafeChange(v: View, later: Journal, added: set<string>)
    requires GoodView(v) && Kept(later) && Grows(v.state, later, added)
    ensures Safe(v, v.(state := later), added)
  {
    if v.disk.Some? {
      ExtendsTransitive(v.disk.value, v.state, later);
    }
  }

  lemma PhaseSafe(v: View, phase: Phase, added: set<string>)
    requires GoodView(v)
    ensures Safe(v, InPhase(v, phase), added)
  {
    hide Good, Extends, Ids, Safe, ValidPolicy;
    KeptPhase(v.state, v.state.generation, phase, added);
    SafeChange(v, v.state.(phase := phase), added);
  }

  lemma KeptPhase(j: Journal, generation: string, phase: Phase, added: set<string>)
    requires Kept(j)
    ensures var later := j.(generation := generation, phase := phase); Kept(later) && Grows(j, later, added)
  {
    hide Good, Ids, MayBeSent, AllStillDecided, ValidPolicy, CountsInRange;
    if Good(j) {
      PhaseKeeps(j, generation, phase);
      KeepsGrows(j, j.(generation := generation, phase := phase), added);
    } else {
      ExtendsReflexive(j);
    }
  }

  lemma PersistSafe(v: View, closing: bool, save: Save, added: set<string>)
    requires GoodView(v)
    ensures Safe(v, Persist(v, closing, save).view, added)
    ensures var t := Persist(v, closing, save);
            t.reply.Done? ==> t.view == v.(disk := Some(v.state), durable := v.state.decisions)
  {
    hide Good, Extends, Ids;
    PhaseSafe(v, Closed, added);
    if Writable(v, closing) && save != NotWritten {
      var kept := if save == Written then v.state.decisions else v.durable;
      DecisionsStay(v.state.decisions, v.state.decisions);
      if v.disk.Some? {
        DurableStays(v.durable, v.disk.value, v.state);
      }
      WrittenSafe(v, kept, added);
      if save == Unconfirmed {
        PhaseSafe(v.(disk := Some(v.state)), Closed, added);
        SafeTransitive(v, v.(disk := Some(v.state)), InPhase(v.(disk := Some(v.state)), Closed), added);
      }
    }
  }

  lemma WrittenSafe(v: View, durable: seq<Decision>, added: set<string>)
    requires GoodView(v) && AllStillDecided(durable, v.state.decisions)
    ensures Safe(v, v.(disk := Some(v.state), durable := durable), added)
  {
    GrowsReflexive(v.state, added);
  }

  lemma DurableStays(durable: seq<Decision>, disk: Journal, state: Journal)
    requires AllStillDecided(durable, disk.decisions) && Extends(disk, state)
    ensures AllStillDecided(durable, state.decisions)
  {
    forall k | 0 <= k < |durable| ensures StillDecided(durable[k], state.decisions) {
      assert StillDecided(durable[k], disk.decisions);
      var m :| 0 <= m < |disk.decisions| && SameRuling(durable[k], disk.decisions[m]);
      assert StillDecided(disk.decisions[m], state.decisions);
    }
  }

  lemma ChangePersistSafe(v: View, later: Journal, save: Save, added: set<string>)
    requires GoodView(v) && Kept(later) && Grows(v.state, later, added)
    ensures Safe(v, Persist(v.(state := later), false, save).view, added)
  {
    hide Good, Extends, Ids, Grows;
    SafeChange(v, later, added);
    PersistSafe(v.(state := later), false, save, added);
    SafeTransitive(v, v.(state := later), Persist(v.(state := later), false, save).view, added);
  }

  lemma CallFailedSafe<T>(v: View, c: Call<T>, mutating: bool, added: set<string>)
    requires GoodView(v) && !c.Answered?
    ensures Safe(v, CallFailed(v, c, mutating), added)
  {
    hide Good, Extends, Ids, Grows;
    SafeReflexive(v, added);
    PhaseSafe(v, Closed, added);
  }

  lemma BeginSafe(v: View, entry: Entry, added: set<string>)
    requires GoodView(v)
    ensures Safe(v, Begin(v, entry).view, added)
    ensures Begin(v, entry).reply.Done? ==> Begin(v, entry).view == v && Usable(v)
  {
    hide Good, Extends, Ids, Grows;
    SafeReflexive(v, added);
    PhaseSafe(v, Closed, added);
  }

  lemma RescueSafe<T>(v: View, t: Turn<T>, save: Option<Save>, added: set<string>)
    requires GoodView(v) && Safe(v, t.view, added)
    ensures Safe(v, Rescue(t, save).view, added)
    ensures Rescue(t, save).reply.Done? ==> Rescue(t, save) == t
  {
    hide Good, Extends, Ids, Grows;
    if save.Some? {
      PersistSafe(t.view, false, save.value, added);
      SafeTransitive(v, t.view, Persist(t.view, false, save.value).view, added);
    }
  }

  // ---- admission ----

  lemma RetireSafe(v: View, p: Policy, retired: Call<bool>, added: set<string>)
    requires GoodView(v) && v.state.policy == Some(p)
    ensures var t := Retire(v, p, retired);
            && Safe(v, t.view, added)
            && (t.reply.Done? ==>
                  && t.view == v.(state := v.state.(reservations := t.view.state.reservations))
                  && IdsIn(t.view.state) <= IdsIn(v.state))
  {
    hide Good, Extends, Ids, Grows;
    SafeReflexive(v, added);
    if !retired.Answered? {
      CallFailedSafe(v, retired, false, added);
    } else if p.FixturePolicy? {
      ActiveKeeps(v.state);
      KeepsGrows(v.state, v.state.(reservations := OnlyActive(v.state.reservations)), added);
      ActiveIds(v.state);
      SafeChange(v, v.state.(reservations := OnlyActive(v.state.reservations)), added);
    }
  }

  lemma ActiveIds(j: Journal)
    requires Good(j)
    ensures IdsIn(j.(reservations := OnlyActive(j.reservations))) <= IdsIn(j)
  {
    OnlyActiveIsSubsequence(j.reservations);
  }

  lemma ActiveKeeps(j: Journal)
    requires Good(j) && j.policy.Some? && j.policy.value.FixturePolicy?
    ensures Keeps(j, j.(reservations := OnlyActive(j.reservations)))
  {
    OnlyActiveIsSubsequence(j.reservations);
    ReleasedKeeps(j, OnlyActive(j.reservations));
  }

  lemma NewReservationFits(j: Journal, p: Policy, b: Binding, requestDigest: Option<string>, requestId: string)
    requires Good(j) && j.policy == Some(p) && ValidBinding(b) && BoundTo(b, p) && !b.native && RequestId(requestId)
    requires p.RouterPolicy? ==> requestDigest.Some? && Sha256(requestDigest.value)
    ensures var r := NewReservation(p, b, requestDigest, requestId);
            ReservationFits(r, j.schema, j.policy) && EpochFits(r, j.policy) && (r.router.Some? <==> j.schema == 2)
  {
  }

  lemma LimitsBounded(p: Policy)
    requires ValidPolicy(p)
    ensures p.limits.requestCount <= MAX_COUNT
  {
  }

  lemma PolicyIsValid(j: Journal)
    requires Good(j)
    ensures j.policy.Some? ==> ValidPolicy(j.policy.value) && (j.policy.value.RouterPolicy? <==> j.schema == 2)
    ensures j.schema == 1 || j.schema == 2
  {
  }

  lemma ReserveSafe(v: View, b: Binding, requestDigest: Option<string>, w: AdmitWorld)
    requires Good(v.state) && v.state.policy.Some? && ValidBinding(b) && RequestId(w.requestId) && w.requestId !in IdsIn(v.state)
    requires RouterRefusal(v.state, v.state.policy.value, b, requestDigest, w.authorityCurrent).None?
    requires CapacityRefusal(v.state, v.state.policy.value, b, w).None?
    ensures var r := NewReservation(v.state.policy.value, b, requestDigest, w.requestId);
            var later := WithReservation(v.state, r);
            && (r.router.Some? <==> v.state.schema == 2)
            && Good(later) && Grows(v.state, later, {w.requestId})
  {
    hide Good, Extends, Ids, ReservationFits, ValidBinding, ValidPolicy, RequestId;
    PolicyIsValid(v.state);
    NewReservationFits(v.state, v.state.policy.value, b, requestDigest, w.requestId);
    LimitsBounded(v.state.policy.value);
    AdmittedKeeps(v.state, NewReservation(v.state.policy.value, b, requestDigest, w.requestId));
  }

  /** Admission keeps the invariant and adds at most the new request. A reservation that is handed out is in the
      journal on disk, still unsent, and carries a router record exactly under schema 2. */
  lemma AdmitSafe(v: View, b: Binding, requestDigest: Option<string>, w: AdmitWorld)
    requires GoodView(v) && RequestId(w.requestId) && w.requestId !in IdsIn(v.state)
    ensures var t := Admit(v, b, requestDigest, w);
            && Safe(v, t.view, {w.requestId})
            && (t.reply.Done? ==>
                  && t.reply.value.requestId == w.requestId && t.view.disk == Some(t.view.state)
                  && t.reply.value in t.view.state.reservations
                  && (t.reply.value.router.Some? <==> t.view.state.schema == 2)
                  && v.state.policy.Some? && t.view.state.schema == v.state.schema
                  && t.view.state.counts == v.state.counts[b.attemptId := CountOf(v.state.counts, b.attemptId) + 1])
  {
    hide Good, Extends, Ids, Grows, ValidBinding, RequestId;
    var added := {w.requestId};
    SafeReflexive(v, added);
    BeginSafe(v, w.entry, added);
    if ValidBinding(b) && Begin(v, w.entry).reply.Done? {
      AdmitBodySafe(v, b, requestDigest, w);
      RescueSafe(v, AdmitBody(v, b, requestDigest, w), w.rescue, added);
    }
  }

  lemma AdmitBodySafe(v: View, b: Binding, requestDigest: Option<string>, w: AdmitWorld)
    requires GoodView(v) && ValidBinding(b) && RequestId(w.requestId) && w.requestId !in IdsIn(v.state)
    ensures var t := AdmitBody(v, b, requestDigest, w);
            && Safe(v, t.view, {w.requestId})
            && (t.reply.Done? ==>
                  && t.reply.value.requestId == w.requestId && t.view.disk == Some(t.view.state)
                  && t.reply.value in t.view.state.reservations
                  && (t.reply.value.router.Some? <==> t.view.state.schema == 2)
                  && v.state.policy.Some? && t.view.state.schema == v.state.schema
                  && t.view.state.counts == v.state.counts[b.attemptId := CountOf(v.state.counts, b.attemptId) + 1])
  {
    hide Good, Extends, Grows, Ids, ValidBinding, RequestId, RouterRefusal, CapacityRefusal, Retire, Safe, GoodView;
    var added := {w.requestId};
    SafeReflexive(v, added);
    if !v.failed && v.state.phase == Active && v.state.policy.Some? {
      var p := v.state.policy.value;
      RetireSafe(v, p, w.retired, added);
      RetireTouches(v, p, w.retired);
      var retired := Retire(v, p, w.retired);
      var u := retired.view;
      if retired.reply.Done? && RouterRefusal(v.state, p, b, requestDigest, w.authorityCurrent).None?
         && CapacityRefusal(u.state, p, b, w).None? {
        SafeIsGood(v, u, added);
        FixtureNotRefused(v.state, u.state, p, b, requestDigest, w.authorityCurrent);
        NotRefusedIsGood(u, p, b, requestDigest, w.authorityCurrent);
        ReserveSafe(u, b, requestDigest, w);
        var later := WithReservation(u.state, NewReservation(p, b, requestDigest, w.requestId));
        ChangePersistSafe(u, later, w.save, added);
        SafeTransitive(v, u, Persist(u.(state := later), false, w.save).view, added);
      }
    }
  }

  lemma FixtureNotRefused(j: Journal, u: Journal, p: Policy, b: Binding, requestDigest: Option<string>, current: bool)
    ensures p.FixturePolicy? ==> RouterRefusal(j, p, b, requestDigest, current) == RouterRefusal(u, p, b, requestDigest, current)
  {
  }

  /** A journal that holds a router policy without a decision list admits nothing. */
  lemma NotRefusedIsGood(v: View, p: Policy, b: Binding, requestDigest: Option<string>, current: bool)
    requires GoodView(v) && v.state.policy == Some(p) && RouterRefusal(v.state, p, b, requestDigest, current).None?
    ensures Good(v.state)
  {
    hide Good, ValidPolicy, Extends;
  }

  lemma SafeIsGood(v: View, later: View, added: set<string>)
    requires Safe(v, later, added)
    ensures GoodView(later)
  {
    hide Good, Grows, GoodView;
  }

  lemma RetireTouches(v: View, p: Policy, retired: Call<bool>)
    ensures var u := Retire(v, p, retired);
            && (u.reply.Done? ==> u.view == v.(state := v.state.(reservations := u.view.state.reservations)))
            && (p.RouterPolicy? ==> u.view == v)
            && (u.reply.Done? && u.view != v ==> u.view.state.reservations == OnlyActive(v.state.reservations))
  {
    hide OnlyActive;
  }

  // ---- sending ----

  lemma MarkSendSafe(v: View, requestId: string, w: SendWorld)
    requires GoodView(v)
    ensures var t := MarkSend(v, requestId, w);
            && Safe(v, t.view, {})
            && (t.reply.Done? ==> t.view.disk == Some(t.view.state) && MayBeSentIn(t.view.state, requestId))
  {
    hide Good, Extends, Ids, Grows, MayBeSent;
    SafeReflexive(v, {});
    BeginSafe(v, w.entry, {});
    if Begin(v, w.entry).reply.Done? {
      MarkSendBodySafe(v, requestId, w);
      RescueSafe(v, MarkSendBody(v, requestId, w), w.rescue, {});
    }
  }

  ghost predicate MayBeSentIn(j: Journal, id: string) {
    MayBeSent(j.reservations, j.decisions, id)
  }

  lemma MarkSendBodySafe(v: View, requestId: string, w: SendWorld)
    requires GoodView(v)
    ensures var t := MarkSendBody(v, requestId, w);
            && Safe(v, t.view, {})
            && (t.reply.Done? ==> t.view.disk == Some(t.view.state) && MayBeSentIn(t.view.state, requestId))
  {
    hide Good, Extends, Ids, MayBeSent, Grows;
    SafeReflexive(v, {});
    var at := FindReservation(v.state.reservations, requestId);
    if at.Some? && v.state.reservations[at.value].router.Some? && v.state.reservations[at.value].router.value.send == Reserved {
      var later := WithSendPossible(v.state, at.value);
      MarkedMayBeSent(v.state, at.value);
      SendKeeps(v.state, at.value);
      KeepsGrows(v.state, later, {});
      ChangePersistSafe(v, later, w.save, {});
    }
  }

  lemma MarkedMayBeSent(j: Journal, i: nat)
    requires i < |j.reservations| && j.reservations[i].router.Some?
    ensures MayBeSentIn(WithSendPossible(j, i), j.reservations[i].requestId)
  {
    var later := WithSendPossible(j, i);
    assert later.reservations[i].requestId == j.reservations[i].requestId && SendMarked(later.reservations[i]);
  }

  // ---- success ----

  lemma FinalizeSafe(v: View, requestId: string, completionDigest: string, w: FinalizeWorld)
    requires GoodView(v)
    ensures var t := Finalize(v, requestId, completionDigest, w);
            && Safe(v, t.view, {})
            && (t.reply.Done? ==> t.view.disk == Some(t.view.state) && HasSuccess(t.view.state.decisions, requestId))
  {
    hide Good, Extends, Ids, Grows, HasSuccess;
    SafeReflexive(v, {});
    BeginSafe(v, w.entry, {});
    if Begin(v, w.entry).reply.Done? {
      FinalizeBodySafe(v, requestId, completionDigest, w);
      RescueSafe(v, FinalizeBody(v, requestId, completionDigest, w), w.rescue, {});
    }
  }

  lemma RoutedMeansSchema2(j: Journal, i: nat)
    requires Good(j) && i < |j.reservations| && j.reservations[i].router.Some?
    ensures j.schema == 2
  {
    assert ReservationFits(j.reservations[i], j.schema, j.policy);
  }

  lemma SuccessJustified(r: Reservation, raw: RawReceipt, completionDigest: string)
    requires r.router.Some? && r.router.value.send == SendPossible && Sha256(completionDigest)
    requires Classify(raw, r.requestId, r.router.value.policy).disposition == OriginalSuccess
    ensures Justified(r, Classify(raw, r.requestId, r.router.value.policy), ValidatedSuccess, Some(completionDigest))
  {
  }

  lemma FinalizeBodySafe(v: View, requestId: string, completionDigest: string, w: FinalizeWorld)
    requires GoodView(v)
    ensures var t := FinalizeBody(v, requestId, completionDigest, w);
            && Safe(v, t.view, {})
            && (t.reply.Done? ==> t.view.disk == Some(t.view.state) && HasSuccess(t.view.state.decisions, requestId))
  {
    hide Good, Extends, Ids, Grows, Classify, Justified, HasSuccess, Sha256, Recorded;
    SafeReflexive(v, {});
    var j := v.state;
    var at := FindReservation(j.reservations, requestId);
    if at.Some? && j.reservations[at.value].router.Some? && j.reservations[at.value].router.value.send == SendPossible && Sha256(completionDigest) {
      if !w.receipt.Answered? {
        CallFailedSafe(v, w.receipt, false, {});
      } else {
        var r := j.reservations[at.value];
        var evidence := Classify(w.receipt.value, requestId, r.router.value.policy);
        if evidence.disposition == OriginalSuccess {
          RoutedMeansSchema2(j, at.value);
          SuccessJustified(r, w.receipt.value, completionDigest);
          SuccessKeeps(j, at.value, evidence, completionDigest);
          RecordedPolicy(j, at.value, evidence, completionDigest);
          var later := Recorded(j, at.value, evidence, ValidatedSuccess, Some(completionDigest)).value;
          KeepsGrows(j, later, {});
          ChangePersistSafe(v, later, w.save, {});
        }
      }
    }
  }

  lemma RecordedPolicy(j: Journal, i: nat, evidence: Evidence, completionDigest: string)
    requires i < |j.reservations| && j.reservations[i].router.Some?
    ensures var recorded := Recorded(j, i, evidence, ValidatedSuccess, Some(completionDigest));
            recorded.Some? ==> recorded.value.policy == j.policy && recorded.value.reservations == j.reservations
  {
  }

  // ---- finishing ----

  lemma RulingJustified(r: Reservation, receipt: Call<RawReceipt>)
    requires r.router.Some? && EvidenceFor(r, receipt).Answered?
    requires EvidenceFor(r, receipt).value.disposition != PendingOrUnknown
    ensures Justified(r, EvidenceFor(r, receipt).value, RulingFor(r), None)
  {
  }

  /** Ruling on a reservation after the authority gave evidence: always possible, never the 65th decision. */
  lemma RuleSafe(v: View, i: nat, receipt: Call<RawReceipt>, delivery: Option<Outcome>, save: Save)
    requires GoodView(v) && i < |v.state.reservations| && v.state.reservations[i].router.Some?
    requires EvidenceFor(v.state.reservations[i], receipt).Answered?
    requires EvidenceFor(v.state.reservations[i], receipt).value.disposition != PendingOrUnknown
    ensures var r := v.state.reservations[i];
            var settled := Settled(v.state, i, EvidenceFor(r, receipt).value, RulingFor(r), delivery);
            settled.Some? && Safe(v, Persist(v.(state := settled.value), false, save).view, {})
  {
    hide Good, Extends, Ids, Grows, Justified, Classify, Recorded;
    var r := v.state.reservations[i];
    RoutedMeansSchema2(v.state, i);
    RulingJustified(r, receipt);
    var evidence := EvidenceFor(r, receipt).value;
    SettledKeeps(v.state, i, evidence, RulingFor(r), delivery);
    SettledPolicy(v.state, i, evidence, RulingFor(r), delivery);
    var later := Settled(v.state, i, evidence, RulingFor(r), delivery).value;
    KeepsGrows(v.state, later, {});
    ChangePersistSafe(v, later, save, {});
  }

  lemma SettledPolicy(j: Journal, i: nat, evidence: Evidence, verdict: Verdict, delivery: Option<Outcome>)
    requires i < |j.reservations| && j.reservations[i].router.Some?
    ensures var settled := Settled(j, i, evidence, verdict, delivery);
            settled.Some? ==> settled.value.policy == j.policy && settled.value.schema == j.schema &&
                              settled.value.reservations == Drop(j.reservations, i)
  {
  }

  lemma FinishSafe(v: View, requestId: string, outcome: Outcome, neverForwarded: bool, w: FinishWorld)
    requires GoodView(v)
    ensures Safe(v, Finish(v, requestId, outcome, neverForwarded, w).view, {})
  {
    hide Good, Extends, Ids, Grows;
    SafeReflexive(v, {});
    BeginSafe(v, w.entry, {});
    if Begin(v, w.entry).reply.Done? {
      FinishBodySafe(v, requestId, outcome, neverForwarded, w);
      RescueSafe(v, FinishBody(v, requestId, outcome, neverForwarded, w), w.rescue, {});
    }
  }

  lemma FinishBodySafe(v: View, requestId: string, outcome: Outcome, neverForwarded: bool, w: FinishWorld)
    requires GoodView(v)
    ensures Safe(v, FinishBody(v, requestId, outcome, neverForwarded, w).view, {})
  {
    hide Good, Extends, Ids, Grows, Classify, Settled;
    SafeReflexive(v, {});
    var at := FindReservation(v.state.reservations, requestId);
    if at.Some? {
      OutcomeKeeps(v.state, at.value, outcome);
      KeepsGrows(v.state, WithOutcome(v.state, at.value, outcome), {});
      SafeChange(v, WithOutcome(v.state, at.value, outcome), {});
      var u := v.(state := WithOutcome(v.state, at.value, outcome));
      FinishEndedSafe(u, at.value, outcome, neverForwarded, w);
      SafeTransitive(v, u, FinishBody(v, requestId, outcome, neverForwarded, w).view, {});
    }
  }

  lemma FinishEndedSafe(u: View, i: nat, outcome: Outcome, neverForwarded: bool, w: FinishWorld)
    requires GoodView(u) && i < |u.state.reservations|
    ensures u.state.reservations[i].router.Some? ==> Safe(u, FinishRouted(u, i, outcome, w).view, {})
    ensures u.state.reservations[i].router.None? ==> Safe(u, FinishPlain(u, i, neverForwarded, w).view, {})
  {
    hide Good, Extends, Ids, Grows, Classify, Settled;
    if u.state.reservations[i].router.Some? {
      var evidence := EvidenceFor(u.state.reservations[i], w.receipt);
      if !evidence.Answered? {
        CallFailedSafe(u, evidence, false, {});
      } else if evidence.value.disposition == PendingOrUnknown {
        PersistSafe(u, false, w.save, {});
      } else {
        RuleSafe(u, i, w.receipt, Some(outcome), w.save);
      }
    } else {
      PlainKeeps(u.state, i);
      KeepsGrows(u.state, Without(u.state, i), {});
      ChangePersistSafe(u, Without(u.state, i), w.save, {});
      PersistSafe(u, false, w.save, {});
      if !neverForwarded && !w.quiescent.Answered? {
        CallFailedSafe(u, w.quiescent, false, {});
      }
    }
  }

  lemma PlainKeeps(j: Journal, i: nat)
    requires Good(j) && i < |j.reservations| && j.reservations[i].router.None?
    ensures Keeps(j, Without(j, i))
  {
    assert ReservationFits(j.reservations[i], j.schema, j.policy);
    DropElements(j.reservations, i);
    PolicyIsValid(j);
    DroppedIsSubsequence(j.reservations, i);
    hide Good, Keeps, ReservationFits;
    ReleasedKeeps(j, Drop(j.reservations, i));
  }

  lemma DroppedIsSubsequence(rs: seq<Reservation>, i: nat)
    requires i < |rs| && DistinctReservations(rs)
    ensures SubsequenceOf(Drop(rs, i), rs)
  {
    DropElements(rs, i);
  }

  // ---- activation ----

  lemma {:induction false} RecoverSafe(v: View, settlements: seq<Settlement>)
    requires GoodView(v)
    ensures var t := Recover(v, settlements);
            && Safe(v, t.view, {})
            && (t.reply.Done? ==> t.view.state.reservations == [] && t.view.state.policy == v.state.policy &&
                                  t.view.state.schema == v.state.schema)
    decreases |v.state.reservations|
  {
    hide Good, Extends, Ids, Grows, Classify, Settled;
    SafeReflexive(v, {});
    if |v.state.reservations| > 0 && v.state.reservations[0].router.Some? {
      var r := v.state.reservations[0];
      var world := if |settlements| > 0 then settlements[0] else Settlement(TurnedAway, NotWritten);
      var evidence := EvidenceFor(r, world.receipt);
      if !evidence.Answered? {
        CallFailedSafe(v, evidence, false, {});
      } else if evidence.value.disposition != PendingOrUnknown {
        RuleSafe(v, 0, world.receipt, None, world.save);
        var settled := Settled(v.state, 0, evidence.value, RulingFor(r), None);
        SettledPolicy(v.state, 0, evidence.value, RulingFor(r), None);
        var saved := Persist(v.(state := settled.value), false, world.save);
        if saved.reply.Done? {
          var rest := if |settlements| > 0 then settlements[1..] else [];
          RecoverSafe(saved.view, rest);
          SafeTransitive(v, saved.view, Recover(saved.view, rest).view, {});
        }
      }
    }
  }

  function Adopted(j: Journal, p: Policy): Journal {
    j.(schema := (if p.RouterPolicy? then 2 else 1), policy := Some(p), fingerprint := Some(p), phase := Active)
  }

  lemma EmptyCharges(j: Journal)
    requires |j.counts| == 0 && j.reservations == [] && j.decisions == []
    ensures ExactCharges(j.counts, j.reservations, j.decisions) && |Ids(j.reservations, j.decisions)| == 0
  {
    forall a ensures |Charged([], [], a)| == CountOf(j.counts, a) {
      assert Charged([], [], a) == {};
    }
  }

  /** A new policy over an empty reservation list. */
  lemma AdoptedGood(j: Journal, p: Policy)
    requires Good(j) && j.reservations == [] && ValidPolicy(p)
    requires p.RouterPolicy? && j.schema == 1 ==> !Used(j)
    requires p.FixturePolicy? ==> j.schema == 1
    ensures Good(Adopted(j, p)) && Grows(j, Adopted(j, p), {})
  {
    hide Sound, Ids, ExactCharges, ValidPolicy, Extends;
    PolicyIsValid(j);
    if p.RouterPolicy? && j.schema == 1 {
      UnusedIsEmpty(j);
      EmptyCharges(j);
    } else if p.RouterPolicy? {
      ChargesOf(j);
    }
    AdoptedSound(j, p);
    AdoptedExtends(j, p);
  }

  /** A fixture policy makes a broken journal acceptable again. */
  lemma MendedGood(j: Journal, p: Policy)
    requires Broken(j) && ValidPolicy(p) && p.FixturePolicy?
    ensures Good(Adopted(j, p)) && Grows(j, Adopted(j, p), {})
  {
    hide ValidPolicy, Extends, CountsInRange;
    AdoptedExtends(j, p);
    assert CountsFit(Adopted(j, p));
  }

  lemma UnusedIsEmpty(j: Journal)
    requires Good(j) && !Used(j) && j.schema == 1
    ensures |j.counts| == 0 && j.reservations == [] && j.decisions == []
  {
    hide DecisionsFit, ReservationsFit, CountsCover;
  }

  lemma ChargesOf(j: Journal)
    requires Good(j) && j.schema == 2
    ensures ExactCharges(j.counts, j.reservations, j.decisions) && |Ids(j.reservations, j.decisions)| <= MAX_DECISIONS
  {
    hide ExactCharges, ValidJournal;
  }

  lemma AdoptedExtends(j: Journal, p: Policy)
    requires j.reservations == []
    ensures Extends(j, Adopted(j, p))
  {
    DecisionsStay(j.decisions, j.decisions);
  }

  lemma AdoptedSound(j: Journal, p: Policy)
    requires Good(j) && j.reservations == [] && ValidPolicy(p)
    requires p.RouterPolicy? && j.schema == 1 ==> ExactCharges(j.counts, [], j.decisions) && |Ids([], j.decisions)| <= MAX_DECISIONS
    requires p.FixturePolicy? ==> j.schema == 1
    ensures Sound(Adopted(j, p))
  {
    hide Charged, Ids, DecisionFits, ReservationFits;
    SoundFrom(Adopted(j, p));
  }

  lemma ClearedSafe(v: View)
    requires GoodView(v) && (v.state.schema == 2 ==> v.state.reservations == [])
    ensures Safe(v, v.(state := v.state.(reservations := [])), {})
  {
    hide Good, Extends, Ids, Grows, ValidPolicy;
    SafeReflexive(v, {});
    if Good(v.state) {
      PolicyIsValid(v.state);
    }
    if Broken(v.state) || v.state.schema == 2 {
      assert v.state.(reservations := []) == v.state;
    } else {
      ReleasedKeeps(v.state, []);
      KeepsGrows(v.state, v.state.(reservations := []), {});
      SafeChange(v, v.state.(reservations := []), {});
    }
  }

  lemma AdoptSafe(v: View, p: Policy, w: ActivateWorld)
    requires GoodView(v) && ValidPolicy(p) && (v.state.schema == 2 ==> v.state.reservations == [])
    ensures Safe(v, Adopt(v, p, w).view, {})
  {
    hide Good, Extends, Ids, Grows, ValidPolicy;
    var cleared := v.(state := v.state.(reservations := []));
    ClearedSafe(v);
    if Good(v.state) {
      PolicyIsValid(v.state);
    }
    if !(p.RouterPolicy? && cleared.state.schema == 1 && Used(cleared.state)) && !(p.FixturePolicy? && cleared.state.schema == 2) {
      if Good(cleared.state) {
        AdoptedGood(cleared.state, p);
      } else {
        MendedGood(cleared.state, p);
      }
      ChangePersistSafe(cleared, Adopted(cleared.state, p), w.save, {});
      SafeTransitive(v, cleared, Persist(cleared.(state := Adopted(cleared.state, p)), false, w.save).view, {});
    }
  }

  lemma ActivateSafe(v: View, w: ActivateWorld)
    requires GoodView(v)
    ensures Safe(v, Activate(v, w).view, {})
  {
    hide Good, Extends, Ids, Grows;
    SafeReflexive(v, {});
    BeginSafe(v, w.entry, {});
    if Begin(v, w.entry).reply.Done? {
      ActivateBodySafe(v, w);
      RescueSafe(v, ActivateBody(v, w), w.rescue, {});
    }
  }

  lemma ActivateBodySafe(v: View, w: ActivateWorld)
    requires GoodView(v)
    ensures Safe(v, ActivateBody(v, w).view, {})
  {
    hide Good, Extends, Ids, Grows, ValidPolicy, Recover, Adopt;
    SafeReflexive(v, {});
    if !v.failed && v.state.phase == Closed {
      RecoverSafe(v, w.settlements);
      var recovered := if v.state.schema == 2 then Recover(v, w.settlements) else Turn(v, Done(()));
      var u := recovered.view;
      if recovered.reply.Done? {
        SafeReflexive(u, {});
        if !w.policy.Answered? {
          CallFailedSafe(u, w.policy, false, {});
        }
        if !w.quiescent.Answered? {
          CallFailedSafe(u, w.quiescent, false, {});
        }
        if w.policy.Answered? && ValidPolicy(w.policy.value) {
          AdoptSafe(u, w.policy.value, w);
        }
        SafeTransitive(v, u, ActivateBody(v, w).view, {});
      }
    }
  }

  // ---- replacement ----

  function Replaced(j: Journal, next: Policy): Journal {
    j.(policy := Some(next), fingerprint := Some(next), phase := Active)
  }

  lemma ReplacedKept(j: Journal, next: Policy)
    requires Good(j) && j.schema == 1 && j.policy.Some? && j.reservations == [] && ValidPolicy(next)
    ensures Kept(Replaced(j, next)) && Grows(j, Replaced(j, next), {})
    ensures next.FixturePolicy? ==> Good(Replaced(j, next))
  {
    if next.FixturePolicy? {
      AdoptedGood(j, next);
      assert Replaced(j, next) == Adopted(j, next);
    } else {
      ReplacedBroken(j, next);
      AdoptedExtends(j, next);
    }
  }

  lemma ReplacedBroken(j: Journal, next: Policy)
    requires Good(j) && j.schema == 1 && j.reservations == [] && ValidPolicy(next) && next.RouterPolicy?
    ensures Broken(Replaced(j, next))
  {
    hide ValidPolicy, CountsCover, CountsInRange;
  }

  lemma ReplacePolicySafe(v: View, next: Policy, w: ReplaceWorld)
    requires GoodView(v) && Good(v.state) && v.state.schema == 1 && v.state.policy.Some? && v.state.reservations == []
    requires ValidPolicy(next)
    ensures Safe(v, ReplacePolicy(v, next, w).view, {})
  {
    hide Good, Extends, Ids, Grows, ValidPolicy;
    PhaseSafe(v, Closed, {});
    if !w.answer.Answered? {
      CallFailedSafe(v, w.answer, true, {});
      PhaseSafe(CallFailed(v, w.answer, true), Closed, {});
      SafeTransitive(v, CallFailed(v, w.answer, true), InPhase(CallFailed(v, w.answer, true), Closed), {});
    } else {
      ReplacedKept(v.state, next);
      ChangePersistSafe(v, Replaced(v.state, next), w.saveActive, {});
    }
  }

  lemma DrainedReplaceSafe(v: View, next: Policy, w: ReplaceWorld)
    requires GoodView(v) && IsFixture(v.state) && ValidPolicy(next)
    ensures Safe(v, DrainedReplace(v, next, w).view, {})
  {
    hide Good, Extends, Ids, Grows, ValidPolicy, ReplacePolicy;
    SafeReflexive(v, {});
    FixtureIsGood(v);
    if !w.quiescent.Answered? {
      CallFailedSafe(v, w.quiescent, false, {});
    } else {
      ClearedSafe(v);
      var cleared := v.(state := v.state.(reservations := []));
      PhaseSafe(cleared, Mutating, {});
      var mutating := InPhase(cleared, Mutating);
      PersistSafe(mutating, false, w.saveMutating, {});
      var saved := Persist(mutating, false, w.saveMutating);
      SafeTransitive(v, cleared, mutating, {});
      SafeTransitive(v, mutating, saved.view, {});
      if saved.reply.Done? {
        FixtureIsGood(saved.view);
        ReplacePolicySafe(saved.view, next, w);
        SafeTransitive(v, saved.view, ReplacePolicy(saved.view, next, w).view, {});
      }
    }
  }

  predicate IsFixture(j: Journal) {
    j.policy.Some? && j.policy.value.FixturePolicy?
  }

  lemma FixtureIsGood(v: View)
    requires GoodView(v) && IsFixture(v.state)
    ensures Good(v.state) && v.state.schema == 1
  {
    hide Extends;
  }

  lemma ReplaceBodySafe(v: View, next: Policy, w: ReplaceWorld)
    requires GoodView(v)
    ensures Safe(v, ReplaceBody(v, next, w).view, {})
  {
    hide Good, Extends, Ids, Grows, ValidPolicy, DrainedReplace, Follows;
    SafeReflexive(v, {});
    PhaseSafe(v, Closed, {});
    PersistSafe(InPhase(v, Closed), false, w.saveDraining, {});
    SafeTransitive(v, InPhase(v, Closed), Persist(InPhase(v, Closed), false, w.saveDraining).view, {});
    PhaseSafe(v, Draining, {});
    var saved := Persist(InPhase(v, Draining), false, w.saveDraining);
    PersistSafe(InPhase(v, Draining), false, w.saveDraining, {});
    SafeTransitive(v, InPhase(v, Draining), saved.view, {});
    if v.state.policy.Some? && v.state.policy.value.FixturePolicy? && ValidPolicy(next) && Follows(next, v.state.policy.value) && saved.reply.Done? {
      DrainedReplaceSafe(saved.view, next, w);
      SafeTransitive(v, saved.view, DrainedReplace(saved.view, next, w).view, {});
    }
  }

  lemma DrainAndReplaceSafe(v: View, next: Policy, w: ReplaceWorld)
    requires GoodView(v)
    ensures Safe(v, DrainAndReplace(v, next, w).view, {})
  {
    hide Good, Extends, Ids, Grows;
    SafeReflexive(v, {});
    BeginSafe(v, w.entry, {});
    if Begin(v, w.entry).reply.Done? {
      ReplaceBodySafe(v, next, w);
      RescueSafe(v, ReplaceBody(v, next, w), w.rescue, {});
    }
  }

  // ---- opening and closing ----

  lemma EndCloseSafe(v: View, w: CloseWorld)
    requires GoodView(v)
    ensures Safe(v, EndClose(v, w).view, {})
  {
    hide Good, Extends, Ids, Grows;
    PhaseSafe(v, Closed, {});
    PersistSafe(InPhase(v, Closed), true, w.save, {});
    SafeTransitive(v, InPhase(v, Closed), Persist(InPhase(v, Closed), true, w.save).view, {});
  }

  /** Opening over a good file never refuses it, and starts closed with exactly what the file says; a broken one is refused
      and left alone. */
  lemma OpenedSafe(disk: Option<Journal>, generation: string, save: Save)
    requires disk.Some? ==> Kept(disk.value)
    ensures var t := Opened(disk, generation, save);
            && GoodView(t.view)
            && (t.reply.Denied? ==> save != Written || (disk.Some? && Broken(disk.value)))
            && (disk.Some? && Broken(disk.value) ==> t.reply.Denied?)
            && Grows(if disk.None? then INITIAL else disk.value, t.view.state, {})
            && (t.view.disk == disk || (t.view.disk.Some? && Grows(if disk.None? then INITIAL else disk.value, t.view.disk.value, {})))
            && (t.reply.Done? ==> t.view.disk == Some(t.view.state))
  {
    hide Good, Extends, Ids, ValidJournal, ValidPolicy, Grows, CountsInRange;
    InitialGood();
    var was := if disk.None? then INITIAL else disk.value;
    var state := was.(generation := generation, phase := Closed);
    KeptPhase(was, generation, Closed, {});
    DecisionsStay(state.decisions, state.decisions);
    OpenedView(disk, generation);
    if Good(was) {
      GoodIsValid(was);
    }
    if Broken(was) {
      BrokenIsRefused(was);
    }
    var v := View(state, state.decisions, false, Serving, false, disk);
    PersistSafe(v, false, save, {});
    SafeParts(v, Persist(v, false, save).view);
    GrowsTransitive(was, state, Persist(v, false, save).view.state, {});
    if Persist(v, false, save).view.disk != disk {
      GrowsTransitive(was, state, Persist(v, false, save).view.disk.value, {});
    }
  }

  lemma OpenedView(disk: Option<Journal>, generation: string)
    requires disk.Some? ==> Kept(disk.value)
    ensures var was := if disk.None? then INITIAL else disk.value;
            var state := was.(generation := generation, phase := Closed);
            GoodView(View(state, state.decisions, false, Serving, false, disk))
  {
    hide Good, Ids, ValidPolicy, CountsInRange;
    InitialGood();
    var was := if disk.None? then INITIAL else disk.value;
    KeptPhase(was, generation, Closed, {});
    DecisionsStay(was.decisions, was.decisions);
  }

  lemma SafeParts(v: View, later: View)
    requires Safe(v, later, {})
    ensures GoodView(later) && Grows(v.state, later.state, {})
    ensures later.disk == v.disk || (later.disk.Some? && Grows(v.state, later.disk.value, {}))
  {
    hide Good, Grows, GoodView;
  }

  lemma BrokenIsRefused(j: Journal)
    requires Broken(j)
    ensures !ValidJournal(j) && !Good(j)
  {
    hide ValidPolicy, CountsFit, DecisionsFit, ReservationsFit, LiveSucceeded;
  }

  lemma GoodIsValid(j: Journal)
    requires Good(j)
    ensures ValidJournal(j)
  {
  }

  lemma InitialGood()
    ensures Good(INITIAL) && IdsIn(INITIAL) == {}
  {
  }
}
