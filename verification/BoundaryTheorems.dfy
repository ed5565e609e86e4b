/** What holds after every run of handlers, gate, operator and crashes. */
module BoundaryTheorems {
  import opened Text
  import opened Receipts
  import opened Journals
  import opened JournalSteps
  import opened GateModel
  import opened GateInvariant
  import opened GateSync
  import opened Boundary

  /** The one thing that makes a journal of the gate unacceptable: a router policy under schema 1. */
  predicate Mismatched(j: Journal) {
    j.schema == 1 && j.policy.Some? && j.policy.value.RouterPolicy?
  }

  /** After every run, whatever writes failed, whatever the authority answered and wherever the process died: the journal on
      disk, and the one in memory, is accepted exactly if it does not hold a router policy under schema 1; and exactly then
      the next open that can write succeeds. */
  lemma EveryJournalIsAccepted(events: seq<Event>, generation: string)
    ensures var s := After(events);
            && (s.view.disk.Some? ==> (ValidJournal(s.view.disk.value) <==> !Mismatched(s.view.disk.value)))
            && (s.alive ==> (ValidJournal(s.view.state) <==> !Mismatched(s.view.state)))
            && (Opened(s.view.disk, generation, Written).reply.Done? <==> !(s.view.disk.Some? && Mismatched(s.view.disk.value)))
  {
    hide After, Good, ValidJournal, Broken;
    RunsKeep(events);
    var s := After(events);
    if s.view.disk.Some? {
      KeptIsAccepted(s.view.disk.value);
    }
    if s.alive {
      KeptIsAccepted(s.view.state);
    }
    OpenedSafe(s.view.disk, generation, Written);
  }

  lemma KeptIsAccepted(j: Journal)
    requires Kept(j)
    ensures ValidJournal(j) <==> !Mismatched(j)
    ensures Broken(j) <==> Mismatched(j)
  {
    hide ValidJournal, ValidPolicy, CountsInRange;
    if Good(j) {
      GoodIsValid(j);
      PolicyIsValid(j);
    } else {
      BrokenIsRefused(j);
    }
  }

  lemma NeverSentExcludesMayBeSent(j: Journal, k: nat)
    requires Kept(j) && k < |j.decisions| && j.decisions[k].verdict == NeverSent
    ensures !MayBeSentIn(j, j.decisions[k].requestId) && j.schema == 2 && j.decisions[k].requestId in IdsIn(j)
  {
    var d := j.decisions[k];
    PolicyIsValid(j);
    assert d.requestId in DecidedIds(j.decisions);
    assert DecisionFits(d) && AgreesWithAll(d, j.reservations);
  }

  /** A request ruled `never_sent`, in memory or on disk, was never transmitted. */
  lemma NeverSentIsTrue(events: seq<Event>)
    ensures var s := After(events);
            && (s.view.disk.Some? ==> forall d | d in s.view.disk.value.decisions && d.verdict == NeverSent :: d.requestId !in s.sent)
            && (s.alive ==> forall d | d in s.view.state.decisions && d.verdict == NeverSent :: d.requestId !in s.sent)
  {
    hide After, Good, ValidJournal, MayBeSent, Ids;
    RunsKeep(events);
    var s := After(events);
    if s.view.disk.Some? {
      var j := s.view.disk.value;
      forall k | 0 <= k < |j.decisions| && j.decisions[k].verdict == NeverSent ensures j.decisions[k].requestId !in s.sent {
        NeverSentExcludesMayBeSent(j, k);
      }
    }
    if s.alive {
      var j := s.view.state;
      forall k | 0 <= k < |j.decisions| && j.decisions[k].verdict == NeverSent ensures j.decisions[k].requestId !in s.sent {
        NeverSentExcludesMayBeSent(j, k);
      }
    }
  }

  /** A request transmitted under a router policy is marked on disk as possibly sent before it leaves, and for good. */
  lemma TransmittedIsMarked(events: seq<Event>, id: string)
    ensures var s := After(events);
            id in s.sent ==> id in s.issued && (s.issued[id] ==> s.view.disk.Some? && MayBeSentIn(s.view.disk.value, id))
  {
    hide After, Good, MayBeSent, Ids;
    RunsKeep(events);
  }

  /** Completion frames of a router request have left only if its success is on disk. */
  lemma ReleasedIsDurable(events: seq<Event>, id: string)
    ensures var s := After(events);
            id in s.released ==> id in s.issued && (s.issued[id] ==> s.view.disk.Some? && HasSuccess(s.view.disk.value.decisions, id))
  {
    hide After, Good, MayBeSent, Ids, HasSuccess;
    RunsKeep(events);
  }

  /** No continuation of a run, through crashes, failed writes and reopenings, takes back a ruling, a send mark or a
      charge that is on disk. */
  lemma {:induction false} DiskIsMonotone(events: seq<Event>, more: seq<Event>)
    ensures DiskGrows(After(events).view.disk, After(events + more).view.disk)
    decreases |more|
  {
    hide Good, Extends, Inv, Next;
    if |more| == 0 {
      assert events + more == events;
      Unmoved(After(events));
    } else {
      var init, last := more[..|more| - 1], more[|more| - 1];
      assert (events + more)[..|events + more| - 1] == events + init;
      DiskIsMonotone(events, init);
      RunsKeep(events + init);
      assert last == (events + more)[|events + more| - 1];
      NextKeeps(After(events + init), last);
      DiskGrowsTransitive(After(events).view.disk, After(events + init).view.disk, After(events + more).view.disk);
    }
  }

  lemma DiskGrowsTransitive(a: Option<Journal>, b: Option<Journal>, c: Option<Journal>)
    requires DiskGrows(a, b) && DiskGrows(b, c)
    ensures DiskGrows(a, c)
  {
    if a.Some? {
      ExtendsTransitive(a.value, b.value, c.value);
    }
  }

  /** Once on disk, a success stays on disk. */
  lemma SuccessIsForever(events: seq<Event>, more: seq<Event>, id: string)
    requires After(events).view.disk.Some? && HasSuccess(After(events).view.disk.value.decisions, id)
    ensures After(events + more).view.disk.Some? && HasSuccess(After(events + more).view.disk.value.decisions, id)
  {
    hide After, Extends, HasSuccess;
    DiskIsMonotone(events, more);
    PromisesStay(After(events).view.disk, After(events + more).view.disk, id);
  }

  /** Under schema 2 an attempt's count is exactly the number of its distinct requests, the journal knows at most 64
      requests, and ruling on a live request is never refused for lack of room. */
  lemma ChargesAreExact(events: seq<Event>)
    ensures var s := After(events);
            && (s.view.disk.Some? ==> ExactlyCharged(s.view.disk.value))
            && (s.alive ==> ExactlyCharged(s.view.state))
  {
    hide After, MayBeSent, ValidJournal, Ids, Charged;
    RunsKeep(events);
    var s := After(events);
    if s.view.disk.Some? && Good(s.view.disk.value) {
      GoodIsExact(s.view.disk.value);
    }
    if s.alive && Good(s.view.state) {
      GoodIsExact(s.view.state);
    }
  }

  ghost predicate ExactlyCharged(j: Journal) {
    j.schema == 2 ==>
      && (forall a :: |Charged(j.reservations, j.decisions, a)| == CountOf(j.counts, a))
      && |Ids(j.reservations, j.decisions)| <= MAX_DECISIONS
      && (forall i, evidence, verdict, digest | 0 <= i < |j.reservations| && j.reservations[i].router.Some? ::
            Recorded(j, i, evidence, verdict, digest).Some?)
  }

  lemma GoodIsExact(j: Journal)
    requires Good(j)
    ensures ExactlyCharged(j)
  {
    hide Ids, Charged, ValidJournal;
    if j.schema == 2 {
      forall i, evidence, verdict, digest | 0 <= i < |j.reservations| && j.reservations[i].router.Some?
        ensures Recorded(j, i, evidence, verdict, digest).Some?
      {
        if FindDecision(j.decisions, j.reservations[i].requestId).None? {
          NeverFull(j, i);
        }
      }
    }
  }

  /** A snapshot shows only rulings that are on disk, even while memory is ahead of the file. */
  lemma SnapshotIsDurable(events: seq<Event>)
    ensures var s := After(events);
            s.alive && s.view.durable != [] ==> s.view.disk.Some? && AllStillDecided(s.view.durable, s.view.disk.value.decisions)
  {
    hide After, Good, Extends, AllStillDecided;
    RunsKeep(events);
  }

  // ---- release ----

  lemma StepSynced(s: Sys, e: Event)
    requires s.alive ==> Synced(s.view)
    ensures Next(s, e).alive ==> Synced(Next(s, e).view)
  {
    hide Synced, Opened, GateModel.Admit, GateModel.MarkSend, GateModel.Finalize, GateModel.Finish, GateModel.Activate, DrainAndReplace,
         EndClose, AssertRelease, RequestId, FinishStep;
    match e
    case Open(generation, save) => OpenedSynced(s.view.disk, generation, save);
    case StartClosing => ClosingSynced(s.view);
    case Activate(w) => if s.alive { ActivateSynced(s.view, w); }
    case Replace(next, w) => if s.alive { DrainAndReplaceSynced(s.view, next, w); }
    case Admit(h, b, digest, w) => if s.alive { AdmitSynced(s.view, b, digest, w); }
    case MarkSend(h, w) => if h in s.handlers && s.alive { MarkSendSynced(s.view, s.handlers[h].requestId, w); }
    case Finalize(h, digest, w) => if h in s.handlers && s.alive { FinalizeSynced(s.view, s.handlers[h].requestId, digest, w); }
    case Finish(h, outcome, w) => FinishStepSynced(s, h, outcome, w);
    case _ =>
  }

  lemma FinishStepSynced(s: Sys, h: nat, outcome: Outcome, w: FinishWorld)
    requires s.alive ==> Synced(s.view)
    ensures FinishStep(s, h, outcome, w).alive ==> Synced(FinishStep(s, h, outcome, w).view)
  {
    hide Synced, GateModel.Finish;
    if h in s.handlers && s.alive {
      FinishSynced(s.view, s.handlers[h].requestId, outcome, s.handlers[h].requestId !in s.sent, w);
    }
  }

  lemma ClosingSynced(v: View)
    ensures Synced(v) ==> Synced(BeginClose(v))
  {
  }

  lemma {:induction false} RunsAreSynced(events: seq<Event>)
    ensures After(events).alive ==> Synced(After(events).view)
  {
    hide Next;
    if |events| > 0 {
      RunsAreSynced(events[..|events| - 1]);
      StepSynced(After(events[..|events| - 1]), events[|events| - 1]);
    }
  }

  /** What `assertRelease` answers in every reachable state of schema 2: yes exactly if the gate is usable and in service, the
      request still holds its routed reservation, the authority is current, and the success is on disk. */
  lemma AssertedIsDurable(events: seq<Event>, id: string, authorityCurrent: bool)
    requires After(events).alive && After(events).view.state.schema == 2
    ensures var v := After(events).view;
            AssertRelease(v, id, authorityCurrent).Done? <==>
              && Usable(v) && (v.state.phase == Active || v.state.phase == Draining) && authorityCurrent
              && RoutedNow(v.state.reservations, id)
              && v.disk.Some? && HasSuccess(v.disk.value.decisions, id)
  {
    hide After;
    RunsAreSynced(events);
  }

  // ---- replacement by a router policy ----

  ghost predicate Accepted(disk: Option<Journal>) {
    disk.Some? ==> ValidJournal(disk.value)
  }

  /** A replacement call that can go through, over an acceptable file, leaves an acceptable file in every world exactly when
      the proposed policy is a fixture policy: over a schema 1 journal a router policy is adopted without changing the
      schema. */
  lemma ReplacementExact(v: View, next: Policy)
    requires GoodView(v) && Accepted(v.disk) && Usable(v) && IsFixture(v.state)
    requires v.state.phase == Active || v.state.phase == Draining
    requires ValidPolicy(next) && Follows(next, v.state.policy.value)
    requires forall i | 0 <= i < |v.state.reservations| :: v.state.reservations[i].outcome.Some?
    ensures (forall w :: Accepted(DrainAndReplace(v, next, w).view.disk)) <==> next.FixturePolicy?
  {
    hide Good, ValidJournal, Extends, ValidPolicy, ReplaceBody, DrainAndReplace, Kept;
    if next.FixturePolicy? {
      forall w ensures Accepted(DrainAndReplace(v, next, w).view.disk) {
        DrainAndReplaceSafe(v, next, w);
        FixtureOnDisk(v, next, w);
        var disk := DrainAndReplace(v, next, w).view.disk;
        if disk.Some? && disk != v.disk {
          KeptIsAccepted(disk.value);
        }
      }
    } else {
      FixtureIsGood(v);
      BadReplacement(v, next);
    }
  }

  /** Whatever a replacement by a fixture policy writes holds a fixture policy. */
  lemma FixtureOnDisk(v: View, next: Policy, w: ReplaceWorld)
    requires IsFixture(v.state) && next.FixturePolicy?
    ensures var disk := DrainAndReplace(v, next, w).view.disk; disk == v.disk || (disk.Some? && IsFixture(disk.value))
  {
    hide ReplaceBody, ValidPolicy;
    ReplaceBodyOnDisk(v, next, w);
  }

  lemma ReplaceBodyOnDisk(v: View, next: Policy, w: ReplaceWorld)
    requires IsFixture(v.state) && next.FixturePolicy?
    ensures var later := ReplaceBody(v, next, w).view;
            IsFixture(later.state) && (later.disk == v.disk || (later.disk.Some? && IsFixture(later.disk.value)))
  {
    hide ValidPolicy, Follows, DrainedReplace, Persist;
    PersistOnDisk(InPhase(v, Draining), w.saveDraining);
    var saved := Persist(InPhase(v, Draining), false, w.saveDraining);
    DrainedOnDisk(saved.view, next, w);
  }

  lemma PersistOnDisk(v: View, save: Save)
    requires IsFixture(v.state)
    ensures var later := Persist(v, false, save).view;
            IsFixture(later.state) && (later.disk == v.disk || (later.disk.Some? && IsFixture(later.disk.value)))
  {
  }

  lemma DrainedOnDisk(v: View, next: Policy, w: ReplaceWorld)
    requires IsFixture(v.state) && next.FixturePolicy?
    ensures var later := DrainedReplace(v, next, w).view;
            IsFixture(later.state) && (later.disk == v.disk || (later.disk.Some? && IsFixture(later.disk.value)))
  {
    hide Persist;
    var mutating := v.(state := v.state.(reservations := [], phase := Mutating));
    PersistOnDisk(mutating, w.saveMutating);
    var saved := Persist(mutating, false, w.saveMutating).view;
    PersistOnDisk(saved.(state := Replaced(saved.state, next)), w.saveActive);
  }

  const SMOOTH := (next: Policy) => ReplaceWorld(Enter, Written, Answered(true), Written, Answered(next), Written, None)

  lemma BadReplacement(v: View, next: Policy)
    requires Usable(v) && v.state.policy.Some? && v.state.policy.value.FixturePolicy? && v.state.schema == 1
    requires v.state.phase == Active || v.state.phase == Draining
    requires ValidPolicy(next) && Follows(next, v.state.policy.value) && next.RouterPolicy?
    requires forall i | 0 <= i < |v.state.reservations| :: v.state.reservations[i].outcome.Some?
    ensures DrainAndReplace(v, next, SMOOTH(next)).reply == Done(true)
    ensures !Accepted(DrainAndReplace(v, next, SMOOTH(next)).view.disk)
  {
    hide ValidPolicy, CountsFit, DecisionsFit, ReservationsFit;
  }

  const LIMITS := Limits(1, 8)
  const FIXTURE := FixturePolicy("router", "coding", "p1", 1, "model", LIMITS)
  const NODE := "openai-compatible-a"
  const EDGE := Edge("openai-compatible-a/m", NODE, "m", ["c"])
  const GRAPH := Graph([Connection("c", NODE, true)], [Route("coding", "model", [EDGE])])
  const ROUTER := RouterPolicy("router", "coding", "p2", 2, "model", LIMITS, RouterText, GRAPH,
                               AuthorityIdentity("d", "00000000-0000-0000-0000-000000000000", 1, "p2"))
  const BREAKING_RUN := [
    Open("g", Written),
    Activate(ActivateWorld(Enter, [], Answered(FIXTURE), Answered(true), true, Written, None)),
    Replace(ROUTER, SMOOTH(ROUTER))]

  /** A run that leaves a file the next open refuses. */
  lemma RouterReplacementBreaks(generation: string, save: Save)
    ensures !Accepted(After(BREAKING_RUN).view.disk)
    ensures Opened(After(BREAKING_RUN).view.disk, generation, save).reply == Denied(BoundaryClosed)
  {
    hide After, ValidJournal, ValidPolicy, Next, FIXTURE, ROUTER, Opened;
    ActiveRun();
    var two := BREAKING_RUN[..2];
    LastStep(generation, save);
    assert ValidPolicy(ROUTER) by {
      PoliciesValid();
    }
    BadReplacement(After(two).view, ROUTER);
    RefusedAtOpen(After(BREAKING_RUN).view.disk, generation, save);
  }

  lemma PoliciesValid()
    ensures ValidPolicy(FIXTURE) && ValidPolicy(ROUTER) && Follows(ROUTER, FIXTURE)
  {
    hide ValidGraph, ValidIdentity, Reference, FixtureModel, RouterReference;
    NamesValid();
    IdentityValid();
    GraphValid();
  }

  lemma NamesValid()
    ensures Reference("router") && Reference("coding") && Reference("p1") && Reference("p2")
    ensures FixtureModel("model") && RouterReference("model")
  {
  }

  lemma IdentityValid()
    ensures ValidIdentity(ROUTER.authority)
  {
  }

  lemma GraphValid()
    ensures ValidGraph(GRAPH, false)
  {
    assert NODE[..|NODE_PREFIX|] == NODE_PREFIX;
    assert ProviderConnections(GRAPH.connections[1..], NODE) == [];
    assert EDGE.member == NODE + "/" + "m";
    assert ValidEdge(EDGE, GRAPH.connections, false);
  }

  lemma RefusedAtOpen(disk: Option<Journal>, generation: string, save: Save)
    requires !Accepted(disk)
    ensures Opened(disk, generation, save).reply == Denied(BoundaryClosed)
  {
    hide ValidJournal;
  }

  lemma OpenedRun()
    ensures var ready := After(BREAKING_RUN[..1]);
            ready.alive && Usable(ready.view) && ready.view.state == INITIAL.(generation := "g")
  {
    hide ValidPolicy, FIXTURE, ROUTER;
    var one := BREAKING_RUN[..1];
    assert one[..0] == [] && one[0] == Open("g", Written);
    assert After([]) == START;
  }

  lemma ActiveRun()
    ensures var active := After(BREAKING_RUN[..2]);
            && active.alive && Usable(active.view) && active.view.state.schema == 1
            && active.view.state.policy == Some(FIXTURE) && active.view.state.phase == Active && active.view.state.reservations == []
            && Follows(ROUTER, FIXTURE) && ROUTER.RouterPolicy? && FIXTURE.FixturePolicy?
  {
    hide After, ValidPolicy, ValidJournal;
    PoliciesValid();
    OpenedRun();
    var two := BREAKING_RUN[..2];
    assert two[..1] == BREAKING_RUN[..1] && two[1] == BREAKING_RUN[1];
    LastOf(two);
  }

  lemma NoEvents()
    ensures After([]) == START
  {
  }

  lemma LastOf(events: seq<Event>)
    requires |events| > 0
    ensures After(events) == Next(After(events[..|events| - 1]), events[|events| - 1])
  {
    hide Next;
  }

  lemma LastStep(generation: string, save: Save)
    requires After(BREAKING_RUN[..2]).alive
    ensures After(BREAKING_RUN).view == DrainAndReplace(After(BREAKING_RUN[..2]).view, ROUTER, SMOOTH(ROUTER)).view
  {
    hide After, DrainAndReplace, FIXTURE, ROUTER, SMOOTH;
    LastOf(BREAKING_RUN);
    assert BREAKING_RUN[..|BREAKING_RUN| - 1] == BREAKING_RUN[..2];
  }
}
