/** What the handlers and the gate do together, event by event: how often a request goes upstream, how many reservations an
    attempt can hold, and who may free the place of a request that may still run upstream
    (`experiments/inference-boundary/boundary.ts:118-225`, `experiments/inference-boundary/policy.ts:264-341`). */
module BoundaryRuns {
  import opened Text
  import opened Journals
  import opened JournalSteps
  import opened GateModel
  import opened GateInvariant
  import opened GateExact
  import opened GateLimits
  import opened GateHolds
  import opened Boundary
  import T = BoundaryTheorems

  // ---- limits ----

  ghost predicate LimitedSystem(s: Sys) {
    (s.view.disk.Some? ==> Limited(s.view.disk.value)) && (s.alive ==> LimitedView(s.view))
  }

  lemma StepLimited(s: Sys, e: Event)
    requires LimitedSystem(s)
    ensures LimitedSystem(Next(s, e))
  {
    hide Limited, Opened, GateModel.Admit, GateModel.MarkSend, GateModel.Finalize, GateModel.Finish, GateModel.Activate,
         GateModel.DrainAndReplace, EndClose, AssertRelease, RequestId;
    match e
    case Open(generation, save) => OpenedLimited(s.view.disk, generation, save);
    case StartClosing =>
    case Close(w) => if s.alive { CloseLimited(s.view, w); }
    case Activate(w) => if s.alive { ActivateLimited(s.view, w); }
    case Replace(next, w) => if s.alive { DrainAndReplaceLimited(s.view, next, w); }
    case Admit(h, b, digest, w) => if s.alive { AdmitLimited(s.view, b, digest, w); }
    case MarkSend(h, w) => if h in s.handlers && s.alive { MarkSendLimited(s.view, s.handlers[h].requestId, w); }
    case Finalize(h, digest, w) => if h in s.handlers && s.alive { FinalizeLimited(s.view, s.handlers[h].requestId, digest, w); }
    case Finish(h, outcome, w) =>
      if h in s.handlers && s.alive {
        FinishLimited(s.view, s.handlers[h].requestId, outcome, s.handlers[h].requestId !in s.sent, w);
      }
    case _ =>
  }

  /** After every run no attempt holds more reservations than the policy in force allows, in memory and on disk. */
  lemma {:induction false} RunsAreLimited(events: seq<Event>)
    ensures LimitedSystem(After(events))
  {
    hide Next;
    if |events| > 0 {
      RunsAreLimited(events[..|events| - 1]);
      StepLimited(After(events[..|events| - 1]), events[|events| - 1]);
    }
  }

  /** The same in numbers. */
  lemma AttemptsWithinConcurrency(events: seq<Event>, attemptId: string)
    ensures var s := After(events);
            && (s.alive && s.view.state.policy.Some? ==>
                  |PlacesOf(s.view.state.reservations, attemptId)| <= s.view.state.policy.value.limits.concurrency)
            && (s.view.disk.Some? && s.view.disk.value.policy.Some? ==>
                  |PlacesOf(s.view.disk.value.reservations, attemptId)| <= s.view.disk.value.policy.value.limits.concurrency)
  {
    hide After, PlacesOf;
    RunsAreLimited(events);
    var s := After(events);
    ReservedForCounts(s.view.state.reservations, attemptId);
    if s.view.disk.Some? {
      ReservedForCounts(s.view.disk.value.reservations, attemptId);
    }
  }

  // ---- handlers ----

  predicate InStep(x: Handler, sent: set<string>) {
    && (x.pc in {Admitted, Marked} ==> x.requestId !in sent)
    && (x.pc in {Forwarded, Finalized} ==> x.requestId in sent)
    && (x.pc in {Marked, Finalized} ==> x.routed)
  }

  ghost predicate Disciplined(s: Sys) {
    && (forall h | h in s.handlers :: InStep(s.handlers[h], s.sent))
    && (forall h | h in s.handlers && s.handlers[h].pc != Arrived :: s.handlers[h].requestId in s.issued)
    && (forall g, h | g in s.handlers && h in s.handlers && g != h && s.handlers[g].pc != Arrived && s.handlers[h].pc != Arrived ::
          s.handlers[g].requestId != s.handlers[h].requestId)
    && (forall id | id in s.sent :: id in s.issued)
    && s.released <= s.sent
  }

  /** One handler moves on, or leaves. */
  lemma MoveDisciplined(s: Sys, h: nat, pc: Pc)
    requires Disciplined(s) && h in s.handlers && s.handlers[h].pc != Arrived && pc != Arrived
    requires InStep(s.handlers[h].(pc := pc), s.sent)
    ensures Disciplined(At(s, h, pc))
  {
  }

  lemma LeaveDisciplined(s: Sys, later: Sys)
    requires Disciplined(s) && later.sent == s.sent && later.issued == s.issued && later.released == s.released
    requires forall h | h in later.handlers :: h in s.handlers && later.handlers[h] == s.handlers[h]
    ensures Disciplined(later)
  {
  }

  lemma ArriveDisciplined(s: Sys, h: nat)
    requires Disciplined(s)
    ensures Disciplined(ArriveStep(s, h))
  {
  }

  lemma AdmitDisciplined(s: Sys, h: nat, b: Binding, requestDigest: Option<string>, w: AdmitWorld)
    requires Disciplined(s)
    ensures Disciplined(AdmitStep(s, h, b, requestDigest, w))
  {
    hide GateModel.Admit, RequestId;
  }

  lemma MarkDisciplined(s: Sys, h: nat, w: SendWorld)
    requires Disciplined(s)
    ensures Disciplined(MarkStep(s, h, w))
  {
    hide GateModel.MarkSend, Disciplined;
    if h in s.handlers && s.handlers[h].pc == Admitted && s.handlers[h].routed {
      InStepOf(s, h);
      var t := GateModel.MarkSend(s.view, s.handlers[h].requestId, w);
      ViewDisciplined(s, t.view);
      MoveDisciplined(s, h, Ending);
      MoveDisciplined(s.(view := t.view), h, if t.reply.Done? then Marked else Ending);
    }
  }

  lemma InStepOf(s: Sys, h: nat)
    requires Disciplined(s) && h in s.handlers
    ensures InStep(s.handlers[h], s.sent)
  {
  }

  lemma ViewDisciplined(s: Sys, later: View)
    requires Disciplined(s)
    ensures Disciplined(s.(view := later))
  {
  }

  lemma ForwardDisciplined(s: Sys, h: nat)
    requires Disciplined(s)
    ensures Disciplined(ForwardStep(s, h))
  {
  }

  lemma FinalizeDisciplined(s: Sys, h: nat, completionDigest: string, w: FinalizeWorld)
    requires Disciplined(s)
    ensures Disciplined(FinalizeStep(s, h, completionDigest, w))
  {
    hide GateModel.Finalize, Disciplined;
    if h in s.handlers && s.handlers[h].pc == Forwarded && s.handlers[h].routed {
      InStepOf(s, h);
      var t := GateModel.Finalize(s.view, s.handlers[h].requestId, completionDigest, w);
      ViewDisciplined(s, t.view);
      MoveDisciplined(s, h, Ending);
      MoveDisciplined(s.(view := t.view), h, if t.reply.Done? then Finalized else Ending);
    }
  }

  lemma ReleaseDisciplined(s: Sys, h: nat, authorityCurrent: bool)
    requires Disciplined(s)
    ensures Disciplined(ReleaseStep(s, h, authorityCurrent))
  {
    hide AssertRelease, Disciplined;
    if h in s.handlers && s.handlers[h].pc in {Forwarded, Finalized} {
      InStepOf(s, h);
      ReleasedDisciplined(s, s.handlers[h].requestId);
      MoveDisciplined(s, h, Ending);
    }
  }

  lemma ReleasedDisciplined(s: Sys, id: string)
    requires Disciplined(s) && id in s.sent
    ensures Disciplined(s.(released := s.released + {id}))
  {
  }

  lemma FailDisciplined(s: Sys, h: nat)
    requires Disciplined(s)
    ensures Disciplined(FailStep(s, h))
  {
    hide Disciplined;
    if h in s.handlers {
      LeaveDisciplined(s, s.(handlers := s.handlers - {h}));
      if s.handlers[h].pc != Arrived {
        MoveDisciplined(s, h, Ending);
      }
    }
  }

  lemma FinishDisciplined(s: Sys, h: nat, outcome: Outcome, w: FinishWorld)
    requires Disciplined(s)
    ensures Disciplined(FinishStep(s, h, outcome, w))
  {
    hide Disciplined, GateModel.Finish;
    if h in s.handlers {
      LeaveDisciplined(s, s.(handlers := s.handlers - {h}));
      ViewDisciplined(s.(handlers := s.handlers - {h}), GateModel.Finish(s.view, s.handlers[h].requestId, outcome, s.handlers[h].requestId !in s.sent, w).view);
    }
  }

  lemma StepDisciplined(s: Sys, e: Event)
    requires Disciplined(s)
    ensures Disciplined(Next(s, e))
  {
    hide ArriveStep, AdmitStep, MarkStep, ForwardStep, FinalizeStep, ReleaseStep, FailStep, FinishStep, Opened, GateModel.Activate,
         GateModel.DrainAndReplace, EndClose, BeginClose, InStep;
    match e
    case Open(generation, save) => LeaveDisciplined(s, OpenStep(s, generation, save));
    case Crash => LeaveDisciplined(s, CrashStep(s));
    case StartClosing => LeaveDisciplined(s, Next(s, e));
    case Close(w) => LeaveDisciplined(s, Next(s, e));
    case Activate(w) => LeaveDisciplined(s, Next(s, e));
    case Replace(next, w) => LeaveDisciplined(s, Next(s, e));
    case Arrive(h) => ArriveDisciplined(s, h);
    case Admit(h, b, digest, w) => AdmitDisciplined(s, h, b, digest, w);
    case MarkSend(h, w) => MarkDisciplined(s, h, w);
    case Forward(h) => ForwardDisciplined(s, h);
    case Finalize(h, digest, w) => FinalizeDisciplined(s, h, digest, w);
    case Release(h, authorityCurrent) => ReleaseDisciplined(s, h, authorityCurrent);
    case Fail(h) => FailDisciplined(s, h);
    case Finish(h, outcome, w) => FinishDisciplined(s, h, outcome, w);
  }

  lemma {:induction false} RunsAreDisciplined(events: seq<Event>)
    ensures Disciplined(After(events))
  {
    hide Next;
    if |events| > 0 {
      RunsAreDisciplined(events[..|events| - 1]);
      StepDisciplined(After(events[..|events| - 1]), events[|events| - 1]);
    }
  }

  /** A request goes upstream at most once, only by the handler that was admitted under its id, and what was released was sent. */
  lemma SentOnce(events: seq<Event>, e: Event, id: string)
    ensures After(events).released <= After(events).sent
    ensures id in Next(After(events), e).sent && id !in After(events).sent ==>
              e.Forward? && e.h in After(events).handlers && After(events).handlers[e.h].requestId == id
    ensures e.Forward? && e.h in After(events).handlers && Next(After(events), e) != After(events) ==>
              After(events).handlers[e.h].requestId !in After(events).sent && After(events).handlers[e.h].pc in {Admitted, Marked}
  {
    hide After, Opened, GateModel.Admit, GateModel.MarkSend, GateModel.Finalize, GateModel.Finish, GateModel.Activate,
         GateModel.DrainAndReplace, EndClose, AssertRelease, RequestId, BeginClose;
    RunsAreDisciplined(events);
    var s := After(events);
    if e.Forward? && e.h in s.handlers {
      InStepOf(s, e.h);
    }
  }

  // ---- places ----

  /** The event brought the authority's word that work is quiescent. */
  predicate FreedByAuthority(e: Event) {
    match e
    case Admit(_, _, _, w) => w.retired == Answered(true)
    case Activate(w) => w.quiescent == Answered(true)
    case Replace(_, w) => w.quiescent == Answered(true)
    case Finish(_, _, w) => w.quiescent == Answered(true)
    case _ => false
  }

  lemma AliveIsDistinct(s: Sys)
    requires Inv(s) && s.alive
    ensures DistinctReservations(s.view.state.reservations)
  {
    AliveIsGood(s);
    GoodIsDistinct(s.view.state);
  }

  lemma GoodIsDistinct(j: Journal)
    requires Kept(j)
    ensures DistinctReservations(j.reservations)
  {
    hide ReservationFits, DecisionsFit, CountsFit, LiveSucceeded, HeaderFits;
  }

  lemma StepHolds(s: Sys, e: Event, id: string)
    requires Inv(s) && s.alive && id in s.sent && Held(s.view, id) && !FreedByAuthority(e)
    ensures Held(Next(s, e).view, id)
  {
    hide Inv, HeldPlain, Opened, GateModel.Admit, GateModel.MarkSend, GateModel.Finalize, GateModel.Finish, GateModel.Activate,
         GateModel.DrainAndReplace, EndClose, AssertRelease, RequestId;
    AliveIsDistinct(s);
    match e
    case Close(w) => CloseHolds(s.view, w, id);
    case Activate(w) => ActivateHolds(s.view, w, id);
    case Replace(next, w) => DrainAndReplaceHolds(s.view, next, w, id);
    case Admit(h, b, digest, w) => AdmitHolds(s.view, b, digest, w, id);
    case MarkSend(h, w) => if h in s.handlers { MarkSendHolds(s.view, s.handlers[h].requestId, w, id); }
    case Finalize(h, digest, w) => if h in s.handlers { FinalizeHolds(s.view, s.handlers[h].requestId, digest, w, id); }
    case Finish(h, outcome, w) =>
      if h in s.handlers {
        FinishHolds(s.view, s.handlers[h].requestId, outcome, s.handlers[h].requestId !in s.sent, w, id);
      }
    case _ =>
  }

  /** In every run: the place of a request that went upstream under the fixture policy is freed only by an event in which the
      authority says that the work is quiescent. */
  lemma PlaceFreedByAuthority(events: seq<Event>, e: Event, id: string)
    requires After(events).alive && id in After(events).sent && Held(After(events).view, id)
    ensures !FreedByAuthority(e) ==> Held(After(events + [e]).view, id)
  {
    hide After, Inv, Next, HeldPlain;
    RunsKeep(events);
    assert (events + [e])[..|events|] == events;
    T.LastOf(events + [e]);
    if !FreedByAuthority(e) {
      StepHolds(After(events), e, id);
    }
  }

  /** What the end of a handler does to a reservation without a router record, in every reachable state with the gate in service:
      it is gone exactly if the request was never sent or the authority called it quiescent; and if the write succeeds the
      file says the same. */
  lemma FinishFreesExactly(events: seq<Event>, h: nat, outcome: Outcome, w: FinishWorld)
    requires var s := After(events);
             && Served(s, h) && s.handlers[h].pc !in {Arrived, Admitted, Marked} && LetIn(s.view, w.entry)
             && Held(s.view, s.handlers[h].requestId)
    ensures var s, later := After(events), After(events + [Finish(h, outcome, w)]).view;
            var id := s.handlers[h].requestId;
            && (Held(later, id) <==> id in s.sent && w.quiescent != Answered(true))
            && (w.save == Written && (id !in s.sent || w.quiescent.Answered?) ==> later.disk == Some(later.state))
  {
    hide After, Inv, HeldPlain, GateModel.Finish;
    var s, e := After(events), Finish(h, outcome, w);
    var id := s.handlers[h].requestId;
    RunsKeep(events);
    AliveIsDistinct(s);
    assert (events + [e])[..|events|] == events;
    T.LastOf(events + [e]);
    HeldHoldsAt(s.view.state.reservations, id);
    var at := FindReservation(s.view.state.reservations, id).value;
    FinishExact(s.view, id, at, outcome, id !in s.sent, w);
    DroppedIsGone(s.view.state.reservations, at, id);
    HeldReplaced(s.view.state.reservations, at, WithEnding(s.view.state.reservations[at], outcome), id);
  }

  lemma HeldHoldsAt(rs: seq<Reservation>, id: string)
    requires HeldPlain(rs, id) && DistinctReservations(rs)
    ensures var at := FindReservation(rs, id); at.Some? && HoldsAt(rs, id, at.value) && rs[at.value].router.None?
  {
    FirstFound(rs, id);
    var i :| 0 <= i < |rs| && rs[i].requestId == id && rs[i].router.None?;
  }

  lemma DroppedIsGone(rs: seq<Reservation>, i: nat, id: string)
    requires DistinctReservations(rs) && i < |rs| && rs[i].requestId == id
    ensures !HeldPlain(Dropped(rs, i), id)
  {
    var later := Dropped(rs, i);
    forall k | 0 <= k < |later| ensures later[k].requestId != id {
      assert later[k] == if k < i then rs[k] else rs[k + 1];
    }
  }
}
