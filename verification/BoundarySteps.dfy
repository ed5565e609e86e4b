/** When exactly a request handler moves on, in every state (`experiments/inference-boundary/boundary.ts:118-225`). */
module BoundarySteps {
  import opened Journals
  import opened GateModel
  import opened GateExact
  import opened Boundary

  predicate Is(s: Sys, h: nat, pc: Pc) { h in s.handlers && s.handlers[h].pc == pc }

  /** The event brings the handler there. */
  predicate Comes(s: Sys, e: Event, h: nat, pc: Pc) { Is(Next(s, e), h, pc) && !Is(s, h, pc) }

  ghost predicate Marks(v: View, id: string, w: SendWorld) {
    exists i: nat :: HoldsAt(v.state.reservations, id, i) && MayMark(v, i, w)
  }

  ghost predicate Finalizes(v: View, id: string, completionDigest: string, w: FinalizeWorld) {
    exists i: nat :: HoldsAt(v.state.reservations, id, i) && MayFinalize(v, i, completionDigest, w)
  }

  /** Admission: a handler that has just arrived, a gate that is running and lets it in. */
  predicate ComesIn(s: Sys, e: Event, h: nat) {
    && e.Admit? && e.h == h && Is(s, h, Arrived) && Served(s, h)
    && RequestId(e.admitWorld.requestId) && e.admitWorld.requestId !in s.issued && MayAdmit(s.view, e.binding, e.requestDigest, e.admitWorld)
  }

  ghost predicate ComesMarked(s: Sys, e: Event, h: nat) {
    && e.MarkSend? && e.h == h && Is(s, h, Admitted) && s.handlers[h].routed && Served(s, h)
    && Marks(s.view, s.handlers[h].requestId, e.sendWorld)
  }

  /** Upstream: at once after admission under the fixture policy, after the mark under a router policy. */
  predicate ComesForward(s: Sys, e: Event, h: nat) {
    e.Forward? && e.h == h && Is(s, h, if h in s.handlers && s.handlers[h].routed then Marked else Admitted)
  }

  ghost predicate ComesFinal(s: Sys, e: Event, h: nat) {
    && e.Finalize? && e.h == h && Is(s, h, Forwarded) && s.handlers[h].routed && Served(s, h)
    && Finalizes(s.view, s.handlers[h].requestId, e.completionDigest, e.finalizeWorld)
  }

  /** A completion frame: under a router policy of a finalized request whose success is on disk, while the gate is in service, the
      request holds its reservation and the authority is current. */
  predicate LetsGo(s: Sys, e: Event, h: nat) {
    && e.Release? && e.h == h && h in s.handlers
    && if !s.handlers[h].routed then Is(s, h, Forwarded)
       else Is(s, h, Finalized) && Served(s, h) && AssertRelease(s.view, s.handlers[h].requestId, e.authorityCurrent).Done?
  }

  lemma MarkIs(v: View, id: string, w: SendWorld)
    ensures GateModel.MarkSend(v, id, w).reply.Done? <==> Marks(v, id, w)
  {
    hide GateModel.MarkSend, GateModel.Finalize, GateModel.Finish, MayMark;
    if i: nat :| HoldsAt(v.state.reservations, id, i) {
      MarkSendExact(v, id, i, w);
    } else {
      NobodyHolds(v.state.reservations, id);
      MarkRefused(v, id, w);
    }
  }

  lemma FinalIs(v: View, id: string, completionDigest: string, w: FinalizeWorld)
    ensures GateModel.Finalize(v, id, completionDigest, w).reply.Done? <==> Finalizes(v, id, completionDigest, w)
  {
    hide GateModel.MarkSend, GateModel.Finalize, GateModel.Finish, MayFinalize, FinalizedTo;
    if i: nat :| HoldsAt(v.state.reservations, id, i) {
      FinalizeExact(v, id, i, completionDigest, w);
    } else {
      NobodyHolds(v.state.reservations, id);
      FinalRefused(v, id, completionDigest, w);
    }
  }

  lemma MarkRefused(v: View, id: string, w: SendWorld)
    requires forall k | 0 <= k < |v.state.reservations| :: v.state.reservations[k].requestId != id
    ensures GateModel.MarkSend(v, id, w).reply.Denied?
  {
  }

  lemma FinalRefused(v: View, id: string, completionDigest: string, w: FinalizeWorld)
    requires forall k | 0 <= k < |v.state.reservations| :: v.state.reservations[k].requestId != id
    ensures GateModel.Finalize(v, id, completionDigest, w).reply.Denied?
  {
  }

  lemma NobodyHolds(rs: seq<Reservation>, id: string)
    requires forall i: nat :: !HoldsAt(rs, id, i)
    ensures forall k | 0 <= k < |rs| :: rs[k].requestId != id
  {
    FirstFound(rs, id);
  }

  lemma AdmittedExactly(s: Sys, e: Event, h: nat)
    ensures Comes(s, e, h, Admitted) <==> ComesIn(s, e, h)
    ensures ComesIn(s, e, h) ==> Next(s, e).handlers[h].requestId == e.admitWorld.requestId
  {
    hide GateModel.Admit, GateModel.MarkSend, GateModel.Finalize, GateModel.Finish, GateModel.Activate, GateModel.DrainAndReplace,
         EndClose, BeginClose, Opened, AssertRelease, RequestId, MayAdmit, Marks, Finalizes, AdmittedTo, Turned, ReasonHolds;
    if e.Admit? {
      AdmitExact(s.view, e.binding, e.requestDigest, e.admitWorld);
    }
  }

  lemma MarkedExactly(s: Sys, e: Event, h: nat)
    ensures Comes(s, e, h, Marked) <==> ComesMarked(s, e, h)
  {
    hide GateModel.Admit, GateModel.MarkSend, GateModel.Finalize, GateModel.Finish, GateModel.Activate, GateModel.DrainAndReplace,
         EndClose, BeginClose, Opened, AssertRelease, RequestId, MayAdmit, Marks, Finalizes, AdmittedTo, Turned, ReasonHolds;
    if e.MarkSend? && h in s.handlers {
      MarkIs(s.view, s.handlers[h].requestId, e.sendWorld);
    }
  }

  lemma ForwardedExactly(s: Sys, e: Event, h: nat)
    ensures Comes(s, e, h, Forwarded) <==> ComesForward(s, e, h)
  {
    hide GateModel.Admit, GateModel.MarkSend, GateModel.Finalize, GateModel.Finish, GateModel.Activate, GateModel.DrainAndReplace,
         EndClose, BeginClose, Opened, AssertRelease, RequestId, MayAdmit, Marks, Finalizes, AdmittedTo, Turned, ReasonHolds;
  }

  lemma FinalizedExactly(s: Sys, e: Event, h: nat)
    ensures Comes(s, e, h, Finalized) <==> ComesFinal(s, e, h)
  {
    hide GateModel.Admit, GateModel.MarkSend, GateModel.Finalize, GateModel.Finish, GateModel.Activate, GateModel.DrainAndReplace,
         EndClose, BeginClose, Opened, AssertRelease, RequestId, MayAdmit, Marks, Finalizes, AdmittedTo, Turned, ReasonHolds;
    if e.Finalize? && h in s.handlers {
      FinalIs(s.view, s.handlers[h].requestId, e.completionDigest, e.finalizeWorld);
    }
  }

  /** In every state: an event brings a handler to a position exactly under these conditions. */
  lemma MovesExactly(s: Sys, e: Event, h: nat)
    ensures Comes(s, e, h, Admitted) <==> ComesIn(s, e, h)
    ensures ComesIn(s, e, h) ==> h in Next(s, e).handlers && Next(s, e).handlers[h].requestId == e.admitWorld.requestId
    ensures Comes(s, e, h, Marked) <==> ComesMarked(s, e, h)
    ensures Comes(s, e, h, Forwarded) <==> ComesForward(s, e, h)
    ensures Comes(s, e, h, Finalized) <==> ComesFinal(s, e, h)
  {
    hide Next, ComesMarked, ComesForward, ComesFinal, MayAdmit, RequestId;
    AdmittedExactly(s, e, h);
    MarkedExactly(s, e, h);
    ForwardedExactly(s, e, h);
    FinalizedExactly(s, e, h);
  }

  /** What goes upstream or to the worker by an event is exactly the request of its handler, and only under these conditions. */
  lemma SendsExactly(s: Sys, e: Event)
    ensures Next(s, e).sent == if e.Forward? && ComesForward(s, e, e.h) then s.sent + {s.handlers[e.h].requestId} else s.sent
    ensures Next(s, e).released == if e.Release? && LetsGo(s, e, e.h) then s.released + {s.handlers[e.h].requestId} else s.released
  {
    hide GateModel.Admit, GateModel.MarkSend, GateModel.Finalize, GateModel.Finish, GateModel.Activate, GateModel.DrainAndReplace,
         EndClose, BeginClose, Opened, AssertRelease, RequestId;
  }
}
