/** Request handlers over the policy gate: `Boundary.handle` (`experiments/inference-boundary/boundary.ts`) as a
    program counter per request, interleaved in any order with each other, with the operator's gate actions, with
    crashes and with reopening. */
module Boundary {
  import opened Text
  import opened Receipts
  import opened Journals
  import opened JournalSteps
  import opened GateModel
  import opened GateInvariant

  /** Where a handler stands: body read and policy seen, admitted, marked for sending, forwarded, success durable,
      failed or done and about to call `finish`. */
  datatype Pc = Arrived | Admitted | Marked | Forwarded | Finalized | Ending

  /** `boot` names the gate object the handler holds; `routed` is whether the policy it saw is a router policy. */
  datatype Handler = Handler(boot: nat, routed: bool, pc: Pc, requestId: string)

  /** `issued` remembers every request id ever offered for admission and whether the journal was then of schema 2, so that
      its reservation carries a router record; `sent` what went upstream, `released` whose completion frames went to the
      worker. They are history, not program state. */
  datatype Sys = Sys(
    view: View, alive: bool, boot: nat, handlers: map<nat, Handler>,
    issued: map<string, bool>, sent: set<string>, released: set<string>)

  datatype Event =
    | Open(generation: string, save: Save)
    | Crash
    | StartClosing
    | Close(closeWorld: CloseWorld)
    | Activate(activateWorld: ActivateWorld)
    | Replace(next: Policy, replaceWorld: ReplaceWorld)
    | Arrive(h: nat)
    | Admit(h: nat, binding: Binding, requestDigest: Option<string>, admitWorld: AdmitWorld)
    | MarkSend(h: nat, sendWorld: SendWorld)
    | Forward(h: nat)
    | Finalize(h: nat, completionDigest: string, finalizeWorld: FinalizeWorld)
    | Release(h: nat, authorityCurrent: bool)
    | Fail(h: nat)
    | Finish(h: nat, outcome: Outcome, finishWorld: FinishWorld)

  function At(s: Sys, h: nat, pc: Pc): Sys
    requires h in s.handlers
  {
    s.(handlers := s.handlers[h := s.handlers[h].(pc := pc)])
  }

  /** The handler's gate object is the running one; a gate that was closed denies every call. */
  predicate Served(s: Sys, h: nat) {
    h in s.handlers && s.alive && s.handlers[h].boot == s.boot
  }

  function OpenStep(s: Sys, generation: string, save: Save): Sys {
    if s.alive then s
    else
      var t := Opened(s.view.disk, generation, save);
      s.(view := t.view, alive := t.reply.Done?, boot := s.boot + 1)
  }

  /** The process dies with the gate and the handlers it holds; the file stays. */
  function CrashStep(s: Sys): Sys {
    s.(alive := false, handlers := map h | h in s.handlers && s.handlers[h].boot != s.boot :: s.handlers[h])
  }

  function ArriveStep(s: Sys, h: nat): Sys {
    if !s.alive || h in s.handlers || s.view.state.policy.None? then s
    else s.(handlers := s.handlers[h := Handler(s.boot, s.view.state.policy.value.RouterPolicy?, Arrived, "")])
  }

  /** Request ids are fresh: `randomUUID` never repeats one. */
  function AdmitStep(s: Sys, h: nat, b: Binding, requestDigest: Option<string>, w: AdmitWorld): Sys {
    if h !in s.handlers || s.handlers[h].pc != Arrived || !RequestId(w.requestId) || w.requestId in s.issued then s
    else if !Served(s, h) then s.(handlers := s.handlers - {h})
    else
      var t := GateModel.Admit(s.view, b, requestDigest, w);
      if t.reply.Denied? then s.(view := t.view, issued := s.issued[w.requestId := s.view.state.schema == 2], handlers := s.handlers - {h})
      else s.(view := t.view, issued := s.issued[w.requestId := t.reply.value.router.Some?],
              handlers := s.handlers[h := s.handlers[h].(pc := Admitted, requestId := w.requestId)])
  }

  function MarkStep(s: Sys, h: nat, w: SendWorld): Sys {
    if h !in s.handlers || s.handlers[h].pc != Admitted || !s.handlers[h].routed then s
    else if !Served(s, h) then At(s, h, Ending)
    else
      var t := GateModel.MarkSend(s.view, s.handlers[h].requestId, w);
      At(s.(view := t.view), h, if t.reply.Done? then Marked else Ending)
  }

  /** `upstream.end(body)`: no gate call guards it. */
  function ForwardStep(s: Sys, h: nat): Sys {
    if h !in s.handlers || s.handlers[h].pc != (if s.handlers[h].routed then Marked else Admitted) then s
    else At(s, h, Forwarded).(sent := s.sent + {s.handlers[h].requestId})
  }

  function FinalizeStep(s: Sys, h: nat, completionDigest: string, w: FinalizeWorld): Sys {
    if h !in s.handlers || s.handlers[h].pc != Forwarded || !s.handlers[h].routed then s
    else if !Served(s, h) then At(s, h, Ending)
    else
      var t := GateModel.Finalize(s.view, s.handlers[h].requestId, completionDigest, w);
      At(s.(view := t.view), h, if t.reply.Done? then Finalized else Ending)
  }

  /** One completion frame: under a router policy only after `assertRelease`. */
  function ReleaseStep(s: Sys, h: nat, authorityCurrent: bool): Sys {
    if h !in s.handlers || s.handlers[h].pc != (if s.handlers[h].routed then Finalized else Forwarded) then s
    else if !s.handlers[h].routed then s.(released := s.released + {s.handlers[h].requestId})
    else if Served(s, h) && GateModel.AssertRelease(s.view, s.handlers[h].requestId, authorityCurrent).Done? then
      s.(released := s.released + {s.handlers[h].requestId})
    else At(s, h, Ending)
  }

  /** Any exception after admission: deadline, revocation, a bad stream, a broken socket. */
  function FailStep(s: Sys, h: nat): Sys {
    if h !in s.handlers then s
    else if s.handlers[h].pc == Arrived then s.(handlers := s.handlers - {h})
    else At(s, h, Ending)
  }

  /** The `finally` block: `finish` with whether the request was ever forwarded. */
  function FinishStep(s: Sys, h: nat, outcome: Outcome, w: FinishWorld): Sys {
    if h !in s.handlers || s.handlers[h].pc in {Arrived, Admitted, Marked} then s
    else if !Served(s, h) then s.(handlers := s.handlers - {h})
    else
      var id := s.handlers[h].requestId;
      s.(view := GateModel.Finish(s.view, id, outcome, id !in s.sent, w).view, handlers := s.handlers - {h})
  }

  function Next(s: Sys, e: Event): Sys {
    match e
    case Open(generation, save) => OpenStep(s, generation, save)
    case Crash => CrashStep(s)
    case StartClosing => if s.alive then s.(view := BeginClose(s.view)) else s
    case Close(w) => if s.alive then s.(view := EndClose(s.view, w).view, alive := false) else s
    case Activate(w) => if s.alive then s.(view := GateModel.Activate(s.view, w).view) else s
    case Replace(next, w) => if s.alive then s.(view := GateModel.DrainAndReplace(s.view, next, w).view) else s
    case Arrive(h) => ArriveStep(s, h)
    case Admit(h, b, digest, w) => AdmitStep(s, h, b, digest, w)
    case MarkSend(h, w) => MarkStep(s, h, w)
    case Forward(h) => ForwardStep(s, h)
    case Finalize(h, digest, w) => FinalizeStep(s, h, digest, w)
    case Release(h, authorityCurrent) => ReleaseStep(s, h, authorityCurrent)
    case Fail(h) => FailStep(s, h)
    case Finish(h, outcome, w) => FinishStep(s, h, outcome, w)
  }

  const START := Sys(View(INITIAL, [], false, Shut, false, None), false, 0, map[], map[], {}, {})

  function After(events: seq<Event>): Sys {
    if |events| == 0 then START else Next(After(events[..|events| - 1]), events[|events| - 1])
  }

  // ---- the invariant of the whole system ----

  /** Every request the journal knows was issued under the journal's schema. */
  ghost predicate Issued(j: Journal, issued: map<string, bool>) {
    forall id | id in IdsIn(j) :: id in issued && (issued[id] <==> j.schema == 2)
  }

  /** What a handler's position promises about the file. */
  ghost predicate HandlerTrue(x: Handler, s: Sys) {
    && x.boot <= s.boot
    && (x.pc == Arrived && s.alive && x.boot == s.boot ==> s.view.state.policy.Some? && (s.view.state.schema == 2 ==> x.routed))
    && (x.pc != Arrived ==> x.requestId in s.issued && (s.issued[x.requestId] ==> x.routed))
    && (x.routed && x.pc in {Marked, Forwarded, Finalized} ==> s.view.disk.Some? && MayBeSentIn(s.view.disk.value, x.requestId))
    && (x.routed && x.pc == Finalized ==> s.view.disk.Some? && HasSuccess(s.view.disk.value.decisions, x.requestId))
  }

  ghost predicate HistoryTrue(s: Sys) {
    && (forall id | id in s.sent :: && id in s.issued
                                    && (s.issued[id] ==> s.view.disk.Some? && MayBeSentIn(s.view.disk.value, id)))
    && (forall id | id in s.released :: && id in s.issued
                                        && (s.issued[id] ==> s.view.disk.Some? && HasSuccess(s.view.disk.value.decisions, id)))
  }

  ghost predicate Inv(s: Sys) {
    && (s.view.disk.Some? ==> Kept(s.view.disk.value) && Issued(s.view.disk.value, s.issued))
    && (s.alive ==> GoodView(s.view) && Issued(s.view.state, s.issued))
    && (forall h | h in s.handlers :: HandlerTrue(s.handlers[h], s))
    && HistoryTrue(s)
  }

  // ---- every step keeps it ----

  /** The file only ever grows: no run, failed write, crash or reopening takes back what it says. */
  ghost predicate DiskGrows(disk: Option<Journal>, later: Option<Journal>) {
    disk.Some? ==> later.Some? && Extends(disk.value, later.value)
  }

  lemma SuccessStays(ds: seq<Decision>, later: seq<Decision>, id: string)
    requires AllStillDecided(ds, later) && HasSuccess(ds, id)
    ensures HasSuccess(later, id)
  {
    var k :| 0 <= k < |ds| && ds[k].requestId == id && ds[k].verdict == ValidatedSuccess;
    assert StillDecided(ds[k], later);
  }

  lemma PromisesStay(disk: Option<Journal>, later: Option<Journal>, id: string)
    requires DiskGrows(disk, later) && disk.Some?
    ensures MayBeSentIn(disk.value, id) ==> MayBeSentIn(later.value, id)
    ensures HasSuccess(disk.value.decisions, id) ==> HasSuccess(later.value.decisions, id)
  {
    if HasSuccess(disk.value.decisions, id) {
      SuccessStays(disk.value.decisions, later.value.decisions, id);
    }
  }

  lemma SafeDiskGrows(v: View, later: View, added: set<string>)
    requires GoodView(v) && Safe(v, later, added)
    ensures DiskGrows(v.disk, later.disk)
  {
    if v.disk.Some? {
      if later.disk == v.disk {
        ExtendsReflexive(v.disk.value);
      } else {
        ExtendsTransitive(v.disk.value, v.state, later.disk.value);
      }
    }
  }

  lemma IssuedGrows(j: Journal, later: Journal, added: set<string>, issued: map<string, bool>, more: map<string, bool>)
    requires Issued(j, issued) && Grows(j, later, added)
    requires MoreIssued(issued, more)
    requires added != {} ==> j.policy.Some?
    requires forall id | id in added :: id in more && (more[id] <==> j.schema == 2)
    ensures Issued(later, more)
  {
    hide Extends, Ids;
  }

  predicate MoreIssued(issued: map<string, bool>, more: map<string, bool>) {
    forall id | id in issued :: id in more && more[id] == issued[id]
  }

  /** What a gate call means for the handlers and the history. */
  lemma GateCall(s: Sys, later: View, added: set<string>, more: map<string, bool>)
    requires Inv(s) && s.alive && Safe(s.view, later, added) && MoreIssued(s.issued, more)
    requires added != {} ==> s.view.state.policy.Some?
    requires forall id | id in added :: id in more && (more[id] <==> s.view.state.schema == 2)
    ensures Inv(s.(view := later, issued := more)) && DiskGrows(s.view.disk, later.disk)
  {
    hide Kept, Grows, MayBeSentIn, HasSuccess, Issued, HandlerTrue, HistoryTrue, MoreIssued, DiskGrows;
    SafeDiskGrows(s.view, later, added);
    IssuedGrows(s.view.state, later.state, added, s.issued, more);
    if later.disk != s.view.disk {
      IssuedGrows(s.view.state, later.disk.value, added, s.issued, more);
    } else if later.disk.Some? {
      IssuedMore(later.disk.value, s.issued, more);
    }
    GateCallHandlers(s, later, added, more);
  }

  lemma GateCallHandlers(s: Sys, later: View, added: set<string>, more: map<string, bool>)
    requires Inv(s) && s.alive && Grows(s.view.state, later.state, added) && DiskGrows(s.view.disk, later.disk) && MoreIssued(s.issued, more)
    ensures var after := s.(view := later, issued := more);
            HistoryTrue(after) && forall h | h in s.handlers :: HandlerTrue(s.handlers[h], after)
  {
    hide Kept, Extends, IdsIn, MayBeSentIn, HasSuccess, Issued, GoodView, MoreIssued, DiskGrows;
    DiskKept(s, later.disk, more);
    forall h | h in s.handlers ensures HandlerTrue(s.handlers[h], s.(view := later, issued := more)) {
      assert HandlerTrue(s.handlers[h], s);
    }
  }

  lemma IssuedMore(j: Journal, issued: map<string, bool>, more: map<string, bool>)
    requires Issued(j, issued) && MoreIssued(issued, more)
    ensures Issued(j, more)
  {
  }

  /** The promises of handlers and history survive a growing file. */
  lemma DiskKept(s: Sys, disk: Option<Journal>, more: map<string, bool>)
    requires Inv(s) && DiskGrows(s.view.disk, disk) && MoreIssued(s.issued, more)
    ensures var later := s.(view := s.view.(disk := disk), issued := more);
            && HistoryTrue(later)
            && forall h | h in s.handlers ::
                 && (s.handlers[h].pc != Arrived ==> s.handlers[h].requestId in more && (more[s.handlers[h].requestId] ==> s.handlers[h].routed))
                 && (s.handlers[h].routed && s.handlers[h].pc in {Marked, Forwarded, Finalized} ==>
                       disk.Some? && MayBeSentIn(disk.value, s.handlers[h].requestId))
                 && (s.handlers[h].routed && s.handlers[h].pc == Finalized ==>
                       disk.Some? && HasSuccess(disk.value.decisions, s.handlers[h].requestId))
  {
    hide Good, Extends, Ids, MayBeSentIn, HasSuccess, Issued, GoodView;
    if s.view.disk.Some? {
      forall id: string
        ensures MayBeSentIn(s.view.disk.value, id) ==> MayBeSentIn(disk.value, id)
        ensures HasSuccess(s.view.disk.value.decisions, id) ==> HasSuccess(disk.value.decisions, id)
      {
        PromisesStay(s.view.disk, disk, id);
      }
    }
    forall h | h in s.handlers
      ensures && (s.handlers[h].pc != Arrived ==> s.handlers[h].requestId in more && (more[s.handlers[h].requestId] ==> s.handlers[h].routed))
              && (s.handlers[h].routed && s.handlers[h].pc in {Marked, Forwarded, Finalized} ==>
                    disk.Some? && MayBeSentIn(disk.value, s.handlers[h].requestId))
              && (s.handlers[h].routed && s.handlers[h].pc == Finalized ==>
                    disk.Some? && HasSuccess(disk.value.decisions, s.handlers[h].requestId))
    {
      assert HandlerTrue(s.handlers[h], s);
    }
  }

  lemma OpenKeeps(s: Sys, generation: string, save: Save)
    requires Inv(s)
    ensures Inv(OpenStep(s, generation, save)) && DiskGrows(s.view.disk, OpenStep(s, generation, save).view.disk)
  {
    hide Good, Ids, MayBeSentIn, HasSuccess, Opened, HandlerTrue, HistoryTrue, Kept;
    var disk := s.view.disk;
    if disk.Some? {
      ExtendsReflexive(disk.value);
    }
    if !s.alive {
      OpenedSafe(disk, generation, save);
      InitialGood();
      OpenHandlers(s, Opened(disk, generation, save).view, Opened(disk, generation, save).reply.Done?);
    }
  }

  /** Handlers of earlier gate objects keep what the file promises them. */
  lemma OpenHandlers(s: Sys, later: View, alive: bool)
    requires Inv(s) && DiskGrows(s.view.disk, later.disk)
    ensures var after := s.(view := later, alive := alive, boot := s.boot + 1);
            HistoryTrue(after) && forall h | h in s.handlers :: HandlerTrue(s.handlers[h], after)
  {
    hide Kept, MayBeSentIn, HasSuccess, Issued, GoodView, DiskGrows;
    DiskKept(s, later.disk, s.issued);
    forall h | h in s.handlers ensures HandlerTrue(s.handlers[h], s.(view := later, alive := alive, boot := s.boot + 1)) {
      assert HandlerTrue(s.handlers[h], s);
    }
  }

  lemma CrashKeeps(s: Sys)
    requires Inv(s)
    ensures Inv(CrashStep(s))
  {
    hide Kept, GoodView, MayBeSentIn, HasSuccess;
    var later := CrashStep(s);
    forall h | h in later.handlers ensures HandlerTrue(later.handlers[h], later) {
      assert HandlerTrue(s.handlers[h], s);
    }
  }

  /** Moving or removing one handler. */
  lemma HandlerMoves(s: Sys, later: Sys, h: nat)
    requires Inv(s) && later == s.(handlers := later.handlers)
    requires forall g | g in later.handlers && g != h :: g in s.handlers && later.handlers[g] == s.handlers[g]
    requires h in later.handlers ==> HandlerTrue(later.handlers[h], s)
    ensures Inv(later)
  {
    hide Kept, GoodView, MayBeSentIn, HasSuccess, Issued;
    forall g | g in later.handlers ensures HandlerTrue(later.handlers[g], later) {
      assert g != h ==> HandlerTrue(s.handlers[g], s);
    }
  }

  lemma ArriveKeeps(s: Sys, h: nat)
    requires Inv(s)
    ensures Inv(ArriveStep(s, h))
  {
    if s.alive && h !in s.handlers && s.view.state.policy.Some? {
      if Good(s.view.state) {
        PolicyIsValid(s.view.state);
      }
      hide Good, Extends, Ids, ValidPolicy;
      HandlerMoves(s, ArriveStep(s, h), h);
    }
  }

  lemma EndingKeeps(s: Sys, h: nat)
    requires Inv(s) && h in s.handlers && s.handlers[h].pc != Arrived
    ensures Inv(At(s, h, Ending)) && Inv(s.(handlers := s.handlers - {h}))
  {
    hide Good, Extends, Ids, MayBeSentIn, HasSuccess;
    assert HandlerTrue(s.handlers[h], s);
    HandlerMoves(s, At(s, h, Ending), h);
    HandlerMoves(s, s.(handlers := s.handlers - {h}), h);
  }

  lemma DropKeeps(s: Sys, h: nat)
    requires Inv(s)
    ensures Inv(s.(handlers := s.handlers - {h}))
  {
    hide Good, Extends, Ids, MayBeSentIn, HasSuccess;
    HandlerMoves(s, s.(handlers := s.handlers - {h}), h);
  }

  lemma NotIssuedNotKnown(s: Sys, id: string)
    requires s.alive && Issued(s.view.state, s.issued) && id !in s.issued
    ensures id !in IdsIn(s.view.state)
  {
  }

  /** An admission that reaches the gate. */
  lemma ServedAdmitKeeps(s: Sys, h: nat, b: Binding, requestDigest: Option<string>, w: AdmitWorld)
    requires Inv(s) && Served(s, h) && s.handlers[h].pc == Arrived && RequestId(w.requestId) && w.requestId !in s.issued
    ensures Inv(AdmitStep(s, h, b, requestDigest, w))
    ensures DiskGrows(s.view.disk, AdmitStep(s, h, b, requestDigest, w).view.disk)
  {
    hide Good, Extends, Ids, IdsIn, MayBeSentIn, HasSuccess, RequestId, GateModel.Admit, Kept, Grows, Issued, HistoryTrue;
    assert HandlerTrue(s.handlers[h], s);
    NotIssuedNotKnown(s, w.requestId);
    AdmitSafe(s.view, b, requestDigest, w);
    var t := GateModel.Admit(s.view, b, requestDigest, w);
    var more := s.issued[w.requestId := s.view.state.schema == 2];
    assert MoreIssued(s.issued, more);
    hide GoodView, Safe;
    GateCall(s, t.view, {w.requestId}, more);
    var called := s.(view := t.view, issued := more);
    DropKeeps(called, h);
    if t.reply.Done? {
      hide Inv;
      HandlerMoves(called, AdmitStep(s, h, b, requestDigest, w), h);
    }
  }

  lemma AdmitKeeps(s: Sys, h: nat, b: Binding, requestDigest: Option<string>, w: AdmitWorld)
    requires Inv(s)
    ensures Inv(AdmitStep(s, h, b, requestDigest, w))
    ensures DiskGrows(s.view.disk, AdmitStep(s, h, b, requestDigest, w).view.disk)
  {
    hide Inv, RequestId, GateModel.Admit, DiskGrows;
    Unmoved(s);
    if h in s.handlers && s.handlers[h].pc == Arrived && RequestId(w.requestId) && w.requestId !in s.issued {
      if Served(s, h) {
        ServedAdmitKeeps(s, h, b, requestDigest, w);
      } else {
        DropKeeps(s, h);
      }
    }
  }

  lemma Unmoved(s: Sys)
    ensures DiskGrows(s.view.disk, s.view.disk)
  {
    if s.view.disk.Some? {
      ExtendsReflexive(s.view.disk.value);
    }
  }

  lemma MarkKeeps(s: Sys, h: nat, w: SendWorld)
    requires Inv(s)
    ensures Inv(MarkStep(s, h, w)) && DiskGrows(s.view.disk, MarkStep(s, h, w).view.disk)
  {
    hide Good, Extends, Ids, MayBeSentIn, HasSuccess;
    Unmoved(s);
    if h in s.handlers && s.handlers[h].pc == Admitted && s.handlers[h].routed {
      EndingKeeps(s, h);
      if Served(s, h) {
        MarkSendSafe(s.view, s.handlers[h].requestId, w);
        var called := s.(view := GateModel.MarkSend(s.view, s.handlers[h].requestId, w).view);
        GateCall(s, called.view, {}, s.issued);
        EndingKeeps(called, h);
        assert HandlerTrue(called.handlers[h], called);
        HandlerMoves(called, MarkStep(s, h, w), h);
      }
    }
  }

  lemma ForwardKeeps(s: Sys, h: nat)
    requires Inv(s)
    ensures Inv(ForwardStep(s, h))
  {
    hide Kept, GoodView, MayBeSentIn, HasSuccess, Issued;
    if h in s.handlers && s.handlers[h].pc == (if s.handlers[h].routed then Marked else Admitted) {
      assert HandlerTrue(s.handlers[h], s);
      HandlerMoves(s, At(s, h, Forwarded), h);
      var moved := At(s, h, Forwarded);
      var later := ForwardStep(s, h);
      forall g | g in later.handlers ensures HandlerTrue(later.handlers[g], later) {
        assert HandlerTrue(moved.handlers[g], moved);
      }
    }
  }

  lemma FinalizeKeeps(s: Sys, h: nat, completionDigest: string, w: FinalizeWorld)
    requires Inv(s)
    ensures Inv(FinalizeStep(s, h, completionDigest, w))
    ensures DiskGrows(s.view.disk, FinalizeStep(s, h, completionDigest, w).view.disk)
  {
    hide Good, Extends, Ids, MayBeSentIn, HasSuccess, Classify;
    Unmoved(s);
    if h in s.handlers && s.handlers[h].pc == Forwarded && s.handlers[h].routed {
      EndingKeeps(s, h);
      if Served(s, h) {
        FinalizeSafe(s.view, s.handlers[h].requestId, completionDigest, w);
        var called := s.(view := GateModel.Finalize(s.view, s.handlers[h].requestId, completionDigest, w).view);
        GateCall(s, called.view, {}, s.issued);
        EndingKeeps(called, h);
        assert HandlerTrue(called.handlers[h], called);
        HandlerMoves(called, FinalizeStep(s, h, completionDigest, w), h);
      }
    }
  }

  lemma ReleaseKeeps(s: Sys, h: nat, authorityCurrent: bool)
    requires Inv(s)
    ensures Inv(ReleaseStep(s, h, authorityCurrent))
  {
    hide Kept, GoodView, MayBeSentIn, HasSuccess, Issued, AssertRelease;
    if h in s.handlers && s.handlers[h].pc == (if s.handlers[h].routed then Finalized else Forwarded) {
      EndingKeeps(s, h);
      assert HandlerTrue(s.handlers[h], s);
      var later := ReleaseStep(s, h, authorityCurrent);
      if later.handlers == s.handlers {
        forall g | g in later.handlers ensures HandlerTrue(later.handlers[g], later) {
          assert HandlerTrue(s.handlers[g], s);
        }
      }
    }
  }

  lemma FailKeeps(s: Sys, h: nat)
    requires Inv(s)
    ensures Inv(FailStep(s, h))
  {
    hide Good, Extends, Ids, MayBeSentIn, HasSuccess;
    DropKeeps(s, h);
    if h in s.handlers && s.handlers[h].pc != Arrived {
      EndingKeeps(s, h);
    }
  }

  lemma FinishKeeps(s: Sys, h: nat, outcome: Outcome, w: FinishWorld)
    requires Inv(s)
    ensures Inv(FinishStep(s, h, outcome, w)) && DiskGrows(s.view.disk, FinishStep(s, h, outcome, w).view.disk)
  {
    hide Good, Extends, Ids, MayBeSentIn, HasSuccess, FinishBody;
    Unmoved(s);
    DropKeeps(s, h);
    if h in s.handlers && s.handlers[h].pc !in {Arrived, Admitted, Marked} && Served(s, h) {
      var id := s.handlers[h].requestId;
      FinishSafe(s.view, id, outcome, id !in s.sent, w);
      var called := s.(view := GateModel.Finish(s.view, id, outcome, id !in s.sent, w).view);
      GateCall(s, called.view, {}, s.issued);
      DropKeeps(called, h);
    }
  }

  /** A gate that is no longer served promises nothing more to arriving handlers. */
  lemma StopKeeps(s: Sys)
    requires Inv(s)
    ensures Inv(s.(alive := false))
  {
    hide Kept, Issued, GoodView, MayBeSentIn, HasSuccess;
    var later := s.(alive := false);
    forall h | h in s.handlers ensures HandlerTrue(s.handlers[h], later) {
      assert HandlerTrue(s.handlers[h], s);
    }
  }

  /** What the operator does to the gate. */
  lemma OperatorKeeps(s: Sys, later: View)
    requires Inv(s) && s.alive && Safe(s.view, later, {})
    ensures Inv(s.(view := later)) && Inv(s.(view := later, alive := false)) && DiskGrows(s.view.disk, later.disk)
  {
    hide Inv, Safe, DiskGrows;
    GateCall(s, later, {}, s.issued);
    assert s.(view := later, issued := s.issued) == s.(view := later);
    StopKeeps(s.(view := later));
  }

  lemma BeginCloseSafe(v: View)
    requires GoodView(v)
    ensures Safe(v, BeginClose(v), {})
  {
    hide Good, Extends, Ids, Grows;
    SafeReflexive(v, {});
  }

  lemma AliveIsGood(s: Sys)
    requires Inv(s) && s.alive
    ensures GoodView(s.view)
  {
  }

  /** Steps of handlers that call no gate leave the view alone. */
  lemma StillSteps(s: Sys, h: nat, authorityCurrent: bool)
    ensures ArriveStep(s, h).view == s.view && ForwardStep(s, h).view == s.view && FailStep(s, h).view == s.view
    ensures ReleaseStep(s, h, authorityCurrent).view == s.view && CrashStep(s).view == s.view
  {
  }

  lemma NextKeeps(s: Sys, e: Event)
    requires Inv(s)
    ensures Inv(Next(s, e)) && DiskGrows(s.view.disk, Next(s, e).view.disk)
  {
    hide Inv, DiskGrows, GoodView, Safe, OpenStep, CrashStep, ArriveStep, AdmitStep, MarkStep, ForwardStep, FinalizeStep, ReleaseStep, FailStep,
         FinishStep, GateModel.Activate, GateModel.DrainAndReplace, EndClose, BeginClose;
    Unmoved(s);
    if s.alive {
      AliveIsGood(s);
    }
    match e
    case Open(generation, save) => OpenKeeps(s, generation, save);
    case Crash => CrashKeeps(s); StillSteps(s, 0, false);
    case StartClosing =>
      if s.alive {
        BeginCloseSafe(s.view);
        OperatorKeeps(s, BeginClose(s.view));
      }
    case Close(w) =>
      if s.alive {
        EndCloseSafe(s.view, w);
        OperatorKeeps(s, EndClose(s.view, w).view);
      }
    case Activate(w) =>
      if s.alive {
        ActivateSafe(s.view, w);
        OperatorKeeps(s, GateModel.Activate(s.view, w).view);
      }
    case Replace(next, w) =>
      if s.alive {
        DrainAndReplaceSafe(s.view, next, w);
        OperatorKeeps(s, GateModel.DrainAndReplace(s.view, next, w).view);
      }
    case Arrive(h) => ArriveKeeps(s, h); StillSteps(s, h, false);
    case Admit(h, b, digest, w) => AdmitKeeps(s, h, b, digest, w);
    case MarkSend(h, w) => MarkKeeps(s, h, w);
    case Forward(h) => ForwardKeeps(s, h); StillSteps(s, h, false);
    case Finalize(h, digest, w) => FinalizeKeeps(s, h, digest, w);
    case Release(h, authorityCurrent) => ReleaseKeeps(s, h, authorityCurrent); StillSteps(s, h, authorityCurrent);
    case Fail(h) => FailKeeps(s, h); StillSteps(s, h, false);
    case Finish(h, outcome, w) => FinishKeeps(s, h, outcome, w);
  }

  lemma {:induction false} RunsKeep(events: seq<Event>)
    ensures Inv(After(events))
  {
    if |events| > 0 {
      var init := events[..|events| - 1];
      RunsKeep(init);
      NextKeeps(After(init), events[|events| - 1]);
    }
  }
}
