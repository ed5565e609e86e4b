/** What one call of the policy gate does to the gate and to its file
    (`experiments/inference-boundary/policy.ts`). The world outside the gate, that is the file system, the
    authority, the clock and the cancellation signals, answers through the `...World` arguments. */
module GateModel {
  import opened Text
  import opened Receipts
  import opened Journals
  import opened JournalSteps

  datatype Lifecycle = Serving | Closing | Shut

  /** The gate's memory, and the file `state.json` that outlives it. */
  datatype View = View(
    state: Journal, durable: seq<Decision>, failed: bool, lifecycle: Lifecycle, uncertainMutation: bool,
    disk: Option<Journal>)

  /** How a write ends. `Unconfirmed`: the rename happened, the directory sync failed. */
  datatype Save = NotWritten | Written | Unconfirmed

  /** How an authority call ends: answered; failed on the way, perhaps because the owner lock is lost or with
      the callee still running; or turned away before it began. */
  datatype Call<+T> = Answered(value: T) | Failed(ownerLost: bool, unsettled: bool) | TurnedAway

  datatype Entry = Enter | Aborted | OwnerLost

  datatype Reason =
    | Unauthorized | PolicyDenied | ConcurrencyLimit | AttemptLimit | Cancelled
    | BoundaryClosed | ReceiptUnverified | ReplacementReadOnly
    | Fault  // a run-time type error, not a denial

  datatype Reply<+T> = Done(value: T) | Denied(reason: Reason)

  datatype Turn<+T> = Turn(view: View, reply: Reply<T>)

  const INITIAL := Journal(1, "", Closed, None, None, [], map[], [])

  // ---- persistence and serialisation ----

  predicate Usable(v: View) {
    v.lifecycle == Serving && !v.failed && !v.uncertainMutation
  }

  predicate Writable(v: View, closing: bool) {
    v.lifecycle == Serving || (v.lifecycle == Closing && closing)
  }

  function InPhase(v: View, phase: Phase): View {
    v.(state := v.state.(phase := phase))
  }

  function Persist(v: View, closing: bool, save: Save): Turn<()> {
    if !Writable(v, closing) || save == NotWritten then
      Turn(InPhase(v, Closed).(failed := true), Denied(BoundaryClosed))
    else if save == Unconfirmed then
      Turn(InPhase(v, Closed).(failed := true, disk := Some(v.state)), Denied(BoundaryClosed))
    else
      Turn(v.(disk := Some(v.state), durable := v.state.decisions), Done(()))
  }

  function Begin(v: View, entry: Entry): Turn<()> {
    if !Usable(v) then Turn(v, Denied(BoundaryClosed))
    else match entry
      case Aborted => Turn(v, Denied(Cancelled))
      case OwnerLost => Turn(InPhase(v, Closed).(failed := true), Denied(BoundaryClosed))
      case Enter => Turn(v, Done(()))
  }

  /** `serial` writes the journal once more when an action failed and left the gate closed. No save happens when
      `close` has begun meanwhile. */
  function Rescue<T>(t: Turn<T>, save: Option<Save>): Turn<T> {
    if t.reply.Denied? && t.view.lifecycle == Serving && !t.view.failed && t.view.state.phase == Closed && save.Some? then
      var saved := Persist(t.view, false, save.value);
      Turn(saved.view, if saved.reply.Denied? then Denied(BoundaryClosed) else t.reply)
    else t
  }

  function CallFailed<T>(v: View, c: Call<T>, mutating: bool): View
    requires !c.Answered?
  {
    if c.TurnedAway? then v
    else InPhase(v, Closed).(failed := v.failed || c.ownerLost, uncertainMutation := v.uncertainMutation || (mutating && c.unsettled))
  }

  // ---- opening and closing ----

  function Opened(disk: Option<Journal>, generation: string, save: Save): Turn<()> {
    var state := (if disk.None? then INITIAL else disk.value).(generation := generation, phase := Closed);
    var v := View(state, state.decisions, false, Serving, false, disk);
    if disk.Some? && !ValidJournal(disk.value) then Turn(v, Denied(BoundaryClosed))
    else Persist(v, false, save)
  }

  function BeginClose(v: View): View {
    if v.lifecycle == Serving then v.(lifecycle := Closing) else v
  }

  datatype CloseWorld = CloseWorld(save: Save, ownerKept: bool)

  function EndClose(v: View, w: CloseWorld): Turn<()> {
    var saved := Persist(InPhase(v, Closed), true, w.save);
    var shut := saved.view.(lifecycle := Shut);
    if saved.reply.Denied? then Turn(shut, Denied(BoundaryClosed))
    else if v.uncertainMutation then Turn(shut, Denied(BoundaryClosed))
    else if !w.ownerKept then Turn(shut.(failed := true), Denied(BoundaryClosed))
    else Turn(shut, Done(()))
  }

  // ---- admission ----

  datatype AdmitWorld = AdmitWorld(
    entry: Entry, authorityCurrent: bool, retired: Call<bool>, interrupted: bool, current: bool,
    requestId: string, save: Save, rescue: Option<Save>)

  function RouterRefusal(j: Journal, p: Policy, b: Binding, requestDigest: Option<string>, authorityCurrent: bool): (refusal: Option<Reason>)
    ensures refusal.None? && p.RouterPolicy? ==> requestDigest.Some? && j.schema != 1
  {
    if p.RouterPolicy? && !authorityCurrent then Some(BoundaryClosed)
    else if p.RouterPolicy? && (requestDigest.None? || !Sha256(requestDigest.value)) then Some(AttemptLimit)
    else if p.RouterPolicy? && j.schema == 1 then Some(Fault)  // there is no decision list to measure
    else if p.RouterPolicy? && |j.decisions| + |j.reservations| >= MAX_DECISIONS then Some(AttemptLimit)
    else if p.RouterPolicy? && p.profile == NativeTranslation && |j.reservations| > 0 then Some(ConcurrencyLimit)
    else if b.native then Some(PolicyDenied)
    else None
  }

  function CapacityRefusal(j: Journal, p: Policy, b: Binding, w: AdmitWorld): Option<Reason> {
    var count := CountOf(j.counts, b.attemptId);
    if w.interrupted then Some(Cancelled)
    else if !w.current then Some(Unauthorized)
    else if !BoundTo(b, p) then Some(PolicyDenied)
    else if ReservedFor(j.reservations, b.attemptId) >= p.limits.concurrency || |j.reservations| >= MAX_RESERVATIONS then
      Some(ConcurrencyLimit)
    else if count < 0 || count > MAX_SAFE then Some(BoundaryClosed)
    else if count >= p.limits.requestCount || (|j.counts| >= MAX_ATTEMPTS && b.attemptId !in j.counts) then Some(AttemptLimit)
    else None
  }

  function NewReservation(p: Policy, b: Binding, requestDigest: Option<string>, requestId: string): Reservation
    requires p.RouterPolicy? ==> requestDigest.Some?
  {
    Reservation(requestId, b.attemptId, b.taskId, p.epoch, None,
                if p.RouterPolicy? then Some(Saved(p, b, requestDigest.value, Reserved)) else None)
  }

  /** Under the fixture policy, reservations whose handler ended are dropped once the authority calls them quiescent. */
  function Retire(v: View, p: Policy, retired: Call<bool>): Turn<()> {
    if p.FixturePolicy? && (exists i :: 0 <= i < |v.state.reservations| && v.state.reservations[i].outcome.Some?) then
      if !retired.Answered? then Turn(CallFailed(v, retired, false), Denied(BoundaryClosed))
      else if retired.value then Turn(v.(state := v.state.(reservations := OnlyActive(v.state.reservations))), Done(()))
      else Turn(v, Done(()))
    else Turn(v, Done(()))
  }

  function AdmitBody(v: View, b: Binding, requestDigest: Option<string>, w: AdmitWorld): Turn<Reservation> {
    if v.failed || v.state.phase != Active || v.state.policy.None? then Turn(v, Denied(BoundaryClosed))
    else
      var p := v.state.policy.value;
      var refusal := RouterRefusal(v.state, p, b, requestDigest, w.authorityCurrent);
      if refusal.Some? then Turn(v, Denied(refusal.value))
      else
        var retired := Retire(v, p, w.retired);
        if retired.reply.Denied? then Turn(retired.view, Denied(retired.reply.reason))
        else
          var full := CapacityRefusal(retired.view.state, p, b, w);
          if full.Some? then Turn(retired.view, Denied(full.value))
          else
            var r := NewReservation(p, b, requestDigest, w.requestId);
            var saved := Persist(retired.view.(state := WithReservation(retired.view.state, r)), false, w.save);
            Turn(saved.view, if saved.reply.Denied? then Denied(BoundaryClosed) else Done(r))
  }

  function Admit(v: View, b: Binding, requestDigest: Option<string>, w: AdmitWorld): Turn<Reservation> {
    if !ValidBinding(b) then Turn(v, Denied(PolicyDenied))
    else
      var begun := Begin(v, w.entry);
      if begun.reply.Denied? then Turn(begun.view, Denied(begun.reply.reason))
      else Rescue(AdmitBody(begun.view, b, requestDigest, w), w.rescue)
  }

  // ---- sending ----

  datatype SendWorld = SendWorld(entry: Entry, authorityCurrent: bool, interrupted: bool, save: Save, rescue: Option<Save>)

  function MarkSendBody(v: View, requestId: string, w: SendWorld): Turn<()> {
    var at := FindReservation(v.state.reservations, requestId);
    if v.state.phase != Active || at.None? || v.state.reservations[at.value].router.None? ||
       v.state.reservations[at.value].router.value.send != Reserved then Turn(v, Denied(BoundaryClosed))
    else if !w.authorityCurrent then Turn(v, Denied(BoundaryClosed))
    else if w.interrupted then Turn(v, Denied(Cancelled))
    else Persist(v.(state := WithSendPossible(v.state, at.value)), false, w.save)
  }

  function MarkSend(v: View, requestId: string, w: SendWorld): Turn<()> {
    var begun := Begin(v, w.entry);
    if begun.reply.Denied? then begun else Rescue(MarkSendBody(begun.view, requestId, w), w.rescue)
  }

  // ---- success ----

  datatype FinalizeWorld = FinalizeWorld(
    entry: Entry, receipt: Call<RawReceipt>, currentBefore: bool, authorityBefore: bool, save: Save,
    interrupted: bool, currentAfter: bool, authorityAfter: bool, rescue: Option<Save>)

  function FinalizeBody(v: View, requestId: string, completionDigest: string, w: FinalizeWorld): Turn<()> {
    var j := v.state;
    var at := FindReservation(j.reservations, requestId);
    if (j.phase != Active && j.phase != Draining) || at.None? || j.reservations[at.value].router.None? ||
       j.reservations[at.value].router.value.send != SendPossible || !Sha256(completionDigest) then Turn(v, Denied(BoundaryClosed))
    else if !w.receipt.Answered? then Turn(CallFailed(v, w.receipt, false), Denied(BoundaryClosed))
    else
      var evidence := Classify(w.receipt.value, requestId, j.reservations[at.value].router.value.policy);
      if evidence.disposition != OriginalSuccess then Turn(v, Denied(ReceiptUnverified))
      else if !w.currentBefore then Turn(v, Denied(Cancelled))
      else if !w.authorityBefore then Turn(v, Denied(BoundaryClosed))
      else
        var recorded := Recorded(j, at.value, evidence, ValidatedSuccess, Some(completionDigest));
        if recorded.None? then Turn(v, Denied(AttemptLimit))
        else
          var saved := Persist(v.(state := recorded.value), false, w.save);
          if saved.reply.Denied? then saved
          else if w.interrupted || !w.currentAfter then Turn(saved.view, Denied(Cancelled))
          else if !w.authorityAfter then Turn(saved.view, Denied(BoundaryClosed))
          else saved
  }

  function Finalize(v: View, requestId: string, completionDigest: string, w: FinalizeWorld): Turn<()> {
    var begun := Begin(v, w.entry);
    if begun.reply.Denied? then begun else Rescue(FinalizeBody(begun.view, requestId, completionDigest, w), w.rescue)
  }

  /** `assertRelease`: nothing changes; the answer says whether a completion frame may leave. */
  function AssertRelease(v: View, requestId: string, authorityCurrent: bool): Reply<()> {
    if !Usable(v) then Denied(BoundaryClosed)
    else if v.state.schema == 2 then
      var at := FindReservation(v.state.reservations, requestId);
      if (v.state.phase != Active && v.state.phase != Draining) || at.None? || v.state.reservations[at.value].router.None? ||
         !exists k :: && 0 <= k < |v.state.decisions| && v.state.decisions[k].requestId == requestId
                      && v.state.decisions[k].verdict == ValidatedSuccess then Denied(ReceiptUnverified)
      else if !authorityCurrent then Denied(BoundaryClosed)
      else Done(())
    else Done(())
  }

  // ---- finishing ----

  datatype FinishWorld = FinishWorld(entry: Entry, receipt: Call<RawReceipt>, quiescent: Call<bool>, save: Save, rescue: Option<Save>)

  /** The evidence about a saved reservation: none is needed when it was never marked for sending. */
  function EvidenceFor(r: Reservation, receipt: Call<RawReceipt>): Call<Evidence>
    requires r.router.Some?
  {
    if r.router.value.send == Reserved then Answered(NO_RECEIPT)
    else match receipt
      case Answered(raw) => Answered(Classify(raw, r.requestId, r.router.value.policy))
      case Failed(lost, unsettled) => Failed(lost, unsettled)
      case TurnedAway => TurnedAway
  }

  function RulingFor(r: Reservation): Verdict
    requires r.router.Some?
  {
    if r.router.value.send == Reserved then NeverSent else QuiescentVerdict
  }

  function PersistAnd<T>(v: View, save: Save, value: T): Turn<T> {
    var saved := Persist(v, false, save);
    Turn(saved.view, if saved.reply.Denied? then Denied(BoundaryClosed) else Done(value))
  }

  function FinishRouted(v: View, i: nat, outcome: Outcome, w: FinishWorld): Turn<bool>
    requires i < |v.state.reservations| && v.state.reservations[i].router.Some?
  {
    var r := v.state.reservations[i];
    var evidence := EvidenceFor(r, w.receipt);
    if !evidence.Answered? then Turn(CallFailed(v, evidence, false), Denied(BoundaryClosed))
    else if evidence.value.disposition == PendingOrUnknown then PersistAnd(v, w.save, false)
    else
      var settled := Settled(v.state, i, evidence.value, RulingFor(r), Some(outcome));
      if settled.None? then Turn(v, Denied(AttemptLimit))
      else PersistAnd(v.(state := settled.value), w.save, true)
  }

  function FinishPlain(v: View, i: nat, neverForwarded: bool, w: FinishWorld): Turn<bool>
    requires i < |v.state.reservations|
  {
    var quiescent := if neverForwarded then Answered(true) else w.quiescent;
    if !quiescent.Answered? then Turn(CallFailed(v, quiescent, false), Denied(BoundaryClosed))
    else PersistAnd(if quiescent.value then v.(state := Without(v.state, i)) else v, w.save, quiescent.value)
  }

  function FinishBody(v: View, requestId: string, outcome: Outcome, neverForwarded: bool, w: FinishWorld): Turn<bool> {
    var at := FindReservation(v.state.reservations, requestId);
    if at.None? then Turn(v, Denied(BoundaryClosed))
    else
      var ended := v.(state := WithOutcome(v.state, at.value, outcome));
      if ended.state.reservations[at.value].router.Some? then FinishRouted(ended, at.value, outcome, w)
      else FinishPlain(ended, at.value, neverForwarded, w)
  }

  function Finish(v: View, requestId: string, outcome: Outcome, neverForwarded: bool, w: FinishWorld): Turn<bool> {
    var begun := Begin(v, w.entry);
    if begun.reply.Denied? then Turn(begun.view, Denied(begun.reply.reason))
    else Rescue(FinishBody(begun.view, requestId, outcome, neverForwarded, w), w.rescue)
  }

  // ---- activation ----

  datatype Settlement = Settlement(receipt: Call<RawReceipt>, save: Save)

  datatype ActivateWorld = ActivateWorld(
    entry: Entry, settlements: seq<Settlement>, policy: Call<Policy>, quiescent: Call<bool>, receiptsReady: bool,
    save: Save, rescue: Option<Save>)

  /** The recovery loop: rule on every left-over reservation, one durable write each. */
  function Recover(v: View, settlements: seq<Settlement>): (t: Turn<()>)
    decreases |v.state.reservations|
  {
    if |v.state.reservations| == 0 then Turn(v, Done(()))
    else
      var r := v.state.reservations[0];
      var world := if |settlements| > 0 then settlements[0] else Settlement(TurnedAway, NotWritten);
      if r.router.None? then Turn(v, Denied(BoundaryClosed))
      else
        var evidence := EvidenceFor(r, world.receipt);
        if !evidence.Answered? then Turn(CallFailed(v, evidence, false), Denied(BoundaryClosed))
        else if evidence.value.disposition == PendingOrUnknown then Turn(v, Denied(BoundaryClosed))
        else
          var settled := Settled(v.state, 0, evidence.value, RulingFor(r), None);
          if settled.None? then Turn(v, Denied(AttemptLimit))
          else
            var saved := Persist(v.(state := settled.value), false, world.save);
            if saved.reply.Denied? then saved
            else Recover(saved.view, if |settlements| > 0 then settlements[1..] else [])
  }

  predicate Used(j: Journal) {
    j.policy.Some? || |j.reservations| > 0 || |j.counts| > 0
  }

  function Adopt(v: View, p: Policy, w: ActivateWorld): Turn<Policy> {
    var cleared := v.(state := v.state.(reservations := []));
    if p.RouterPolicy? && cleared.state.schema == 1 && Used(cleared.state) then Turn(cleared, Denied(PolicyDenied))
    else if p.RouterPolicy? && !w.receiptsReady then Turn(cleared, Denied(BoundaryClosed))
    else if p.FixturePolicy? && cleared.state.schema == 2 then Turn(cleared, Denied(PolicyDenied))
    else
      PersistAnd(cleared.(state := cleared.state.(schema := (if p.RouterPolicy? then 2 else 1), policy := Some(p), fingerprint := Some(p), phase := Active)),
                 w.save, p)
  }

  function ActivateBody(v: View, w: ActivateWorld): Turn<Policy> {
    if v.failed || v.state.phase != Closed then Turn(v, Denied(BoundaryClosed))
    else
      var recovered := if v.state.schema == 2 then Recover(v, w.settlements) else Turn(v, Done(()));
      var u := recovered.view;
      if recovered.reply.Denied? then Turn(u, Denied(recovered.reply.reason))
      else if !w.policy.Answered? then Turn(CallFailed(u, w.policy, false), Denied(BoundaryClosed))
      else if !ValidPolicy(w.policy.value) then Turn(u, Denied(PolicyDenied))
      else if w.policy.value.RouterPolicy? && u.state.schema == 1 && Used(u.state) then Turn(u, Denied(PolicyDenied))
      else if !w.quiescent.Answered? then Turn(CallFailed(u, w.quiescent, false), Denied(BoundaryClosed))
      else if !w.quiescent.value then Turn(u, Denied(BoundaryClosed))
      else Adopt(u, w.policy.value, w)
  }

  function Activate(v: View, w: ActivateWorld): Turn<Policy> {
    var begun := Begin(v, w.entry);
    if begun.reply.Denied? then Turn(begun.view, Denied(begun.reply.reason))
    else Rescue(ActivateBody(begun.view, w), w.rescue)
  }

  // ---- replacement ----

  datatype ReplaceWorld = ReplaceWorld(
    entry: Entry, saveDraining: Save, quiescent: Call<bool>, saveMutating: Save, answer: Call<Policy>, saveActive: Save,
    rescue: Option<Save>)

  predicate Follows(next: Policy, previous: Policy) {
    && next.epoch == previous.epoch + 1 && next.revision != previous.revision
    && next.routerId == previous.routerId && next.routeId == previous.routeId
  }

  /** The part of `drainAndReplace` inside its own `try`: any failure closes the gate. */
  function ReplacePolicy(v: View, next: Policy, w: ReplaceWorld): Turn<bool> {
    if !w.answer.Answered? then Turn(InPhase(CallFailed(v, w.answer, true), Closed), Denied(BoundaryClosed))
    else if w.answer.value != next then Turn(InPhase(v, Closed), Denied(BoundaryClosed))
    else
      var saved := Persist(v.(state := v.state.(policy := Some(next), fingerprint := Some(next), phase := Active)), false, w.saveActive);
      Turn(saved.view, if saved.reply.Denied? then Denied(BoundaryClosed) else Done(true))
  }

  function DrainedReplace(v: View, next: Policy, w: ReplaceWorld): Turn<bool> {
    if exists i :: 0 <= i < |v.state.reservations| && v.state.reservations[i].outcome.None? then Turn(v, Done(false))
    else if !w.quiescent.Answered? then Turn(CallFailed(v, w.quiescent, false), Denied(BoundaryClosed))
    else if !w.quiescent.value then Turn(v, Done(false))
    else
      var saved := Persist(v.(state := v.state.(reservations := [], phase := Mutating)), false, w.saveMutating);
      if saved.reply.Denied? then Turn(saved.view, Denied(BoundaryClosed)) else ReplacePolicy(saved.view, next, w)
  }

  function ReplaceBody(v: View, next: Policy, w: ReplaceWorld): Turn<bool> {
    if v.failed || (v.state.phase != Active && v.state.phase != Draining) || v.state.policy.None? then Turn(v, Denied(BoundaryClosed))
    else
      var previous := v.state.policy.value;
      if previous.RouterPolicy? then
        var saved := Persist(InPhase(v, Closed), false, w.saveDraining);
        Turn(saved.view, if saved.reply.Denied? then Denied(BoundaryClosed) else Denied(ReplacementReadOnly))
      else if !ValidPolicy(next) || !Follows(next, previous) then Turn(v, Denied(PolicyDenied))
      else
        var saved := Persist(InPhase(v, Draining), false, w.saveDraining);
        if saved.reply.Denied? then Turn(saved.view, Denied(BoundaryClosed)) else DrainedReplace(saved.view, next, w)
  }

  function DrainAndReplace(v: View, next: Policy, w: ReplaceWorld): Turn<bool> {
    var begun := Begin(v, w.entry);
    if begun.reply.Denied? then Turn(begun.view, Denied(begun.reply.reason))
    else Rescue(ReplaceBody(begun.view, next, w), w.rescue)
  }
}
