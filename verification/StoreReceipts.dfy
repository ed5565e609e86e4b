/** Acknowledgements over whole runs (`internal/store/dispatch.go:587-658`): a new receipt is tied to the dispatch row, the
    attempt and the boot of the running daemon; a retained one is history that replays across every restart. */
module StoreReceipts {
  import opened Authority
  import opened Scheduling
  import opened StoreModel
  import opened GrantInvariant
  import opened DispatchInvariant
  import opened StoreTheorems
  import opened StoreResults

  /** The receipt speaks about the dispatch of this id. */
  predicate Receipted(dispatches: seq<Dispatch>, id: string, ack: Ack, generation: string) {
    var at := FindDispatch(dispatches, id);
    && ValidId(id) && ValidAck(ack) && at.Some? && ack.assignment == id
    && ack.identity == IdentityOf(dispatches[at.value], generation) && ack.runnerBoot == dispatches[at.value].facts.runnerBoot
  }

  ghost predicate AllReceipted(db: Db, generation: string) {
    forall id | id in db.acks :: Receipted(db.dispatches, id, db.acks[id], generation)
  }

  /** The one way a receipt comes in: for an assigned attempt that was not released or stopped, under the boot of the running
      daemon and a message id that no event and no other receipt has. */
  predicate NewReceipt(db: Db, op: Op, generation: string) {
    && op.Acknowledge? && op.id !in db.acks && op.id !in db.releases
    && Receipted(db.dispatches, op.id, op.ack, generation)
    && op.ack.daemonBoot == db.boot && !MessageTaken(db, op.ack.messageId)
    && db.dispatches[FindDispatch(db.dispatches, op.id).value].input.request.taskId !in db.stops
    && var at := FindAttempt(db.attempts, op.id);
    && at.Some? && db.attempts[at.value].state == Assigned
  }

  lemma AcknowledgementReceipts(db: Db, caller: Caller, id: string, ack: Ack, due: int, now: int, w: Placement, site: Site)
    requires Good(db)
    ensures var later := Acknowledged(db, caller, id, ack, due, now, w, site.digests, site.generation).db;
            later.acks == db.acks ||
            (later.acks == db.acks[id := ack] && NewReceipt(db, Acknowledge(caller, id, ack, due, now, w), site.generation))
  {
    hide Good, GrantsGood, DispatchesGood, ExpireGrants, ValidAck, ValidId, FindDispatch, FindAttempt, LatestFacts, CheckDispatch, CheckPlacement,
         CheckAuthority, IdentityOf;
    GrantsOfGood(db);
    ExpireKeeps(db, due);
  }

  lemma StepReceipts(db: Db, op: Op, site: Site)
    requires Good(db)
    ensures var later := Step(db, op, site);
            later.acks == db.acks ||
            (op.Acknowledge? && later.acks == db.acks[op.id := op.ack] && NewReceipt(db, op, site.generation))
  {
    hide GrantsGood, DispatchesGood, InvalidateExecution, ChangeExecution, ExpireGrants, CheckAuthority, Dispatched,
         Deliverable, Recovered, Published, Acknowledged, Stopped, Reconciled, NewReceipt;
    match op
    case Approve(expectedId, g, now) => ChangeTouches(db, expectedId, g, true, now);
    case Restrict(expectedId, g, now) => ChangeTouches(db, expectedId, g, false, now);
    case Invalidate(taskId, expectedId, actor, reason, now) => InvalidateTouches(db, taskId, expectedId, actor, reason, now);
    case CheckAuthorityOf(r, now) => ExpireKeeps(db, now);
    case ReadInvalidations(after, limit, now) => ExpireKeeps(db, now);
    case Publish(owner, expected, facts, w) => PublicationReceiptsNothing(db, owner, expected, facts, w);
    case Admit(r, now, w) => AdmissionReceiptsNothing(db, r, now, w, site.digests);
    case Deliver(caller, id, due, now, w) => ExpireKeeps(db, due);
    case Acknowledge(caller, id, ack, due, now, w) => AcknowledgementReceipts(db, caller, id, ack, due, now, w, site);
    case Stop(owner, taskId) => StopTouches(db, owner, taskId);
    case Reconcile(owner, proof) => ReconcileTouches(db, owner, proof, site.generation);
    case Restart(now, boot) =>
      ExpireKeeps(db, now);
      RecoveryReceiptsNothing(ExpireGrants(db, now).(boot := boot), |db.attempts|);
  }

  lemma PublicationReceiptsNothing(db: Db, owner: bool, expected: int, v: Eligibility, w: Placement)
    ensures Published(db, owner, expected, v, w).db.acks == db.acks
  {
    hide ValidateFacts, PairedElsewhere, LatestFacts;
  }

  lemma AdmissionReceiptsNothing(db: Db, r: DispatchRequest, now: int, w: Placement, digests: Digests)
    requires GrantsGood(db)
    ensures Dispatched(db, r, now, w, digests).db.acks == db.acks
  {
    hide GrantsGood, ExpireGrants, CheckRequest, AdmissionRefusal, DispatchAllowed, FindDispatch, LatestFacts, MaxEpoch;
    ExpireKeeps(db, now);
  }

  lemma {:induction false} RecoveryReceiptsNothing(db: Db, n: nat)
    requires n <= |db.attempts|
    ensures Recovered(db, n).Ok? ==> Recovered(db, n).value.acks == db.acks
  {
    hide CheckTransition;
    if n > 0 {
      RecoveryReceiptsNothing(db, n - 1);
    }
  }

  /** A row found stays the row found: ids of dispatches are distinct and rows are only added. */
  lemma FoundStays(db: Db, later: Db, id: string)
    requires Good(later) && db.dispatches <= later.dispatches && FindDispatch(db.dispatches, id).Some?
    ensures FindDispatch(later.dispatches, id) == FindDispatch(db.dispatches, id)
    ensures later.dispatches[FindDispatch(db.dispatches, id).value] == db.dispatches[FindDispatch(db.dispatches, id).value]
  {
    hide FindDispatch, GrantsGood, DispatchesGood;
    DispatchAt(later, FindDispatch(db.dispatches, id).value);
  }

  /** In every run every receipt names the dispatch it is kept under, the attempt's identity and the boot of its runner. */
  lemma {:induction false} ReceiptsAreTrue(ops: seq<Op>, site: Site)
    ensures AllReceipted(Run(ops, site), site.generation)
  {
    hide Step, Good, FindDispatch, Later, ValidAck, ValidId, IdentityOf;
    if |ops| > 0 {
      var init := ops[..|ops| - 1];
      var db, later := Run(init, site), Run(ops, site);
      ReceiptsAreTrue(init, site);
      RunsAreGood(init, site);
      RunsAreGood(ops, site);
      StepReceipts(db, ops[|ops| - 1], site);
      StepIsLater(db, ops[|ops| - 1], site);
      RowsStay(db, later);
      forall id | id in later.acks ensures Receipted(later.dispatches, id, later.acks[id], site.generation) {
        assert Receipted(db.dispatches, id, later.acks[id], site.generation);
        FoundStays(db, later, id);
      }
    }
  }

  lemma RowsStay(db: Db, later: Db)
    requires Later(db, later)
    ensures db.dispatches <= later.dispatches
  {
  }

  /** A receipt that one more operation of a run brings in was an acknowledgement under the boot of the running daemon, of an
      assigned attempt of a task that was neither stopped nor released. */
  lemma OnlyTheRunningBoot(ops: seq<Op>, op: Op, site: Site, id: string)
    requires id in Run(ops + [op], site).acks && id !in Run(ops, site).acks
    ensures op.Acknowledge? && op.id == id && Run(ops + [op], site).acks[id] == op.ack
    ensures NewReceipt(Run(ops, site), op, site.generation)
  {
    hide Run, Step, Good, NewReceipt;
    RunMore(ops, op, site);
    RunsAreGood(ops, site);
    StepReceipts(Run(ops, site), op, site);
  }

  /** Once retained, a receipt is history: its runner may repeat it exactly at any later time, also after restarts under other
      boots, after a stop, an expiry or the release, and is told yes; anything else under its id is refused; and neither
      changes a table. */
  lemma ReceiptsReplay(ops: seq<Op>, more: seq<Op>, site: Site, caller: Caller, id: string, ack: Ack, due: int, now: int, w: Placement)
    requires id in Run(ops, site).acks && ValidAck(ack)
    ensures FindDispatch(Run(ops, site).dispatches, id).Some?
    ensures var row := Run(ops, site).dispatches[FindDispatch(Run(ops, site).dispatches, id).value];
            var db := Run(ops + more, site);
            caller.runner && caller.id == row.facts.repository.runnerRoot.runnerId ==>
              Acknowledged(db, caller, id, ack, due, now, w, site.digests, site.generation) ==
              Tx(db, if ack == Run(ops, site).acks[id] then Ok(()) else Refused(Deny("identity_conflict", "")))
  {
    hide Run, Step, Good, FindDispatch, Later, ValidAck, ValidId, IdentityOf, ExpireGrants, Deliverable, MessageTaken;
    var first, db := Run(ops, site), Run(ops + more, site);
    ReceiptsAreTrue(ops, site);
    assert Receipted(first.dispatches, id, first.acks[id], site.generation);
    HistoryOnlyGrows(ops, more, site);
    RunsAreGood(ops + more, site);
    RowsStay(first, db);
    AcksStay(first, db, id);
    FoundStays(first, db, id);
  }

  lemma AcksStay(db: Db, later: Db, id: string)
    requires Later(db, later) && id in db.acks
    ensures id in later.acks && later.acks[id] == db.acks[id]
  {
  }
}
