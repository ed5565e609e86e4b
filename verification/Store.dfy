/** The store itself: one connection's tables, changed in place by transactions (`internal/store/grants.go`,
    `internal/store/dispatch.go`, `internal/store/recovery.go`). A transaction works on its own copy `tx` of the tables;
    assigning it back is the commit, returning without that is the rollback. Every method equals the transaction function
    of the same name, about which the invariants are proved. */
module Stores {
  import opened Text
  import opened Authority
  import opened Scheduling
  import opened StoreModel
  import opened StoreTheorems

  class Store {
    const site: Site
    var db: Db

    constructor (site: Site)
      ensures this.site == site && db == Run([], site)
    {
      this.site := site;
      db := EMPTY;
    }

    /** `grants.go:164-184`: the retained envelopes of the task, newest first. */
    method ReplaceAll(tx: Db, next: Grant) returns (r: Check)
      ensures r == ReplacesAll(tx.grants, next.taskId, next.envelope)
    {
      var i := |tx.grants|;
      assert tx.grants[..i] == tx.grants;
      while i > 0
        invariant 0 <= i <= |tx.grants|
        invariant ReplacesAll(tx.grants, next.taskId, next.envelope) == ReplacesAll(tx.grants[..i], next.taskId, next.envelope)
      {
        hide Replacement;
        assert tx.grants[..i][..i - 1] == tx.grants[..i - 1];
        i := i - 1;
        if tx.grants[i].taskId == next.taskId {
          var broken := Replacement(next.envelope, tx.grants[i].envelope);
          if broken.Deny? {
            return broken;
          }
        }
      }
      return Pass;
    }

    method ChangeExecution(expectedId: string, grant: Grant, approval: bool, now: int) returns (r: Reply<Grant>)
      modifies this`db
      ensures Tx(db, r) == StoreModel.ChangeExecution(old(db), expectedId, grant, approval, now)
    {
      hide ValidateGrant, FindGrant, FindInvalidation, Replacement, Within, ReplacesAll, Head;
      var malformed := ValidateGrant(grant);
      if malformed.Deny? {
        return Refused(malformed);
      }
      if expectedId != "" && !ValidId(expectedId) {
        return Refused(Deny("malformed", "expected_grant"));
      }
      var tx := db;
      var head := Head(tx, grant.taskId);
      var same := FindGrant(tx.grants, grant.id);
      if same.Some? {
        r := Retained(tx, head, same.value, grant, now);
        return;
      }
      if HeadId(head) != expectedId {
        return Refused(Deny("revision_conflict", "expected_grant"));
      }
      if head.None? {
        if !approval {
          return Refused(Deny("approval_required", "grant"));
        }
        if grant.revision != 1 {
          return Refused(Deny("revision_conflict", "grant"));
        }
      } else {
        var kept, refusal := MayReplace(tx, head.value, grant, approval, now);
        if refusal.Deny? {
          return Refused(refusal);
        }
        if kept {
          return Ok(head.value);
        }
        if FindInvalidation(tx.invalidations, head.value.id).None? {
          var reason := "superseded";
          if now >= head.value.envelope.expiresMs {
            reason := "expired";
          }
          tx := WithInvalidation(tx, head.value.id, reason, grant.actor, now);
        }
      }
      if now >= grant.envelope.expiresMs {
        return Refused(Deny("expired", "grant"));
      }
      tx := InsertGrant(tx, grant, approval);
      db := tx;
      return Ok(grant);
    }

    method Retained(tx: Db, head: Option<Grant>, same: Grant, grant: Grant, now: int) returns (r: Reply<Grant>)
      ensures Tx(tx, r) == RetainedGrant(tx, head, same, grant, now)
    {
      if same != grant {
        return Refused(Deny("identity_conflict", "grant"));
      }
      if head.None? || head.value.id != grant.id {
        return Refused(Deny("superseded", "grant"));
      }
      var live := LiveGrant(tx, head.value, now);
      if live.Deny? {
        return Refused(live);
      }
      return Ok(head.value);
    }

    /** The checks against the head and the retained history; `kept` says the head already is what was asked for. */
    method MayReplace(tx: Db, head: Grant, grant: Grant, approval: bool, now: int) returns (kept: bool, r: Check)
      ensures r.Pass? <==> ChangeRefusal(tx, head, grant, approval, now).Pass? &&
                           (Unchanged(tx, head, grant, now) || ContinuityRefusal(tx, head, grant, approval).Pass?)
      ensures r.Pass? ==> kept == Unchanged(tx, head, grant, now)
      ensures r.Deny? ==> r == if ChangeRefusal(tx, head, grant, approval, now).Deny? then ChangeRefusal(tx, head, grant, approval, now)
                               else ContinuityRefusal(tx, head, grant, approval)
    {
      hide FindInvalidation, Replacement, Within, ReplacesAll;
      kept := false;
      var live := LiveGrant(tx, head, now);
      if live.Deny? && !approval {
        return kept, live;
      }
      if head.revision == MAX_SAFE || grant.revision != head.revision + 1 {
        return kept, Deny("revision_conflict", "grant");
      }
      if live.Pass? && grant.actor == head.actor && grant.envelope == head.envelope {
        return true, Pass;
      }
      r := ReplaceAll(tx, grant);
      if r.Deny? {
        return;
      }
      if !approval {
        if grant.actor != head.actor {
          return kept, Deny("approval_required", "actor");
        }
        r := Within(grant.envelope, head.envelope);
      }
    }

    method InvalidateExecution(taskId: string, expectedId: string, actor: string, reason: string, now: int) returns (r: Reply<()>)
      modifies this`db
      ensures Tx(db, r) == StoreModel.InvalidateExecution(old(db), taskId, expectedId, actor, reason, now)
    {
      hide Head, FindInvalidation, Reference, ValidId;
      if !ValidId(taskId) || !ValidId(expectedId) || !Reference(actor) || (reason != "revoked" && reason != "superseded") {
        return Refused(Deny("malformed", "invalidation"));
      }
      var head := Head(db, taskId);
      if head.None? {
        return Refused(Deny("unknown_grant", "task"));
      }
      if head.value.id != expectedId {
        return Refused(Deny("revision_conflict", "expected_grant"));
      }
      var found := FindInvalidation(db.invalidations, expectedId);
      if found.Some? {
        if found.value.reason == reason && found.value.actor == actor {
          return Ok(());
        }
        return Refused(Deny("identity_conflict", "invalidation"));
      }
      db := WithInvalidation(db, expectedId, reason, actor, now);
      return Ok(());
    }

    /** `grants.go:319-324`: select the due heads in the order of their ids, then insert one row for each. */
    method ExpireRows(tx: Db, now: int) returns (after: Db)
      ensures after == ExpireGrants(tx, now)
    {
      var due: seq<string> := [];
      for i := 0 to |tx.grants|
        invariant due == Due(tx, tx.grants[..i], now)
      {
        hide IsDue, InsertById;
        assert tx.grants[..i + 1][..i] == tx.grants[..i];
        if IsDue(tx, tx.grants[i], now) {
          due := InsertById(due, tx.grants[i].id);
        }
      }
      assert tx.grants[..|tx.grants|] == tx.grants;
      after := tx;
      for i := 0 to |due|
        invariant ExpireAll(after, due[i..], now) == ExpireAll(tx, due, now)
      {
        assert due[i..][1..] == due[i + 1..];
        after := WithInvalidation(after, due[i], "expired", "clock", now);
      }
    }

    method CheckExecution(request: Request, now: int) returns (r: Reply<()>)
      modifies this`db
      ensures Tx(db, r) == StoreModel.CheckExecution(old(db), request, now)
    {
      hide ExpireGrants, CheckAuthority, ValidId;
      if !ValidId(request.grantId) || !ValidId(request.taskId) {
        return Refused(Deny("malformed", "request"));
      }
      var tx := ExpireRows(db, now);
      var decision := CheckAuthority(tx, request, now);
      db := tx;
      if decision.Deny? {
        return Refused(decision);
      }
      return Ok(());
    }

    method ExecutionInvalidations(after: int, limit: int, now: int) returns (r: Reply<seq<Invalidation>>)
      modifies this`db
      ensures Tx(db, r) == StoreModel.ExecutionInvalidations(old(db), after, limit, now)
    {
      hide ExpireGrants;
      if after < 0 || after > MAX_SAFE || limit < 1 || limit > 128 {
        return Refused(Deny("malformed", "cursor/limit"));
      }
      var tx := ExpireRows(db, now);
      var page := ReadPage(tx.invalidations, after, limit);
      db := tx;
      return Ok(page);
    }

    /** The rows after a cursor, at most so many. */
    method ReadPage(rows: seq<Invalidation>, after: nat, limit: nat) returns (page: seq<Invalidation>)
      ensures var from := if after <= |rows| then after else |rows|;
              page == rows[from..if from + limit <= |rows| then from + limit else |rows|]
    {
      page := [];
      var from := if after <= |rows| then after else |rows|;
      var i := from;
      while i < |rows| && |page| < limit
        invariant from <= i <= |rows| && |page| == i - from <= limit
        invariant page == rows[from..i]
      {
        page := page + [rows[i]];
        i := i + 1;
      }
    }

    // ---- dispatch ----

    /** `dispatch.go:357-441`: everything the task was ever charged, row by row, then the ceilings. */
    method Reserve(tx: Db, request: DispatchRequest, facts: Eligibility, now: int) returns (r: Check)
      ensures r == StoreModel.Reserve(tx, request, facts, now)
    {
      hide CheckCharge, Fit, ActiveOf;
      if !Fit(request.decision.resources, facts.capacity) {
        return Deny("resource_ceiling", "runner");
      }
      if ActiveOf(tx.attempts) >= 1 {
        return Deny("concurrency_ceiling", "sequential_dispatch");
      }
      var task, ceiling := request.request.taskId, request.request.envelope.budgets;
      var t := Tally(ZERO, 0, 0);
      var i := 0;
      while i < |tx.dispatches|
        invariant 0 <= i <= |tx.dispatches|
        invariant TallyTask(tx.dispatches[..i], tx.releases, task, ceiling) == Ok(t)
      {
        var d := tx.dispatches[i];
        assert tx.dispatches[..i + 1][..i] == tx.dispatches[..i];
        if d.input.request.taskId == task {
          var row := ChargeRow(t, d, d.input.id in tx.releases, ceiling);
          if row.Refused? {
            RefusalStays(tx.dispatches, tx.releases, task, ceiling, i + 1);
            return row.why;
          }
          t := row.value;
        }
        i := i + 1;
      }
      assert tx.dispatches[..i] == tx.dispatches;
      r := CheckCharge(t, request, facts, now);
    }

    /** `dispatch.go:388-414`: one retained row. The five sums are checked for overflow one at a time. */
    method ChargeRow(t: Tally, d: Dispatch, released: bool, ceiling: Budgets) returns (r: Reply<Tally>)
      ensures r == TallyRow(t, d, released, ceiling)
    {
      if !released {
        return Refused(Deny("reconciliation_required", "reservation"));
      }
      var b := d.input.allowance;
      if d.input.decision.selected.limitsProfile == NATIVE && ceiling.providerOutputTokens > 0 {
        return Refused(Deny("budget_unknown", "prior_output_tokens"));
      }
      var cost := 0;
      if b.providerCostMicros.Some? {
        cost := b.providerCostMicros.value;
      } else if ceiling.providerCostMicros.Some? {
        return Refused(Deny("budget_unknown", "prior_cost"));
      }
      var used := [t.used.requests, t.used.subattempts, t.used.attemptMs, t.used.outputTokens, t.used.cost];
      var amounts := [b.requests, b.subattempts, b.attemptMs, b.providerOutputTokens, cost];
      ghost var before := used;
      for j := 0 to 5
        invariant |used| == 5
        invariant forall k | 0 <= k < j :: used[k] == before[k] + amounts[k] && used[k] <= MAX_SAFE
        invariant forall k | j <= k < 5 :: used[k] == before[k]
      {
        if amounts[j] > MAX_SAFE - used[j] {
          assert before[j] + amounts[j] > MAX_SAFE;
          return Refused(Deny("budget_exhausted", "task"));
        }
        used := used[j := used[j] + amounts[j]];
      }
      var first := t.first;
      if first == 0 || d.createdMs < first {
        first := d.createdMs;
      }
      return Ok(Tally(Totals(used[0], used[1], used[2], used[3], used[4]), t.count + 1, first));
    }

    method Dispatch(request: DispatchRequest, now: int, placement: Placement) returns (r: Reply<StoreModel.Dispatch>)
      modifies this`db
      ensures Tx(db, r) == Dispatched(old(db), request, now, placement, site.digests)
    {
      hide CheckRequest, FindDispatch, ExpireGrants, DispatchAllowed, LatestFacts, CheckDispatch, CheckPlacement, ActiveOfTask,
           StoreModel.Reserve, MaxEpoch;
      var malformed := CheckRequest(request);
      if malformed.Deny? {
        return Refused(malformed);
      }
      var at := FindDispatch(db.dispatches, request.id);
      if at.Some? {
        if db.dispatches[at.value].input != request {
          return Refused(Deny("identity_conflict", "dispatch"));
        }
        return Ok(db.dispatches[at.value]);
      }
      var tx := ExpireRows(db, now);
      var allowed := DispatchAllowed(tx, request.request, now);
      if allowed.Deny? {
        db := tx;
        return Refused(allowed);
      }
      var facts := LatestFacts(tx.eligibility, request.decision.eligibilityId);
      if facts.None? {
        return Refused(Deny("no_eligible_tuple", "eligibility"));
      }
      var check := CheckDispatch(request.request, request.decision, facts.value, now, site.digests);
      if check.Deny? {
        return Refused(check);
      }
      check := CheckPlacement(placement);
      if check.Deny? {
        return Refused(check);
      }
      if ActiveOfTask(tx.attempts, request.request.taskId) != 0 {
        return Refused(Deny("current_assignment", "task"));
      }
      check := Reserve(tx, request, facts.value, now);
      if check.Deny? {
        return Refused(check);
      }
      var epoch := MaxEpoch(tx.attempts, request.request.taskId);
      if epoch == MAX_SAFE {
        return Refused(Deny("epoch_exhausted", "task"));
      }
      var task, row := request.request.taskId, StoreModel.Dispatch.Dispatch(request, facts.value, epoch + 1, now);
      tx := tx.(attempts := tx.attempts + [Attempt(request.id, task, epoch + 1, Assigned, 1)]);
      tx := tx.(events := tx.events + [Event(Derived(request.id, "message"), request.id, task, epoch + 1, 1, Assign)]);
      tx := tx.(dispatches := tx.dispatches + [row]);
      db := tx;
      return Ok(row);
    }

    method Deliver(caller: Caller, id: string, due: int, now: int, placement: Placement) returns (r: Reply<StoreModel.Dispatch>)
      modifies this`db
      ensures Tx(db, r) == Delivery(old(db), caller, id, due, now, placement, site.digests)
    {
      hide ExpireGrants, Deliverable;
      db := ExpireRows(db, due);
      r := Deliverable(db, caller, id, now, placement, site.digests);
    }

    method AcknowledgeAssignment(caller: Caller, id: string, ack: Ack, due: int, now: int, placement: Placement) returns (r: Reply<()>)
      modifies this`db
      ensures Tx(db, r) == Acknowledged(old(db), caller, id, ack, due, now, placement, site.digests, site.generation)
    {
      hide ExpireGrants, Deliverable, ValidId, ValidAck, FindDispatch, MessageTaken;
      if !ValidId(id) || !ValidAck(ack) {
        return Refused(Deny("malformed", ""));
      }
      var at := FindDispatch(db.dispatches, id);
      if at.None? {
        return Refused(Deny("not_found", "dispatch"));
      }
      if !caller.runner || caller.id != db.dispatches[at.value].facts.repository.runnerRoot.runnerId {
        return Refused(Deny("runner_disabled", "delivery"));
      }
      if id in db.acks {
        if db.acks[id] != ack {
          return Refused(Deny("identity_conflict", ""));
        }
        return Ok(());
      }
      var tx := ExpireRows(db, due);
      var found := Deliverable(tx, caller, id, now, placement, site.digests);
      if found.Refused? {
        db := tx;
        return Refused(found.why);
      }
      if ack.identity != IdentityOf(found.value, site.generation) || ack.assignment != id {
        return Refused(Deny("identity_conflict", ""));
      }
      if ack.runnerBoot != found.value.facts.runnerBoot || ack.daemonBoot != tx.boot {
        return Refused(Deny("boot_mismatch", ""));
      }
      var taken := Taken(tx, ack.messageId);
      if taken {
        return Refused(Deny("identity_conflict", ""));
      }
      db := tx.(acks := tx.acks[id := ack]);
      return Ok(());
    }

    /** `dispatch.go:643-646` */
    method Taken(tx: Db, m: MessageId) returns (r: bool)
      ensures r == MessageTaken(tx, m)
    {
      for i := 0 to |tx.events|
        invariant forall k | 0 <= k < i :: tx.events[k].messageId != m
      {
        if tx.events[i].messageId == m {
          return true;
        }
      }
      r := exists k :: k in tx.acks && tx.acks[k].messageId == m;
    }

    method StopDispatch(owner: bool, taskId: string) returns (r: Reply<()>)
      modifies this`db
      ensures Tx(db, r) == Stopped(old(db), owner, taskId)
    {
      hide ValidId, FindAssigned;
      if !ValidId(taskId) {
        return Refused(Deny("malformed", "task_id"));
      }
      if !owner {
        return Refused(Deny("denied", ""));
      }
      var tx := db.(stops := db.stops + {taskId});
      var at := FindAssigned(tx.attempts, taskId);
      if at.None? {
        db := tx;
        return Ok(());
      }
      var a := tx.attempts[at.value];
      var check := CheckTransition(a.revision, Assigned, Stopping, a.state, a.revision);
      if check.Deny? {
        return Refused(check);
      }
      tx := tx.(attempts := tx.attempts[at.value := a.(state := Stopping, revision := a.revision + 1)]);
      tx := tx.(events := tx.events + [Event(Derived(a.key, "stop"), a.key, a.taskId, a.epoch, a.revision + 1, Move(Assigned, Stopping))]);
      db := tx;
      return Ok(());
    }

    method ReconcileDispatch(owner: bool, proof: Reconciliation) returns (r: Reply<()>)
      modifies this`db
      ensures Tx(db, r) == Reconciled(old(db), owner, proof, site.generation)
    {
      hide GoodEvidence, FindDispatch, FindAttempt, Edges;
      if !GoodEvidence(proof) {
        return Refused(Deny("reconciliation_required", "evidence"));
      }
      if !owner {
        return Refused(Deny("denied", ""));
      }
      var at := FindDispatch(db.dispatches, proof.dispatchId);
      var attempt := FindAttempt(db.attempts, proof.dispatchId);
      if at.None? || attempt.None? {
        return Refused(Deny("not_found", "dispatch"));
      }
      if proof.identity != IdentityOf(db.dispatches[at.value], site.generation) {
        return Refused(Deny("stale_attempt", ""));
      }
      if proof.dispatchId in db.releases {
        if db.releases[proof.dispatchId] != proof {
          return Refused(Deny("identity_conflict", ""));
        }
        return Ok(());
      }
      var tx, a := db, db.attempts[attempt.value];
      var check := CheckTransition(proof.expectedRevision, a.state, proof.to, a.state, a.revision);
      if check.Deny? {
        return Refused(check);
      }
      tx := tx.(attempts := tx.attempts[attempt.value := a.(state := proof.to, revision := a.revision + 1)]);
      tx := tx.(events := tx.events +
                [Event(Derived(proof.dispatchId, "terminal"), a.key, a.taskId, a.epoch, a.revision + 1, Move(a.state, proof.to))]);
      tx := tx.(releases := tx.releases[proof.dispatchId := proof]);
      db := tx;
      return Ok(());
    }

    /** `recovery.go:12-51`: every message is made and checked before the first row is written. */
    method Restart(now: int, boot: string) returns (r: Reply<()>)
      modifies this`db
      ensures Tx(db, r) == Restarted(old(db), now, boot)
    {
      hide ExpireGrants, CheckTransition, Recovered;
      var tx := ExpireRows(db, now);
      tx := tx.(boot := boot);
      ghost var expired := tx;
      var messages: seq<nat> := [];
      NoneRecovered(tx);
      for i := 0 to |tx.attempts|
        invariant db == old(db) && Recovered(tx, i).Ok?
        invariant messages == Uncertain(tx.attempts, i)
      {
        var a := tx.attempts[i];
        NextRecovered(tx, i);
        if Resumable(a.state) {
          var check := CheckTransition(a.revision, a.state, Unknown, a.state, a.revision);
          if check.Deny? {
            RecoveryStuck(tx, i + 1, |tx.attempts|);
            return Refused(check);
          }
          messages := messages + [i];
        }
      }
      RecoveredMoves(expired, |expired.attempts|);
      assert messages[..0] == [];
      for m := 0 to |messages|
        invariant |tx.attempts| == |expired.attempts|
        invariant InRange(messages, |expired.attempts|) && InRange(messages[..m], |expired.attempts|)
        invariant tx == MoveAll(expired, messages[..m])
      {
        assert messages[..m + 1][..m] == messages[..m];
        var i := messages[m];
        var a := tx.attempts[i];
        var messageId := Random(|tx.events|);
        tx := tx.(attempts := tx.attempts[i := a.(state := Unknown, revision := a.revision + 1)],
                  events := tx.events + [Event(messageId, a.key, a.taskId, a.epoch, a.revision + 1, Move(a.state, Unknown))]);
      }
      assert messages[..|messages|] == messages;
      db := tx;
      return Ok(());
    }

    method PublishEligibility(owner: bool, expected: int, v: Eligibility, placement: Placement) returns (r: Reply<()>)
      modifies this`db
      ensures Tx(db, r) == Published(old(db), owner, expected, v, placement)
    {
      hide ValidateFacts, LatestFacts;
      if expected < 0 || expected >= MAX_SAFE {
        return Refused(Deny("malformed", "revision"));
      }
      var malformed := ValidateFacts(v);
      if malformed.Deny? {
        return Refused(malformed);
      }
      if !owner {
        return Refused(Deny("denied", ""));
      }
      if !placement.profileFound {
        return Refused(Deny("repository_ineligible", "repository"));
      }
      if !placement.selects {
        return Refused(Deny("repository_ineligible", "selection"));
      }
      var previous := LatestFacts(db.eligibility, v.id);
      var revision := if previous.Some? then previous.value.revision else 0;
      if previous == Some(v) && (expected == revision || expected == revision - 1) {
        return Ok(());
      }
      if revision != expected || v.revision != expected + 1 {
        return Refused(Deny("revision_conflict", "eligibility"));
      }
      if previous.Some? && (previous.value.repository.repository != v.repository.repository ||
                            previous.value.repository.runnerRoot != v.repository.runnerRoot) {
        return Refused(Deny("identity_conflict", "eligibility_pairing"));
      }
      for i := 0 to |db.eligibility|
        invariant db == old(db)
        invariant forall k | 0 <= k < i :: !Paired(db.eligibility[k], v)
      {
        if Paired(db.eligibility[i], v) {
          assert db.eligibility[i] in db.eligibility;
          return Refused(Deny("identity_conflict", "eligibility_pairing"));
        }
      }
      db := db.(eligibility := db.eligibility + [v]);
      return Ok(());
    }
  }

  /** Every operation of a run is one call on the object, so the theorems about runs are about the object's states. */
  method Perform(store: Store, op: Op)
    modifies store`db
    ensures store.db == Step(old(store.db), op, store.site)
  {
    hide StoreModel.ChangeExecution, StoreModel.InvalidateExecution, StoreModel.CheckExecution, StoreModel.ExecutionInvalidations, Published,
         Dispatched, Delivery, Acknowledged, Stopped, Reconciled, Restarted;
    match op {
      case Approve(expectedId, g, now) => var _ := store.ChangeExecution(expectedId, g, true, now);
      case Restrict(expectedId, g, now) => var _ := store.ChangeExecution(expectedId, g, false, now);
      case Invalidate(taskId, expectedId, actor, reason, now) => var _ := store.InvalidateExecution(taskId, expectedId, actor, reason, now);
      case CheckAuthorityOf(request, now) => var _ := store.CheckExecution(request, now);
      case ReadInvalidations(after, limit, now) => var _ := store.ExecutionInvalidations(after, limit, now);
      case Publish(owner, expected, facts, w) => var _ := store.PublishEligibility(owner, expected, facts, w);
      case Admit(request, now, w) => var _ := store.Dispatch(request, now, w);
      case Deliver(caller, id, due, now, w) => var _ := store.Deliver(caller, id, due, now, w);
      case Acknowledge(caller, id, ack, due, now, w) => var _ := store.AcknowledgeAssignment(caller, id, ack, due, now, w);
      case Stop(owner, taskId) => var _ := store.StopDispatch(owner, taskId);
      case Reconcile(owner, proof) => var _ := store.ReconcileDispatch(owner, proof);
      case Restart(now, boot) => var _ := store.Restart(now, boot);
    }
  }

  predicate Paired(e: Eligibility, v: Eligibility) {
    e.id != v.id && e.repository.repository == v.repository.repository && e.repository.runnerRoot == v.repository.runnerRoot
  }

  lemma {:induction false} RefusalStays(dispatches: seq<StoreModel.Dispatch>, releases: map<string, Reconciliation>, taskId: string,
                                        ceiling: Budgets, n: nat)
    requires n <= |dispatches| && TallyTask(dispatches[..n], releases, taskId, ceiling).Refused?
    ensures TallyTask(dispatches, releases, taskId, ceiling) == TallyTask(dispatches[..n], releases, taskId, ceiling)
  {
    hide TallyRow;
    if n < |dispatches| {
      assert dispatches[..|dispatches| - 1][..n] == dispatches[..n];
      RefusalStays(dispatches[..|dispatches| - 1], releases, taskId, ceiling, n);
    } else {
      assert dispatches[..n] == dispatches;
    }
  }

  // ---- recovery in two passes equals recovery row by row ----

  predicate InRange(rows: seq<nat>, n: nat) {
    forall k | 0 <= k < |rows| :: rows[k] < n
  }

  /** The rows a restart finds uncertain, of the first n. */
  function Uncertain(attempts: seq<Attempt>, n: nat): (rows: seq<nat>)
    requires n <= |attempts|
    ensures InRange(rows, n)
  {
    if n == 0 then []
    else Uncertain(attempts, n - 1) + (if Resumable(attempts[n - 1].state) then [n - 1] else [])
  }

  function MoveAll(db: Db, rows: seq<nat>): (after: Db)
    requires InRange(rows, |db.attempts|)
    ensures |after.attempts| == |db.attempts|
  {
    if |rows| == 0 then db
    else
      var earlier := MoveAll(db, rows[..|rows| - 1]);
      Moved(earlier, rows[|rows| - 1], Unknown, Random(|earlier.events|))
  }

  lemma NoneRecovered(db: Db)
    ensures Recovered(db, 0) == Ok(db)
  {
  }

  lemma MoveNone(db: Db)
    ensures MoveAll(db, []) == db
  {
  }

  lemma MoveMore(db: Db, rows: seq<nat>, i: nat)
    requires InRange(rows, |db.attempts|) && i < |db.attempts|
    ensures InRange(rows + [i], |db.attempts|)
    ensures var earlier := MoveAll(db, rows); MoveAll(db, rows + [i]) == Moved(earlier, i, Unknown, Random(|earlier.events|))
  {
    hide Moved;
    assert (rows + [i])[..|rows|] == rows;
  }

  lemma MovedOne(db: Db, i: nat)
    requires i < |db.attempts|
    ensures var after := Moved(db, i, Unknown, Random(|db.events|));
            |after.attempts| == |db.attempts| && forall k | 0 <= k < |db.attempts| && k != i :: after.attempts[k] == db.attempts[k]
  {
  }

  lemma {:induction false} RecoveredMoves(db: Db, n: nat)
    requires n <= |db.attempts|
    ensures Recovered(db, n).Ok? ==> Recovered(db, n).value == MoveAll(db, Uncertain(db.attempts, n))
    ensures Recovered(db, n).Ok? ==> forall k | n <= k < |db.attempts| :: Recovered(db, n).value.attempts[k] == db.attempts[k]
  {
    hide CheckTransition, Resumable, MoveAll, Moved;
    if n > 0 {
      RecoveredMoves(db, n - 1);
      var rows := Uncertain(db.attempts, n - 1);
      MoveMore(db, rows, n - 1);
      assert rows + [] == rows;
      if Recovered(db, n - 1).Ok? {
        MovedOne(Recovered(db, n - 1).value, n - 1);
      }
    } else {
      MoveNone(db);
    }
  }

  lemma NextRecovered(db: Db, n: nat)
    requires n < |db.attempts| && Recovered(db, n).Ok?
    ensures var a := db.attempts[n];
            var check := CheckTransition(a.revision, a.state, Unknown, a.state, a.revision);
            && (!Resumable(a.state) || check.Pass? ==> Recovered(db, n + 1).Ok?)
            && (Resumable(a.state) && check.Deny? ==> Recovered(db, n + 1) == Refused(check))
  {
    hide CheckTransition, Resumable;
    RecoveredMoves(db, n);
  }

  lemma {:induction false} RecoveryStuck(db: Db, n: nat, m: nat)
    requires n <= m <= |db.attempts| && Recovered(db, n).Refused?
    ensures Recovered(db, m) == Recovered(db, n)
  {
    if n < m {
      RecoveryStuck(db, n, m - 1);
    }
  }
}
