/** What the grant tables keep over every transaction. */
module GrantInvariant {
  import opened Text
  import opened Authority
  import opened StoreModel

  function CountOfTask(grants: seq<Grant>, taskId: string): nat {
    if |grants| == 0 then 0
    else CountOfTask(grants[..|grants| - 1], taskId) + (if grants[|grants| - 1].taskId == taskId then 1 else 0)
  }

  /** The newest row of a task. */
  function Newest(grants: seq<Grant>, taskId: string): (at: Option<nat>)
    ensures at.Some? ==> at.value < |grants| && grants[at.value].taskId == taskId
    ensures at.Some? ==> forall i | at.value < i < |grants| :: grants[i].taskId != taskId
    ensures at.None? ==> forall i | 0 <= i < |grants| :: grants[i].taskId != taskId
  {
    if |grants| == 0 then None
    else if grants[|grants| - 1].taskId == taskId then Some(|grants| - 1)
    else Newest(grants[..|grants| - 1], taskId)
  }

  ghost predicate DistinctIds(grants: seq<Grant>) {
    forall i, k | 0 <= i < k < |grants| :: grants[i].id != grants[k].id
  }

  /** Revisions of a task count its rows from 1. */
  ghost predicate Ranked(grants: seq<Grant>) {
    forall i | 0 <= i < |grants| :: grants[i].revision == CountOfTask(grants[..i], grants[i].taskId) + 1
  }

  /** Every later grant of a task replaces every earlier one. */
  ghost predicate Continuing(grants: seq<Grant>) {
    forall i, k | 0 <= i < k < |grants| && grants[i].taskId == grants[k].taskId ::
      Replacement(grants[k].envelope, grants[i].envelope).Pass?
  }

  ghost predicate AllValid(grants: seq<Grant>) {
    forall i | 0 <= i < |grants| :: ValidateGrant(grants[i]).Pass?
  }

  /** The head of a task is its newest row. */
  ghost predicate HeadsNewest(grants: seq<Grant>, heads: map<string, string>) {
    forall taskId :: if Newest(grants, taskId).Some?
                     then taskId in heads && heads[taskId] == grants[Newest(grants, taskId).value].id
                     else taskId !in heads
  }

  predicate Invalidated(invalidations: seq<Invalidation>, id: string) {
    FindInvalidation(invalidations, id).Some?
  }

  /** Each grant is invalidated at most once, and only rows that exist are. */
  ghost predicate InvalidatedOnce(grants: seq<Grant>, invalidations: seq<Invalidation>) {
    && (forall i, k | 0 <= i < k < |invalidations| :: invalidations[i].grantId != invalidations[k].grantId)
    && (forall i | 0 <= i < |invalidations| :: FindGrant(grants, invalidations[i].grantId).Some?)
  }

  /** Every row that is not a head was invalidated. */
  ghost predicate OldInvalidated(grants: seq<Grant>, heads: map<string, string>, invalidations: seq<Invalidation>) {
    forall i | 0 <= i < |grants| && !(grants[i].taskId in heads && heads[grants[i].taskId] == grants[i].id) ::
      Invalidated(invalidations, grants[i].id)
  }

  ghost predicate WithinApproval(grants: seq<Grant>, approved: map<string, Envelope>) {
    forall taskId | Newest(grants, taskId).Some? ::
      taskId in approved && Within(grants[Newest(grants, taskId).value].envelope, approved[taskId]).Pass?
  }

  ghost predicate GrantsGood(db: Db) {
    match db
    case Db(grants, heads, invalidations, _, _, _, _, _, _, _, approved, _) =>
      && DistinctIds(grants) && Ranked(grants) && Continuing(grants) && AllValid(grants)
      && HeadsNewest(grants, heads) && InvalidatedOnce(grants, invalidations)
      && OldInvalidated(grants, heads, invalidations) && WithinApproval(grants, approved)
  }

  lemma EmptyGrantsGood()
    ensures GrantsGood(EMPTY)
  {
  }

  // ---- lookups ----

  lemma {:induction false} FindGrantAt(grants: seq<Grant>, i: nat)
    requires DistinctIds(grants) && i < |grants|
    ensures FindGrant(grants, grants[i].id) == Some(grants[i])
  {
    var found := FindGrant(grants, grants[i].id);
    assert grants[i] in grants;
    var k :| 0 <= k < |grants| && grants[k] == found.value;
  }

  lemma {:induction false} FindInvalidationMore(invalidations: seq<Invalidation>, more: seq<Invalidation>, id: string)
    ensures Invalidated(invalidations, id) ==> FindInvalidation(invalidations + more, id) == FindInvalidation(invalidations, id)
    ensures Invalidated(more, id) ==> Invalidated(invalidations + more, id)
    ensures Invalidated(invalidations + more, id) ==> Invalidated(invalidations, id) || Invalidated(more, id)
  {
    if |invalidations| == 0 {
      assert invalidations + more == more;
    } else {
      FindInvalidationMore(invalidations[1..], more, id);
      assert (invalidations + more)[1..] == invalidations[1..] + more;
    }
  }

  lemma HeadIsNewest(db: Db, taskId: string)
    requires GrantsGood(db)
    ensures Head(db, taskId) == var at := Newest(db.grants, taskId); if at.Some? then Some(db.grants[at.value]) else None
  {
    var at := Newest(db.grants, taskId);
    if at.Some? {
      FindGrantAt(db.grants, at.value);
    }
  }

  // ---- inserting a grant ----

  lemma NewestMore(grants: seq<Grant>, g: Grant, taskId: string)
    ensures Newest(grants + [g], taskId) == if g.taskId == taskId then Some(|grants|) else Newest(grants, taskId)
  {
    assert (grants + [g])[..|grants|] == grants;
  }

  lemma {:induction false} NewestHasHighestRank(grants: seq<Grant>, taskId: string)
    requires Ranked(grants)
    ensures var at := Newest(grants, taskId);
            CountOfTask(grants, taskId) == if at.Some? then grants[at.value].revision else 0
  {
    if |grants| > 0 && grants[|grants| - 1].taskId != taskId {
      var init := grants[..|grants| - 1];
      assert forall i | 0 <= i < |init| :: init[..i] == grants[..i];
      NewestHasHighestRank(init, taskId);
    }
  }

  lemma {:induction false} ReplacesEach(grants: seq<Grant>, taskId: string, next: Envelope, i: nat)
    requires ReplacesAll(grants, taskId, next).Pass? && i < |grants| && grants[i].taskId == taskId
    ensures Replacement(next, grants[i].envelope).Pass?
  {
    if i < |grants| - 1 {
      ReplacesEach(grants[..|grants| - 1], taskId, next, i);
    }
  }

  lemma InsertedRanks(grants: seq<Grant>, g: Grant)
    requires Ranked(grants) && g.revision == CountOfTask(grants, g.taskId) + 1
    ensures Ranked(grants + [g])
  {
    var rows := grants + [g];
    forall i | 0 <= i < |rows| ensures rows[i].revision == CountOfTask(rows[..i], rows[i].taskId) + 1 {
      assert rows[..i] == grants[..i];
      assert grants[..|grants|] == grants;
    }
  }

  lemma InsertedRows(grants: seq<Grant>, g: Grant)
    requires DistinctIds(grants) && Continuing(grants) && AllValid(grants)
    requires FindGrant(grants, g.id).None? && ValidateGrant(g).Pass?
    requires forall i | 0 <= i < |grants| && grants[i].taskId == g.taskId :: Replacement(g.envelope, grants[i].envelope).Pass?
    ensures var rows := grants + [g]; DistinctIds(rows) && Continuing(rows) && AllValid(rows)
  {
    hide ValidateGrant, Replacement;
    assert forall i | 0 <= i < |grants| :: grants[i] in grants;
  }

  lemma InsertedHeads(grants: seq<Grant>, heads: map<string, string>, g: Grant)
    requires HeadsNewest(grants, heads)
    ensures HeadsNewest(grants + [g], heads[g.taskId := g.id])
  {
    forall taskId: string
      ensures var at := Newest(grants + [g], taskId);
              var more := heads[g.taskId := g.id];
              if at.Some? then taskId in more && more[taskId] == (grants + [g])[at.value].id else taskId !in more
    {
      NewestMore(grants, g, taskId);
    }
  }

  lemma {:induction false} FindGrantMore(grants: seq<Grant>, g: Grant, id: string)
    requires FindGrant(grants, id).Some?
    ensures FindGrant(grants + [g], id) == FindGrant(grants, id)
  {
    if grants[0].id != id {
      FindGrantMore(grants[1..], g, id);
      assert (grants + [g])[1..] == grants[1..] + [g];
    }
  }

  /** Inserting a checked grant over an invalidated (or missing) head. */
  lemma InsertKeeps(db: Db, g: Grant, approval: bool)
    requires GrantsGood(db) && FindGrant(db.grants, g.id).None? && ValidateGrant(g).Pass?
    requires g.revision == CountOfTask(db.grants, g.taskId) + 1
    requires forall i | 0 <= i < |db.grants| && db.grants[i].taskId == g.taskId :: Replacement(g.envelope, db.grants[i].envelope).Pass?
    requires var at := Newest(db.grants, g.taskId); at.Some? ==> Invalidated(db.invalidations, db.grants[at.value].id)
    requires !approval ==> g.taskId in db.approved && Within(g.envelope, db.approved[g.taskId]).Pass?
    ensures GrantsGood(InsertGrant(db, g, approval))
  {
    hide ValidateGrant, Replacement, Within, DistinctIds, Ranked, Continuing, AllValid, HeadsNewest, OldInvalidated, InvalidatedOnce,
         WithinApproval, FindGrant, CountOfTask, Newest, Invalidated;
    InsertedRows(db.grants, g);
    InsertedRanks(db.grants, g);
    InsertedHeads(db.grants, db.heads, g);
    InsertedOnce(db.grants, db.invalidations, g);
    InsertedOld(db, g);
    InsertedWithin(db.grants, db.approved, g, approval);
  }

  lemma InsertedOnce(grants: seq<Grant>, invalidations: seq<Invalidation>, g: Grant)
    requires InvalidatedOnce(grants, invalidations)
    ensures InvalidatedOnce(grants + [g], invalidations)
  {
    hide FindGrant;
    forall i | 0 <= i < |invalidations| ensures FindGrant(grants + [g], invalidations[i].grantId).Some? {
      FindGrantMore(grants, g, invalidations[i].grantId);
    }
  }

  lemma InsertedWithin(grants: seq<Grant>, approved: map<string, Envelope>, g: Grant, approval: bool)
    requires WithinApproval(grants, approved) && ValidateGrant(g).Pass?
    requires !approval ==> g.taskId in approved && Within(g.envelope, approved[g.taskId]).Pass?
    ensures WithinApproval(grants + [g], if approval then approved[g.taskId := g.envelope] else approved)
  {
    hide ValidateGrant, Within, Newest;
    var rows, later := grants + [g], if approval then approved[g.taskId := g.envelope] else approved;
    if approval {
      ApprovedWithinItself(g);
    }
    forall taskId | Newest(rows, taskId).Some?
      ensures taskId in later && Within(rows[Newest(rows, taskId).value].envelope, later[taskId]).Pass?
    {
      NewestMore(grants, g, taskId);
    }
  }

  lemma ApprovedWithinItself(g: Grant)
    requires ValidateGrant(g).Pass?
    ensures Within(g.envelope, g.envelope).Pass?
  {
    hide Validate;
    WithinReflexive(g.envelope);
  }

  lemma InsertedOld(db: Db, g: Grant)
    requires HeadsNewest(db.grants, db.heads) && OldInvalidated(db.grants, db.heads, db.invalidations) && DistinctIds(db.grants)
    requires var at := Newest(db.grants, g.taskId); at.Some? ==> Invalidated(db.invalidations, db.grants[at.value].id)
    ensures OldInvalidated(db.grants + [g], db.heads[g.taskId := g.id], db.invalidations)
  {
    var rows, heads := db.grants + [g], db.heads[g.taskId := g.id];
    forall i | 0 <= i < |rows| && !(rows[i].taskId in heads && heads[rows[i].taskId] == rows[i].id)
      ensures Invalidated(db.invalidations, rows[i].id)
    {
      assert i < |db.grants| && rows[i] == db.grants[i];
      if rows[i].taskId == g.taskId && rows[i].taskId in db.heads && db.heads[rows[i].taskId] == rows[i].id {
        assert rows[i].id == db.grants[Newest(db.grants, g.taskId).value].id;
      }
    }
  }

  // ---- adding an invalidation ----

  lemma InvalidateKeeps(db: Db, id: string, reason: string, actor: string, now: int)
    requires GrantsGood(db) && FindGrant(db.grants, id).Some? && !Invalidated(db.invalidations, id)
    ensures GrantsGood(WithInvalidation(db, id, reason, actor, now))
    ensures Invalidated(WithInvalidation(db, id, reason, actor, now).invalidations, id)
  {
    hide DistinctIds, Ranked, Continuing, AllValid, HeadsNewest, WithinApproval, InvalidatedOnce;
    var more := [Invalidation(id, reason, actor, now)];
    forall x: string ensures Invalidated(db.invalidations, x) ==> Invalidated(db.invalidations + more, x) {
      FindInvalidationMore(db.invalidations, more, x);
    }
    InvalidatedOnceMore(db.grants, db.invalidations, more[0]);
  }

  lemma InvalidatedOnceMore(grants: seq<Grant>, invalidations: seq<Invalidation>, i: Invalidation)
    requires InvalidatedOnce(grants, invalidations) && FindGrant(grants, i.grantId).Some? && !Invalidated(invalidations, i.grantId)
    ensures InvalidatedOnce(grants, invalidations + [i]) && Invalidated(invalidations + [i], i.grantId)
  {
    FindInvalidationMore(invalidations, [i], i.grantId);
    assert forall k | 0 <= k < |invalidations| :: invalidations[k] in invalidations;
  }

  // ---- expiry ----

  predicate NoRepeats(ids: seq<string>) {
    forall i, k | 0 <= i < k < |ids| :: ids[i] != ids[k]
  }

  lemma {:induction false} InsertByIdMembers(ids: seq<string>, id: string)
    ensures forall x :: x in InsertById(ids, id) <==> x == id || x in ids
    ensures NoRepeats(ids) && id !in ids ==> NoRepeats(InsertById(ids, id))
    ensures |InsertById(ids, id)| == |ids| + 1
  {
    if |ids| > 0 && !Before(id, ids[0]) {
      InsertByIdMembers(ids[1..], id);
      var rest := InsertById(ids[1..], id);
      assert ids == [ids[0]] + ids[1..];
      if NoRepeats(ids) && id !in ids {
        assert forall k | 0 <= k < |ids[1..]| :: ids[1..][k] == ids[k + 1];
        assert NoRepeats(ids[1..]);
        assert ids[0] !in ids[1..];
        assert forall k | 0 <= k < |rest| :: rest[k] in rest;
      }
    } else if |ids| > 0 {
      assert forall k | 0 <= k < |ids| :: ids[k] in ids;
    }
  }

  /** Expiry marks each due head once. */
  lemma {:induction false} DueMembers(db: Db, grants: seq<Grant>, now: int)
    requires DistinctIds(grants)
    ensures forall x :: x in Due(db, grants, now) <==> exists i :: 0 <= i < |grants| && grants[i].id == x && IsDue(db, grants[i], now)
    ensures NoRepeats(Due(db, grants, now))
  {
    if |grants| > 0 {
      var init, g := grants[..|grants| - 1], grants[|grants| - 1];
      DueMembers(db, init, now);
      var rest := Due(db, init, now);
      assert forall i | 0 <= i < |init| :: init[i] == grants[i];
      InsertByIdMembers(rest, g.id);
      forall x ensures x in Due(db, grants, now) <==> exists i :: 0 <= i < |grants| && grants[i].id == x && IsDue(db, grants[i], now) {
        if i :| 0 <= i < |grants| && grants[i].id == x && IsDue(db, grants[i], now) {
          assert i < |init| ==> init[i].id == x && IsDue(db, init[i], now);
        }
      }
    }
  }

  function Marks(ids: seq<string>, now: int): seq<Invalidation> {
    if |ids| == 0 then [] else [Invalidation(ids[0], "expired", "clock", now)] + Marks(ids[1..], now)
  }

  lemma {:induction false} ExpireAllAppends(db: Db, ids: seq<string>, now: int)
    ensures ExpireAll(db, ids, now) == db.(invalidations := db.invalidations + Marks(ids, now))
    decreases |ids|
  {
    if |ids| == 0 {
      assert db.invalidations + [] == db.invalidations;
    } else {
      var one := WithInvalidation(db, ids[0], "expired", "clock", now);
      ExpireAllAppends(one, ids[1..], now);
      assert db.invalidations + ([Invalidation(ids[0], "expired", "clock", now)] + Marks(ids[1..], now)) ==
             one.invalidations + Marks(ids[1..], now);
    }
  }

  lemma {:induction false} ExpireAllKeeps(db: Db, ids: seq<string>, now: int)
    requires GrantsGood(db) && NoRepeats(ids)
    requires forall x | x in ids :: FindGrant(db.grants, x).Some? && !Invalidated(db.invalidations, x)
    ensures GrantsGood(ExpireAll(db, ids, now))
    ensures forall x | x in ids :: Invalidated(ExpireAll(db, ids, now).invalidations, x)
    decreases |ids|
  {
    hide GrantsGood;
    if |ids| > 0 {
      var one := WithInvalidation(db, ids[0], "expired", "clock", now);
      InvalidateKeeps(db, ids[0], "expired", "clock", now);
      forall x | x in ids[1..] ensures FindGrant(one.grants, x).Some? && !Invalidated(one.invalidations, x) {
        FindInvalidationMore(db.invalidations, [Invalidation(ids[0], "expired", "clock", now)], x);
      }
      ExpireAllKeeps(one, ids[1..], now);
      ExpireAllAppends(one, ids[1..], now);
      FindInvalidationMore(one.invalidations, Marks(ids[1..], now), ids[0]);
      assert ids == [ids[0]] + ids[1..];
    }
  }

  lemma ExpireKeeps(db: Db, now: int)
    requires GrantsGood(db)
    ensures GrantsGood(ExpireGrants(db, now))
    ensures ExpireGrants(db, now) == db.(invalidations := ExpireGrants(db, now).invalidations)
    ensures db.invalidations <= ExpireGrants(db, now).invalidations
    ensures forall i | 0 <= i < |db.grants| && IsDue(db, db.grants[i], now) ::
              Invalidated(ExpireGrants(db, now).invalidations, db.grants[i].id)
  {
    var ids := Due(db, db.grants, now);
    DueMembers(db, db.grants, now);
    forall x | x in ids ensures FindGrant(db.grants, x).Some? && !Invalidated(db.invalidations, x) {
      var i :| 0 <= i < |db.grants| && db.grants[i].id == x && IsDue(db, db.grants[i], now);
      FindGrantAt(db.grants, i);
    }
    ExpireAllKeeps(db, ids, now);
    ExpireAllAppends(db, ids, now);
  }

  // ---- the transactions ----

  lemma SupersedeKeeps(db: Db, previous: Grant, actor: string, now: int)
    requires GrantsGood(db) && FindGrant(db.grants, previous.id).Some?
    ensures var later := Supersede(db, previous, actor, now);
            && GrantsGood(later) && Invalidated(later.invalidations, previous.id)
            && later == db.(invalidations := later.invalidations) && db.invalidations <= later.invalidations
  {
    hide GrantsGood;
    if !Invalidated(db.invalidations, previous.id) {
      InvalidateKeeps(db, previous.id, if now >= previous.envelope.expiresMs then "expired" else "superseded", actor, now);
    }
  }

  /** Changing the execution grant of a task keeps every grant invariant. */
  lemma ChangeKeeps(db: Db, expectedId: string, g: Grant, approval: bool, now: int)
    requires GrantsGood(db)
    ensures GrantsGood(ChangeExecution(db, expectedId, g, approval, now).db)
  {
    hide GrantsGood, ValidateGrant, FirstGrant, NextGrant, LiveGrant, Head, ValidId;
    var head := Head(db, g.taskId);
    if ValidateGrant(g).Pass? && FindGrant(db.grants, g.id).None? {
      if head.None? {
        FirstGrantKeeps(db, g, approval, now);
      } else {
        NextGrantKeeps(db, g, approval, now);
      }
    }
  }

  lemma FirstGrantKeeps(db: Db, g: Grant, approval: bool, now: int)
    requires GrantsGood(db) && ValidateGrant(g).Pass? && FindGrant(db.grants, g.id).None? && Head(db, g.taskId).None?
    ensures GrantsGood(FirstGrant(db, g, approval, now).db)
  {
    hide GrantsGood, ValidateGrant, Head, InsertGrant, FindGrant, CountOfTask;
    HeadIsNewest(db, g.taskId);
    GoodRanks(db, g.taskId);
    if approval && g.revision == 1 {
      InsertKeeps(db, g, approval);
    }
  }

  lemma NextGrantKeeps(db: Db, g: Grant, approval: bool, now: int)
    requires GrantsGood(db) && ValidateGrant(g).Pass? && FindGrant(db.grants, g.id).None? && Head(db, g.taskId).Some?
    ensures GrantsGood(NextGrant(db, Head(db, g.taskId).value, g, approval, now).db)
  {
    hide GrantsGood, ValidateGrant, Head, InsertGrant, FindGrant, CountOfTask, ChangeRefusal, ContinuityRefusal, Unchanged, Supersede;
    var previous := Head(db, g.taskId).value;
    if ChangeRefusal(db, previous, g, approval, now).Pass? && ContinuityRefusal(db, previous, g, approval).Pass? {
      ReplacingKeeps(db, previous, g, approval, now);
    }
  }

  lemma ReplacingKeeps(db: Db, previous: Grant, g: Grant, approval: bool, now: int)
    requires GrantsGood(db) && ValidateGrant(g).Pass? && FindGrant(db.grants, g.id).None? && Head(db, g.taskId) == Some(previous)
    requires ChangeRefusal(db, previous, g, approval, now).Pass? && ContinuityRefusal(db, previous, g, approval).Pass?
    ensures GrantsGood(InsertGrant(Supersede(db, previous, g.actor, now), g, approval))
  {
    hide GrantsGood, Within, ValidateGrant, Replacement, Supersede, LiveGrant, InsertGrant, Invalidated, FindGrant, CountOfTask;
    HeadIsNewest(db, g.taskId);
    GoodRanks(db, g.taskId);
    HeadIsKnown(db, g.taskId);
    SupersedeKeeps(db, previous, g.actor, now);
    ReplacesEvery(db, g);
    if !approval {
      HeadWithinApproval(db, g.taskId);
      WithinTransitive(g.envelope, previous.envelope, db.approved[g.taskId]);
    }
    InsertKeeps(Supersede(db, previous, g.actor, now), g, approval);
  }

  lemma HeadIsKnown(db: Db, taskId: string)
    requires Head(db, taskId).Some?
    ensures FindGrant(db.grants, Head(db, taskId).value.id).Some?
  {
  }

  lemma ReplacesEvery(db: Db, g: Grant)
    requires ReplacesAll(db.grants, g.taskId, g.envelope).Pass?
    ensures forall i | 0 <= i < |db.grants| && db.grants[i].taskId == g.taskId :: Replacement(g.envelope, db.grants[i].envelope).Pass?
  {
    hide Replacement, ReplacesAll;
    forall i | 0 <= i < |db.grants| && db.grants[i].taskId == g.taskId
      ensures Replacement(g.envelope, db.grants[i].envelope).Pass?
    {
      ReplacesEach(db.grants, g.taskId, g.envelope, i);
    }
  }

  lemma GoodRanks(db: Db, taskId: string)
    requires GrantsGood(db)
    ensures var at := Newest(db.grants, taskId);
            CountOfTask(db.grants, taskId) == if at.Some? then db.grants[at.value].revision else 0
  {
    NewestHasHighestRank(db.grants, taskId);
  }

  /** The head of a task lies inside the envelope last approved for it, through every restriction since. */
  lemma HeadWithinApproval(db: Db, taskId: string)
    requires GrantsGood(db) && Head(db, taskId).Some?
    ensures taskId in db.approved && Within(Head(db, taskId).value.envelope, db.approved[taskId]).Pass?
  {
    hide Within;
    HeadIsNewest(db, taskId);
  }

  lemma InvalidateExecutionKeeps(db: Db, taskId: string, expectedId: string, actor: string, reason: string, now: int)
    requires GrantsGood(db)
    ensures GrantsGood(InvalidateExecution(db, taskId, expectedId, actor, reason, now).db)
  {
    hide GrantsGood;
    var head := Head(db, taskId);
    if head.Some? && head.value.id == expectedId && !Invalidated(db.invalidations, expectedId) {
      InvalidateKeeps(db, expectedId, reason, actor, now);
    }
  }

  // ---- what the invariant says ----

  predicate IsLive(db: Db, g: Grant, now: int) {
    LiveGrant(db, g, now).Pass?
  }

  /** At most one grant of a task is live: the newest. */
  lemma OnlyHeadIsLive(db: Db, i: nat, now: int)
    requires GrantsGood(db) && i < |db.grants| && IsLive(db, db.grants[i], now)
    ensures Newest(db.grants, db.grants[i].taskId) == Some(i) && Head(db, db.grants[i].taskId) == Some(db.grants[i])
  {
    hide Within, Replacement, ValidateGrant;
    HeadIsNewest(db, db.grants[i].taskId);
  }

  predicate HasRank(grants: seq<Grant>, taskId: string, n: int) {
    exists i :: 0 <= i < |grants| && grants[i].taskId == taskId && grants[i].revision == n
  }

  lemma HasRankMore(grants: seq<Grant>, g: Grant, taskId: string, n: int)
    ensures HasRank(grants + [g], taskId, n) <==> HasRank(grants, taskId, n) || (g.taskId == taskId && g.revision == n)
  {
    var rows := grants + [g];
    if HasRank(grants, taskId, n) {
      var i :| 0 <= i < |grants| && grants[i].taskId == taskId && grants[i].revision == n;
      assert rows[i] == grants[i];
    } else if g.taskId == taskId && g.revision == n {
      assert rows[|grants|] == g;
    }
  }

  lemma {:induction false} RanksCover(grants: seq<Grant>, taskId: string, n: int)
    requires Ranked(grants)
    ensures 1 <= n <= CountOfTask(grants, taskId) <==> HasRank(grants, taskId, n)
  {
    hide HasRank;
    if |grants| == 0 {
      NoRank(taskId, n);
      assert grants == [];
    } else {
      var init, last := grants[..|grants| - 1], grants[|grants| - 1];
      RankedInit(grants);
      RanksCover(init, taskId, n);
      HasRankMore(init, last, taskId, n);
      assert grants == init + [last];
    }
  }

  lemma NoRank(taskId: string, n: int)
    ensures !HasRank([], taskId, n)
  {
  }

  lemma RankedInit(grants: seq<Grant>)
    requires Ranked(grants) && |grants| > 0
    ensures var init, last := grants[..|grants| - 1], grants[|grants| - 1];
            Ranked(init) && last.revision == CountOfTask(init, last.taskId) + 1
  {
    hide CountOfTask;
    var init := grants[..|grants| - 1];
    assert forall i | 0 <= i < |init| :: init[..i] == grants[..i] && init[i] == grants[i];
  }

  /** Revisions of a task's grants are 1 to n in the order of insertion. */
  lemma RevisionsAreRanks(db: Db, taskId: string)
    requires GrantsGood(db)
    ensures forall n :: HasRank(db.grants, taskId, n) <==> 1 <= n <= CountOfTask(db.grants, taskId)
  {
    hide HasRank;
    forall n ensures HasRank(db.grants, taskId, n) <==> 1 <= n <= CountOfTask(db.grants, taskId) {
      RanksCover(db.grants, taskId, n);
    }
  }
}
