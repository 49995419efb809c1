/** What decisions and supersedes come to, in every reachable state, told from the rows a caller can see. */
module ApprovalVerdicts {
  import opened Wrappers
  import opened ToolCalls
  import opened ApprovalModel
  import opened ApprovalRuns
  import opened ApprovalSafety

  // ---------------------------------------------------------------- deciding

  /** The call's own pending approval. */
  predicate IsOpen(db: Db, c: Id, k: Key) {
    k in db.approvals && db.approvals[k].call == c && db.approvals[k].status == Pending
  }

  /** The approval it names is the call's own and still open, and it is about exactly what that approval covers. */
  predicate Fits(db: Db, c: Id, d: Decision) {
    var k := Key(d.lineage, d.epoch);
    IsOpen(db, c, k) && d == ConsentTo(k, db.approvals[k])
  }

  predicate IsOverdue(a: Approval, now: int) {
    a.expiresAt.Some? && a.expiresAt.value <= now
  }

  /** The call is the one its lineage is at, and the decision was made for that lineage. */
  predicate IsAtTheCall(db: Db, c: Id, d: Decision) {
    d.lineage in db.lineages && c in db.calls && db.lineages[d.lineage].call == c
  }

  /**
   A decision is granted exactly when it fits an open approval that is not overdue and whose call can still be
   approved; it comes too late exactly when it fits one that is overdue; nothing is found exactly when the
   lineage or the call does not exist.
   */
  lemma GrantedExactlyWhenItFits(db: Db, c: Id, d: Decision, now: int)
    requires IsReachable(db)
    ensures var verdict, k := Judge(db, c, d, now), Key(d.lineage, d.epoch);
            && (verdict == Granted(k) <==>
                  Fits(db, c, d) && !IsOverdue(db.approvals[k], now) && c in db.calls && db.calls[c].status in {Planned, PendingApproval})
            && (verdict == TooLate(k) <==> Fits(db, c, d) && IsOverdue(db.approvals[k], now))
            && (verdict == Missing <==> d.lineage !in db.lineages || c !in db.calls)
            && (verdict.Granted? || verdict.TooLate? ==> verdict.key == k)
  {
    ReachableAgrees(db);
    OpenApproval(db, c, Key(d.lineage, d.epoch));
    AtItsLineage(db, c, d);
  }

  lemma OpenApproval(db: Db, c: Id, k: Key)
    requires RowsAgree(db)
    ensures IsOpen(db, c, k) ==>
              && k.lineage in db.lineages && k.epoch == db.lineages[k.lineage].currentEpoch && db.lineages[k.lineage].call == c
              && c in db.calls && db.calls[c].lineage == Some(k.lineage) && db.calls[c].epoch == k.epoch && db.calls[c].run in db.runs
  {
    if IsOpen(db, c, k) {
      OwnerOf(db, k);
    }
  }

  /** The lineage a call is at is its own, at the call's epoch, and it has that approval. */
  lemma AtItsLineage(db: Db, c: Id, d: Decision)
    requires RowsAgree(db)
    ensures IsAtTheCall(db, c, d) ==>
              && db.calls[c].lineage == Some(d.lineage) && db.calls[c].epoch == db.lineages[d.lineage].currentEpoch
              && var k := Key(d.lineage, db.calls[c].epoch);
              k in db.approvals && db.approvals[k].call == c && db.calls[c].run in db.runs
  {
    if IsAtTheCall(db, c, d) {
      assert IsNumbered(db.approvals, d.lineage, db.lineages[d.lineage]);
      OwnerOf(db, Key(d.lineage, db.lineages[d.lineage].currentEpoch));
    }
  }

  /**
   Why a decision is refused: for another epoch than the call's; for another input than its open approval
   covers; because the call can no longer be approved though everything fits; and for any other reason as stale.
   */
  lemma RefusedForItsReason(db: Db, c: Id, d: Decision, now: int)
    requires IsReachable(db)
    ensures var verdict, k := Judge(db, c, d, now), Key(d.lineage, d.epoch);
            && (verdict == Refused(EpochConflict) <==> IsAtTheCall(db, c, d) && d.epoch != db.calls[c].epoch)
            && (verdict == Refused(InputChanged) <==> IsOpen(db, c, k) && d.inputHash != db.approvals[k].inputHash)
            && (verdict == Refused(NotApprovable) <==>
                  Fits(db, c, d) && !IsOverdue(db.approvals[k], now) && c in db.calls && db.calls[c].status !in {Planned, PendingApproval})
            && (verdict.Refused? ==> verdict.code in {EpochConflict, InputChanged, NotApprovable, StaleOrSuperseded})
  {
    ReachableAgrees(db);
    OpenApproval(db, c, Key(d.lineage, d.epoch));
    AtItsLineage(db, c, d);
  }

  /**
   A decision that is refused changes nothing, and leaves a conflict event if the run of the call is known; one that
   comes too late expires the approval and leaves the event after that.
   */
  lemma RefusalsOnlyLeaveATrace(db: Db, action: Action, c: Id, d: Decision, now: int)
    requires IsReachable(db)
    ensures var after, known := AfterDecision(db, action, c, d, now), c in db.calls && db.calls[c].run in db.runs;
            match Judge(db, c, d, now)
            case Missing => after == db
            case Refused(code) => after == db.(events := db.events + if known then [ConflictEvent(action, c, d.lineage, code)] else [])
            case TooLate(k) =>
              && k in db.approvals && known
              && after.events == db.events + [ApprovalEvent(Expiring, k, c), ConflictEvent(action, c, d.lineage, StaleOrSuperseded)]
              && after.approvals == db.approvals[k := db.approvals[k].(status := Expired)]
            case Granted(k) => k in db.approvals && after.approvals == db.approvals[k := after.approvals[k]]
  {
    ReachableAgrees(db);
    if Judge(db, c, d, now).TooLate? || Judge(db, c, d, now).Granted? {
      JudgedApproval(db, c, d, now);
    }
  }

  // ---------------------------------------------------------------- superseding

  /** The call is the one asked for, planned under the next epoch of the lineage, and not approved. */
  predicate IsAsAsked(call: Call, prior: Call, run: Run, r: Replacement) {
    && call.run == r.run && call.step == r.step && call.idempotencyKey == r.idempotencyKey
    && call.inputHash == r.inputHash && call.scope == Some(r.scope) && call.snapshot == run.snapshot
    && call.status == Planned && call.error == None
    && call.approvalRequired && call.approved == None && call.lineage == prior.lineage && call.epoch == prior.epoch + 1
  }

  predicate IsAttemptAt(db: Db, r: Replacement, c: Id) {
    c in db.calls && db.calls[c].run == r.run && db.calls[c].step == r.step
  }

  /** The least number above the prior attempt and all attempts at the step, counted from 1 if there are none, and not below the one asked for. */
  ghost predicate IsNextAttempt(db: Db, prior: Call, r: Replacement, n: int) {
    && n >= r.attempt && n > prior.attempt && (forall c :: IsAttemptAt(db, r, c) ==> n > db.calls[c].attempt)
    && (|| n == r.attempt || n == prior.attempt + 1 || (exists c :: IsAttemptAt(db, r, c) && n == db.calls[c].attempt + 1)
        || (n == 1 && forall c :: !IsAttemptAt(db, r, c)))
    && ((forall c :: !IsAttemptAt(db, r, c)) ==> n >= 1)
  }

  /** A supersede that goes through adds exactly the call asked for, at the next attempt, and an open approval of it without an expiry. */
  lemma ReplacementIsAsAsked(db: Db, c: Id, r: Replacement)
    requires IsReachable(db) && SupersedeRefusal(db, c, r) == None && AfterSupersede(db, c, r) != db
    ensures var after, prior := AfterSupersede(db, c, r), db.calls[c];
            && r.id !in db.calls && r.id in after.calls && after.calls.Keys == db.calls.Keys + {r.id}
            && IsAsAsked(after.calls[r.id], prior, db.runs[prior.run], r)
            && var k := Key(prior.lineage.value, prior.epoch + 1);
            && k !in db.approvals && IsOpen(after, r.id, k) && after.approvals[k].expiresAt == None
            && ConsentTo(k, after.approvals[k]) == Decision(k.lineage, k.epoch, r.inputHash, db.runs[prior.run].snapshot, r.scope)
  {
    ReachableAgrees(db);
    SupersedingKeysAreFree(db, c, r);
    ApprovalOf(db, c);
    var prior := db.calls[c];
    OwnerOf(db, Key(prior.lineage.value, db.lineages[prior.lineage.value].currentEpoch));
  }

  lemma ReplacementIsTheNextAttempt(db: Db, c: Id, r: Replacement)
    requires SupersedeRefusal(db, c, r) == None && AfterSupersede(db, c, r) != db
    ensures r.id in AfterSupersede(db, c, r).calls
    ensures IsNextAttempt(db, db.calls[c], r, AfterSupersede(db, c, r).calls[r.id].attempt)
  {
    var prior := db.calls[c];
    NextAttemptIsLeast(db, prior, r);
  }

  lemma NextAttemptIsLeast(db: Db, prior: Call, r: Replacement)
    requires prior.run == r.run
    ensures IsNextAttempt(db, prior, r, NextAttempt(db, prior, r))
  {
    AttemptIsNew(db, prior, r);
    var attempts := Attempts(db, r.run, r.step);
    var most := MaxOrZero(attempts);
    assert forall c :: IsAttemptAt(db, r, c) ==> db.calls[c].attempt in attempts;
    if attempts != {} {
      assert most in attempts;
      var c :| c in db.calls && db.calls[c].run == r.run && db.calls[c].step == r.step && db.calls[c].attempt == most;
      assert IsAttemptAt(db, r, c);
    }
  }
}
