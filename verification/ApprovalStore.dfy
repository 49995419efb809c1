/**
 The approval tables as mutable state, and the guarded operations that change their rows.  Each
 method is one transaction; one that fails on a unique key changes nothing.
 */
module ApprovalStore {
  import opened Wrappers
  import opened ToolCalls
  import opened ApprovalModel

  class Store {
    var runs: map<Id, Run>
    var calls: map<Id, Call>
    var approvals: map<Key, Approval>
    var lineages: map<Id, Lineage>
    var queue: seq<QueueItem>
    var log: seq<Mutation>
    var events: seq<Event>

    constructor ()
      ensures State() == Db(map[], map[], map[], map[], [], [], [])
    {
      runs, calls, approvals, lineages := map[], map[], map[], map[];
      queue, log, events := [], [], [];
    }

    function State(): Db
      reads this
    {
      Db(runs, calls, approvals, lineages, queue, log, events)
    }

    // -------------------------------------------------------------- creating

    method CreatePendingApproval(c: Id, freshLineage: Id, expiresAt: Option<int>)
      modifies this
      ensures State() == AfterCreate(old(State()), c, freshLineage, expiresAt)
    {
      if c !in calls || calls[c].run !in runs {
        return;
      }
      if k :| k in approvals && IsCurrent(State(), c, k) && approvals[k].status == Pending {
        return;
      }
      var call := calls[c];
      var lineageId := if call.lineage.Some? then call.lineage.value else freshLineage;
      var key := Key(lineageId, 1);
      if lineageId in lineages || key in approvals {
        return;
      }
      var project := runs[call.run].project;
      lineages := lineages[lineageId :=
        Lineage(call.run, c, project, 1, Pending, call.inputHash, call.snapshot, ScopeOf(call))];
      approvals := approvals[key :=
        Approval(call.run, c, project, Pending, call.inputHash, call.snapshot, ScopeOf(call), expiresAt)];
      call := call.(approvalRequired := true);
      call := call.(lineage := Some(lineageId));
      call := call.(epoch := 1);
      calls := calls[c := call];
      AddMutation(key, Created, None, Pending);
      events := events + [ApprovalEvent(Created, key, c)];
    }

    // -------------------------------------------------------------- deciding

    method ApproveCall(c: Id, d: Decision, now: int) returns (r: Result<Key, ErrorCode>)
      modifies this
      ensures State() == AfterDecision(old(State()), Approve, c, d, now)
      ensures r == Answer(Judge(old(State()), c, d, now))
    {
      var context := LockContext(c, d, Approve);
      if context.Err? {
        return context;
      }
      var key := context.value;
      var refusal := Validate(key, c, d, now);
      if refusal.Some? {
        RecordDecisionConflict(Approve, c, d.lineage, refusal.value);
        return Err(refusal.value);
      }
      MarkApproved(key, c);
      return Ok(key);
    }

    method MarkApproved(key: Key, c: Id)
      requires key in approvals && key.lineage in lineages && c in calls
      modifies this
      ensures State() == AfterApproval(old(State()), key, c)
    {
      RecordConsent(key, c);
      ReleaseOrEnqueue(c);
    }

    method RecordConsent(key: Key, c: Id)
      requires key in approvals && key.lineage in lineages && c in calls
      modifies this
      ensures State() == Consented(old(State()), key, c)
    {
      var fromStatus := approvals[key].status;
      approvals := approvals[key := approvals[key].(status := Approved)];
      lineages := lineages[key.lineage := lineages[key.lineage].(status := Approved)];
      calls := calls[c := calls[c].(approved := Some(key))];
      calls := calls[c := calls[c].(epoch := key.epoch)];
      calls := calls[c := calls[c].(error := None)];
      AddMutation(key, Approving, Some(fromStatus), Approved);
      events := events + [ApprovalEvent(Approving, key, c)];
    }

    method RejectCall(c: Id, d: Decision, now: int) returns (r: Result<Key, ErrorCode>)
      modifies this
      ensures State() == AfterDecision(old(State()), Reject, c, d, now)
      ensures r == Answer(Judge(old(State()), c, d, now))
    {
      var context := LockContext(c, d, Reject);
      if context.Err? {
        return context;
      }
      var key := context.value;
      var refusal := Validate(key, c, d, now);
      if refusal.Some? {
        RecordDecisionConflict(Reject, c, d.lineage, refusal.value);
        return Err(refusal.value);
      }
      MarkRejected(key, c);
      return Ok(key);
    }

    method MarkRejected(key: Key, c: Id)
      requires key in approvals && key.lineage in lineages && c in calls
      modifies this
      ensures State() == AfterRejection(old(State()), key, c)
    {
      var fromStatus := approvals[key].status;
      approvals := approvals[key := approvals[key].(status := Rejected)];
      lineages := lineages[key.lineage := lineages[key.lineage].(status := Rejected)];
      calls := calls[c := calls[c].(status := ManualIntervention)];
      calls := calls[c := calls[c].(error := Some(ApprovalRejected))];
      AddMutation(key, Rejecting, Some(fromStatus), Rejected);
      events := events + [ApprovalEvent(Rejecting, key, c)];
      BlockQueue(c, ApprovalRejected);
    }

    /** Finds the rows a decision is about, or records why they are not the ones it means. */
    method LockContext(c: Id, d: Decision, action: Action) returns (r: Result<Key, ErrorCode>)
      modifies this`events
      ensures r.Ok? ==>
                && State() == old(State()) && r.value == Key(d.lineage, d.epoch)
                && d.lineage in lineages && c in calls && r.value in approvals && calls[c].run in runs
                && calls[c].lineage == Some(d.lineage) && lineages[d.lineage].call == c
                && d.epoch == lineages[d.lineage].currentEpoch == calls[c].epoch
      ensures r.Err? ==> forall now ::
                && Answer(Judge(old(State()), c, d, now)) == r
                && State() == AfterDecision(old(State()), action, c, d, now)
    {
      if d.lineage !in lineages || c !in calls {
        return Err(NotFound);
      }
      var lineage, call := lineages[d.lineage], calls[c];
      if call.lineage != Some(d.lineage) || lineage.call != c {
        RecordDecisionConflict(action, c, d.lineage, StaleOrSuperseded);
        return Err(StaleOrSuperseded);
      }
      if d.epoch != lineage.currentEpoch || d.epoch != call.epoch {
        RecordDecisionConflict(action, c, d.lineage, EpochConflict);
        return Err(EpochConflict);
      }
      var key := Key(d.lineage, d.epoch);
      if key !in approvals || call.run !in runs {
        return Err(NotFound);
      }
      return Ok(key);
    }

    /** The checks on the approval itself; an approval found overdue is expired on the way. */
    method Validate(key: Key, c: Id, d: Decision, now: int) returns (refusal: Option<ErrorCode>)
      requires key == Key(d.lineage, d.epoch) && key in approvals && d.lineage in lineages && c in calls
      requires calls[c].run in runs && calls[c].lineage == Some(d.lineage) && lineages[d.lineage].call == c
      requires d.epoch == lineages[d.lineage].currentEpoch == calls[c].epoch
      modifies this
      ensures match Judge(old(State()), c, d, now)
              case Granted(k) => refusal == None && State() == old(State()) && k == key
              case Refused(code) => refusal == Some(code) && State() == old(State())
              case TooLate(k) => refusal == Some(StaleOrSuperseded) && State() == AfterExpiry(old(State()), key, c) && k == key
              case Missing => false
    {
      refusal := ValidatePendingImmutable(key, d);
      if refusal.Some? {
        return;
      }
      var approval := approvals[key];
      if approval.expiresAt.Some? && approval.expiresAt.value <= now {
        MarkExpiredLocked(key, c);
        return Some(StaleOrSuperseded);
      }
      if !IsApprovable(calls[c].status) {
        return Some(NotApprovable);
      }
    }

    method ValidatePendingImmutable(key: Key, d: Decision) returns (refusal: Option<ErrorCode>)
      requires key in approvals
      ensures var a := approvals[key];
              refusal == if a.status != Pending then Some(StaleOrSuperseded)
                         else if a.inputHash != d.inputHash then Some(InputChanged)
                         else if a.snapshot != d.snapshot || a.scope != d.scope || key != Key(d.lineage, d.epoch)
                              then Some(StaleOrSuperseded)
                         else None
    {
      var approval := approvals[key];
      if approval.status != Pending {
        return Some(StaleOrSuperseded);
      }
      if approval.inputHash != d.inputHash {
        return Some(InputChanged);
      }
      if approval.snapshot != d.snapshot || approval.scope != d.scope || key.lineage != d.lineage || key.epoch != d.epoch {
        return Some(StaleOrSuperseded);
      }
      return None;
    }

    method RecordDecisionConflict(action: Action, c: Id, l: Id, code: ErrorCode)
      requires c in calls
      modifies this`events
      ensures State() == WithConflict(old(State()), action, c, l, code)
    {
      if calls[c].run !in runs {
        return;
      }
      events := events + [ConflictEvent(action, c, l, code)];
    }

    // -------------------------------------------------------------- expiring

    /** What the scanner does to one approval; the answer is its status afterwards. */
    method ExpireApproval(key: Key, now: int) returns (status: Option<ApprovalStatus>)
      modifies this
      ensures State() == AfterExpire(old(State()), key, now)
      ensures status == if key in approvals then Some(approvals[key].status) else None
    {
      if key !in approvals {
        return None;
      }
      var approval := approvals[key];
      if approval.status != Pending || approval.expiresAt == None || approval.expiresAt.value > now {
        return Some(approval.status);
      }
      if key.lineage !in lineages || approval.call !in calls || approval.run !in runs {
        return Some(approval.status);
      }
      MarkExpiredLocked(key, approval.call);
      return Some(approvals[key].status);
    }

    method MarkExpiredLocked(key: Key, c: Id)
      requires key in approvals && key.lineage in lineages && c in calls && approvals[key].status == Pending
      modifies this
      ensures State() == AfterExpiry(old(State()), key, c)
    {
      var fromStatus := approvals[key].status;
      approvals := approvals[key := approvals[key].(status := Expired)];
      lineages := lineages[key.lineage := lineages[key.lineage].(status := Expired)];
      calls := calls[c := calls[c].(status := ManualIntervention)];
      calls := calls[c := calls[c].(error := Some(ApprovalExpired))];
      AddMutation(key, Expiring, Some(fromStatus), Expired);
      events := events + [ApprovalEvent(Expiring, key, c)];
      BlockQueue(c, ApprovalExpired);
    }

    // -------------------------------------------------------------- superseding

    method SupersedeWithReplacement(c: Id, r: Replacement) returns (newKey: Result<Key, ErrorCode>)
      modifies this
      ensures State() == AfterSupersede(old(State()), c, r)
      ensures newKey.Ok? ==> newKey.value in approvals && approvals[newKey.value].call == r.id
      ensures SupersedeRefusal(old(State()), c, r).Some? ==> newKey == Err(SupersedeRefusal(old(State()), c, r).value)
      ensures newKey.Err? ==> State() == old(State())
    {
      if c !in calls {
        return Err(NotFound);
      }
      var oldCall := calls[c];
      if oldCall.lineage == None {
        return Err(NotApprovable);
      }
      var l := oldCall.lineage.value;
      if l !in lineages {
        return Err(NotFound);
      }
      var lineage := lineages[l];
      var oldKey := Key(l, lineage.currentEpoch);
      if oldKey !in approvals || approvals[oldKey].status != Pending || approvals[oldKey].call != c {
        return Err(StaleOrSuperseded);
      }
      if oldCall.run !in runs {
        return Err(NotFound);
      }
      if r.run != oldCall.run {
        return Err(RunMismatch);
      }
      if BlocksSuperseding(oldCall.status) {
        return Err(CannotSupersede);
      }
      var nextEpoch := lineage.currentEpoch + 1;
      var key := Key(l, nextEpoch);
      var replacement := CreateReplacementToolCall(oldCall, r, nextEpoch);
      if Collides(State(), r.id, replacement, key) {
        return Err(DuplicateKey);
      }
      Replace(c, oldKey, key, r.id, replacement);
      return Ok(key);
    }

    /** The rows a supersede writes, once nothing stands in its way. */
    method Replace(c: Id, oldKey: Key, key: Key, id: Id, replacement: Call)
      requires c in calls && id !in calls && oldKey in approvals && key !in approvals
      requires oldKey.lineage in lineages && key == Key(oldKey.lineage, oldKey.epoch + 1) && replacement.run in runs
      modifies this
      ensures State() == Replaced(old(State()), c, oldKey, key, id, replacement)
    {
      var oldCall := calls[c];
      calls := calls[id := replacement];
      events := events + [ToolPlanned(id)];

      var oldStatus := approvals[oldKey].status;
      approvals := approvals[oldKey := approvals[oldKey].(status := Superseded)];
      calls := calls[c := oldCall.(status := Obsolete, error := Some(ApprovalSuperseded))];

      var l, lineage := oldKey.lineage, lineages[oldKey.lineage];
      lineage := lineage.(call := id, currentEpoch := key.epoch, status := Pending);
      lineage := lineage.(inputHash := replacement.inputHash, snapshot := replacement.snapshot, scope := ScopeOf(replacement));
      lineages := lineages[l := lineage];
      approvals := approvals[key :=
        Approval(replacement.run, id, runs[replacement.run].project, Pending, replacement.inputHash, replacement.snapshot,
                 ScopeOf(replacement), None)];
      AddMutation(oldKey, Superseding, Some(oldStatus), Superseded);
      AddMutation(key, CreatedReplacement, None, Pending);
      BlockQueue(c, ApprovalSuperseded);
      events := events + [ApprovalEvent(Superseding, oldKey, c)];
      events := events + [ApprovalEvent(CreatedReplacement, key, id)];
    }

    method CreateReplacementToolCall(oldCall: Call, r: Replacement, nextEpoch: nat) returns (replacement: Call)
      requires oldCall.run in runs
      ensures replacement == ReplacementCall(State(), oldCall, r, NextAttempt(State(), oldCall, r), nextEpoch)
    {
      var maxAttempt := MaxAttempt(oldCall.run, r.step);
      var attempt := Max(Max(maxAttempt + 1, oldCall.attempt + 1), r.attempt);
      replacement := Call(oldCall.run, r.step, attempt, r.idempotencyKey, Planned, None, r.inputHash,
                          runs[oldCall.run].snapshot, Some(r.scope), true, oldCall.lineage, nextEpoch, None);
    }

    method MaxAttempt(run: Id, step: int) returns (m: int)
      ensures m == MaxOrZero(Attempts(State(), run, step))
    {
      var rest := Attempts(State(), run, step);
      var all := rest;
      m := 0;
      while rest != {}
        invariant rest <= all
        invariant IsMaxOrZero(all - rest, m)
        decreases rest
      {
        var attempt :| attempt in rest;
        m := if all - rest == {} || attempt > m then attempt else m;
        assert all - (rest - {attempt}) == (all - rest) + {attempt};
        rest := rest - {attempt};
      }
      assert all - rest == all;
      MaxIsUnique(all, m, MaxOrZero(all));
    }

    // -------------------------------------------------------------- queue and log

    method ReleaseOrEnqueue(c: Id)
      requires c in calls
      modifies this`queue, this`calls
      ensures State() == Released(old(State()), c)
    {
      var item := NewestItem(queue, c);
      if item < 0 {
        queue := queue + [QueueItem(c, Queued, None, None)];
      } else if queue[item].status in {BlockedApproval, FailedItem} && (queue[item].lastError == None ||
                queue[item].lastError.value in {ApprovalRequired, ApprovalRejected, ApprovalExpired}) {
        queue := queue[item := QueueItem(c, Queued, None, None)];
        calls := calls[c := calls[c].(status := Planned)];
      }
    }

    method BlockQueue(c: Id, code: ErrorCode)
      modifies this`queue
      ensures queue == BlockedQueue(old(queue), c, code)
    {
      for i := 0 to |queue|
        invariant |queue| == |old(queue)|
        invariant forall j :: 0 <= j < i ==> queue[j] == BlockItem(old(queue)[j], c, code)
        invariant forall j :: i <= j < |queue| ==> queue[j] == old(queue)[j]
      {
        if queue[i].call == c && queue[i].status in {Queued, LeasedItem, BlockedApproval} {
          queue := queue[i := QueueItem(c, BlockedApproval, Some(code), None)];
        }
      }
    }

    method AddMutation(key: Key, kind: MutationKind, from: Option<ApprovalStatus>, to: ApprovalStatus)
      requires key in approvals
      modifies this`log
      ensures log == old(log) + [Mutation(key, approvals[key].call, kind, from, to)]
    {
      log := log + [Mutation(key, approvals[key].call, kind, from, to)];
    }

    // -------------------------------------------------------------- the gate

    method EnsureApprovalAllowsExecution(c: Id) returns (answer: GateAnswer)
      requires c in calls
      ensures answer == Gate(State(), calls[c])
    {
      var call := calls[c];
      if !call.approvalRequired {
        return Pass;
      }
      if call.approved == None {
        return RequiresApproval;
      }
      var key := call.approved.value;
      if key !in approvals || approvals[key].status != Approved {
        return RequiresApproval;
      }
      var approval := approvals[key];
      if approval.inputHash != call.inputHash || approval.snapshot != call.snapshot || Some(approval.scope) != call.scope
         || Some(key.lineage) != call.lineage || key.epoch != call.epoch {
        return Stale;
      }
      return Pass;
    }
  }

  lemma MaxIsUnique(s: set<int>, a: int, b: int)
    requires IsMaxOrZero(s, a) && IsMaxOrZero(s, b)
    ensures a == b
  {
    if s != {} {
      assert a in s && b in s;
    }
  }
}
