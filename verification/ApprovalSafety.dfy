/** What the approval protocol is for: nothing runs without the consent it needs, and consent is final. */
module ApprovalSafety {
  import opened Wrappers
  import opened ToolCalls
  import opened ApprovalModel
  import opened ApprovalRuns

  /** The state some history of the protocol ends in. */
  ghost predicate IsReachable(db: Db) {
    exists states, steps :: IsHistory(states, steps) && states[|steps|] == db
  }

  lemma ReachableAgrees(db: Db)
    requires IsReachable(db)
    ensures Inv(db)
  {
    var states, steps :| IsHistory(states, steps) && states[|steps|] == db;
    RunKeeps(states, steps, |steps|);
  }

  /** A step from a reachable state leads to another. */
  lemma StepReaches(db: Db, step: Step)
    requires IsReachable(db)
    ensures IsReachable(Next(db, step))
  {
    var states, steps :| IsHistory(states, steps) && states[|steps|] == db;
    var s, t := states + [Next(db, step)], steps + [step];
    forall i | 0 <= i < |t| ensures IsStepOf(s, t, i) {
      if i < |steps| {
        assert IsStepOf(states, steps, i);
      }
    }
    assert IsHistory(s, t);
  }

  // ---------------------------------------------------------------- lineages

  /**
   The approvals of a lineage are numbered 1 to its current epoch; only the newest is not superseded,
   it has the status of the lineage, and it is for the call the lineage names.
   */
  lemma LineagesAreChains(db: Db, l: Id)
    requires IsReachable(db) && l in db.lineages
    ensures forall e: nat :: Key(l, e) in db.approvals <==> 1 <= e <= db.lineages[l].currentEpoch
    ensures forall e: nat :: Key(l, e) in db.approvals ==>
              (db.approvals[Key(l, e)].status == Superseded <==> e < db.lineages[l].currentEpoch)
    ensures var current := Key(l, db.lineages[l].currentEpoch);
            && current in db.approvals && db.approvals[current].status == db.lineages[l].status
            && db.approvals[current].call == db.lineages[l].call
    ensures db.lineages[l].call in db.calls
    ensures db.calls[db.lineages[l].call].lineage == Some(l)
    ensures db.calls[db.lineages[l].call].epoch == db.lineages[l].currentEpoch
  {
    ReachableAgrees(db);
    assert IsNumbered(db.approvals, l, db.lineages[l]);
    forall e: nat | Key(l, e) in db.approvals
      ensures 1 <= e <= db.lineages[l].currentEpoch
      ensures db.approvals[Key(l, e)].status == Superseded <==> e < db.lineages[l].currentEpoch
    {
      OwnerOf(db, Key(l, e));
    }
    OwnerOf(db, Key(l, db.lineages[l].currentEpoch));
  }

  lemma AtMostOneIsPending(db: Db, j: Key, k: Key)
    requires IsReachable(db) && j in db.approvals && k in db.approvals && j.lineage == k.lineage
    requires db.approvals[j].status == db.approvals[k].status == Pending
    ensures j == k
  {
    ReachableAgrees(db);
    OnlyTheNewestIsPending(db, j);
    OnlyTheNewestIsPending(db, k);
  }

  lemma OnlyTheNewestIsPending(db: Db, k: Key)
    requires RowsAgree(db) && k in db.approvals && db.approvals[k].status == Pending
    ensures k.lineage in db.lineages && k.epoch == db.lineages[k.lineage].currentEpoch
  {
    OwnerOf(db, k);
  }

  /**
   A supersede that is not refused succeeds exactly when its caller brings a fresh call and a fresh
   idempotency key: neither the next epoch of the lineage nor the attempt number can be taken.
   */
  lemma SupersedeSucceedsExactlyWhenFresh(db: Db, c: Id, r: Replacement)
    requires IsReachable(db) && SupersedeRefusal(db, c, r) == None
    ensures AfterSupersede(db, c, r) != db <==>
              && r.id !in db.calls
              && forall x :: x in db.calls && db.calls[x].run == r.run ==> db.calls[x].idempotencyKey != r.idempotencyKey
  {
    ReachableAgrees(db);
    var prior := db.calls[c];
    var l := prior.lineage.value;
    var newKey := Key(l, db.lineages[l].currentEpoch + 1);
    var replacement := ReplacementCall(db, prior, r, NextAttempt(db, prior, r), newKey.epoch);
    SupersedingKeysAreFree(db, c, r);
    assert Collides(db, r.id, replacement, newKey) <==>
           r.id in db.calls || exists x :: x in db.calls && SameUniqueKey(db.calls[x], replacement);
    if !Collides(db, r.id, replacement, newKey) {
      assert newKey in AfterSupersede(db, c, r).approvals;
    }
  }

  // ---------------------------------------------------------------- what later steps cannot undo

  predicate SameTerms(a: Approval, b: Approval) {
    b == a.(status := b.status)
  }

  /** Approvals stay, with their terms, and one that is no longer pending keeps its status too. */
  ghost predicate Extends(db: Db, after: Db) {
    && db.log <= after.log
    && forall k :: k in db.approvals ==>
         && k in after.approvals && SameTerms(db.approvals[k], after.approvals[k])
         && (db.approvals[k].status != Pending ==> after.approvals[k] == db.approvals[k])
  }

  lemma StepExtends(db: Db, step: Step)
    ensures Extends(db, Next(db, step))
  {
    match step
    case Create(c, l, expiresAt) =>
    case Decide(action, c, d, now) => DecisionExtends(db, action, c, d, now);
    case Supersede(c, r) => SupersedeExtends(db, c, r);
    case Expire(k, now) =>
    case AddRun(id, run) =>
    case AddCall(id, call) =>
    case Execute(statuses, queue) =>
  }

  lemma DecisionExtends(db: Db, action: Action, c: Id, d: Decision, now: int)
    ensures Extends(db, AfterDecision(db, action, c, d, now))
  {
    var verdict := Judge(db, c, d, now);
    if verdict.Granted? {
      EndingExtends(db, verdict.key, c);
    }
  }

  lemma EndingExtends(db: Db, k: Key, c: Id)
    requires k in db.approvals && db.approvals[k].status == Pending && k.lineage in db.lineages && c in db.calls
    ensures Extends(db, AfterApproval(db, k, c)) && Extends(db, AfterRejection(db, k, c))
  {
  }

  lemma SupersedeExtends(db: Db, c: Id, r: Replacement)
    ensures Extends(db, AfterSupersede(db, c, r))
  {
  }

  lemma {:induction false} RunExtends(states: seq<Db>, steps: seq<Step>, m: nat, n: nat)
    requires IsHistory(states, steps) && m <= n <= |steps|
    ensures Extends(states[m], states[n])
  {
    if m < n {
      RunExtends(states, steps, m, n - 1);
      assert IsStepOf(states, steps, n - 1);
      StepExtends(states[n - 1], steps[n - 1]);
    }
  }

  /** The terms of an approval never change, and approved, rejected, expired and superseded are final. */
  lemma DecisionsAreFinal(states: seq<Db>, steps: seq<Step>, m: nat, n: nat, k: Key)
    requires IsHistory(states, steps) && m <= n <= |steps| && k in states[m].approvals
    ensures k in states[n].approvals && SameTerms(states[m].approvals[k], states[n].approvals[k])
    ensures states[m].approvals[k].status != Pending ==> states[n].approvals[k] == states[m].approvals[k]
  {
    RunExtends(states, steps, m, n);
  }

  // ---------------------------------------------------------------- the mutation log

  lemma {:induction false} NoStatusNoEntry(log: seq<Mutation>, k: Key, i: nat)
    requires StatusAfter(log, k) == None && i < |log|
    ensures log[i].key != k
  {
    if i < |log| - 1 {
      NoStatusNoEntry(log[..|log| - 1], k, i);
    }
  }

  lemma {:induction false} PendingSinceCreation(log: seq<Mutation>, k: Key, i: nat)
    requires IsChain(log) && StatusAfter(log, k) == Some(Pending) && i < |log| && log[i].key == k
    ensures log[i].from == None && log[i].to == Pending
  {
    var front, last := log[..|log| - 1], log[|log| - 1];
    if i < |log| - 1 {
      if last.key == k {
        NoStatusNoEntry(front, k, i);
        assert false;
      }
      PendingSinceCreation(front, k, i);
    }
  }

  lemma {:induction false} ChainsAreShort(log: seq<Mutation>, i: nat, j: nat)
    requires IsChain(log) && i < j < |log| && log[i].key == log[j].key
    ensures log[i].from == None && log[i].to == Pending && log[j].from == Some(Pending) && log[j].to != Pending
  {
    var front := log[..|log| - 1];
    if j < |log| - 1 {
      ChainsAreShort(front, i, j);
    } else if log[j].from == None {
      NoStatusNoEntry(front, log[j].key, i);
      assert false;
    } else {
      PendingSinceCreation(front, log[j].key, i);
    }
  }

  /**
   Reading the log from the start gives every approval its current status, and an approval leaves
   pending at most once: two entries about it are its creation and the one step that won.
   */
  lemma LogTellsTheStatuses(db: Db, k: Key)
    requires IsReachable(db)
    ensures StatusAfter(db.log, k) == StatusOf(db.approvals, k)
    ensures forall i, j :: 0 <= i < j < |db.log| && db.log[i].key == db.log[j].key == k ==>
              && db.log[i].kind in {Created, CreatedReplacement}
              && db.log[j].from == Some(Pending) && db.log[j].to != Pending && StatusOf(db.approvals, k) == Some(db.log[j].to)
  {
    ReachableAgrees(db);
    assert StatusOf(db.approvals, k) == StatusAfter(db.log, k);
    forall i, j | 0 <= i < j < |db.log| && db.log[i].key == db.log[j].key == k
      ensures db.log[i].kind in {Created, CreatedReplacement}
      ensures db.log[j].from == Some(Pending) && Some(db.log[j].to) == StatusOf(db.approvals, k)
      ensures db.log[j].to != Pending
    {
      ChainsAreShort(db.log, i, j);
      EntriesAreLegal(db.log, i);
      SecondEntryIsLast(db.log, i, j);
    }
  }

  lemma {:induction false} EntriesAreLegal(log: seq<Mutation>, i: nat)
    requires IsChain(log) && i < |log|
    ensures IsLegal(log[i])
  {
    if i < |log| - 1 {
      EntriesAreLegal(log[..|log| - 1], i);
    }
  }

  lemma {:induction false} SecondEntryIsLast(log: seq<Mutation>, i: nat, j: nat)
    requires IsChain(log) && i < j < |log| && log[i].key == log[j].key
    ensures StatusAfter(log, log[j].key) == Some(log[j].to)
  {
    if j < |log| - 1 {
      var front, last := log[..|log| - 1], log[|log| - 1];
      if last.key == log[j].key {
        ChainsAreShort(log, i, j);
        ChainsAreShort(log, j, |log| - 1);
        assert false;
      }
      SecondEntryIsLast(front, i, j);
    }
  }

  // ---------------------------------------------------------------- the execution gate

  function ApprovalKey(call: Call): Option<Key> {
    match call.lineage case None => None case Some(l) => Some(Key(l, call.epoch))
  }

  /** The gate opens exactly for a call with a scope whose own approval, for its own epoch, is approved. */
  lemma GateOpensExactlyWhenApproved(db: Db, c: Id)
    requires IsReachable(db) && c in db.calls && db.calls[c].approvalRequired
    ensures var call := db.calls[c];
            Gate(db, call) == Pass <==>
              call.scope.Some? && call.lineage.Some? && StatusOf(db.approvals, ApprovalKey(call).value) == Some(Approved)
  {
    ReachableAgrees(db);
    GateOpensWhenRowsAgree(db, c);
  }

  lemma GateOpensWhenRowsAgree(db: Db, c: Id)
    requires RowsAgree(db) && c in db.calls && db.calls[c].approvalRequired
    ensures var call := db.calls[c];
            Gate(db, call) == Pass <==>
              call.scope.Some? && call.lineage.Some? && StatusOf(db.approvals, ApprovalKey(call).value) == Some(Approved)
  {
    assert IsTied(c, db.calls[c], db.approvals);
    if db.calls[c].lineage.Some? {
      ApprovalOf(db, c);
    }
  }

  /** The approval of the call's lineage and epoch is there and was approved. */
  predicate HasConsent(db: Db, call: Call) {
    call.lineage.Some? && StatusOf(db.approvals, Key(call.lineage.value, call.epoch)) == Some(Approved)
  }

  /**
   The gate's three answers, for every call in every reachable state: it passes what needs no approval,
   or has consent and a scope; it calls a consent without a scope stale; it asks for approval otherwise.
   */
  lemma GateAnswersExactly(db: Db, c: Id)
    requires IsReachable(db) && c in db.calls
    ensures var call, answer := db.calls[c], Gate(db, db.calls[c]);
            && (answer == Pass <==> !call.approvalRequired || (HasConsent(db, call) && call.scope.Some?))
            && (answer == Stale <==> call.approvalRequired && HasConsent(db, call) && call.scope == None)
            && (answer == RequiresApproval <==> call.approvalRequired && !HasConsent(db, call))
  {
    ReachableAgrees(db);
    assert IsTied(c, db.calls[c], db.approvals);
    if db.calls[c].lineage.Some? {
      ApprovalOf(db, c);
    }
  }

  /** The approval of a call whose approval is not superseded is the current one of its lineage. */
  lemma OpenGateIsCurrent(db: Db, c: Id)
    requires IsReachable(db) && c in db.calls && db.calls[c].approvalRequired && Gate(db, db.calls[c]) == Pass
    ensures db.calls[c].lineage.Some? && db.calls[c].lineage.value in db.lineages
    ensures var lineage := db.lineages[db.calls[c].lineage.value];
            lineage.call == c && lineage.currentEpoch == db.calls[c].epoch && lineage.status == Approved
  {
    ReachableAgrees(db);
    GateOpensExactlyWhenApproved(db, c);
    ApprovalOf(db, c);
    OwnerOf(db, ApprovalKey(db.calls[c]).value);
  }

  /** The decision that consents to exactly what an approval covers. */
  function ConsentTo(k: Key, a: Approval): Decision {
    Decision(k.lineage, k.epoch, a.inputHash, a.snapshot, a.scope)
  }

  /** Step `i` is such a decision, and it was granted. */
  ghost predicate ConsentedAt(states: seq<Db>, steps: seq<Step>, i: nat, k: Key, a: Approval)
    requires i < |steps| && |states| == |steps| + 1
  {
    && steps[i].Decide? && steps[i].action == Approve && steps[i].call == a.call
    && steps[i].decision == ConsentTo(k, a)
    && Judge(states[i], a.call, ConsentTo(k, a), steps[i].now) == Granted(k)
  }

  lemma ApprovingStep(db: Db, step: Step, k: Key)
    requires Inv(db) && StatusOf(Next(db, step).approvals, k) == Some(Approved)
    requires StatusOf(db.approvals, k) != Some(Approved)
    ensures var a := Next(db, step).approvals[k];
            && step.Decide? && step.action == Approve && step.call == a.call && step.decision == ConsentTo(k, a)
            && Judge(db, a.call, ConsentTo(k, a), step.now) == Granted(k)
  {
    match step
    case Create(c, l, expiresAt) => assert false;
    case Decide(action, c, d, now) => ApprovingDecision(db, action, c, d, now, k);
    case Supersede(c, r) =>
      SupersedingApprovesNothing(db, c, r, k);
      assert false;
    case Expire(_, now) => assert false;
    case AddRun(id, run) => assert false;
    case AddCall(id, call) => assert false;
    case Execute(statuses, queue) => assert false;
  }

  lemma ApprovingDecision(db: Db, action: Action, c: Id, d: Decision, now: int, k: Key)
    requires Inv(db) && StatusOf(AfterDecision(db, action, c, d, now).approvals, k) == Some(Approved)
    requires StatusOf(db.approvals, k) != Some(Approved)
    ensures var a := AfterDecision(db, action, c, d, now).approvals[k];
            action == Approve && c == a.call && d == ConsentTo(k, a) && Judge(db, c, d, now) == Granted(k)
  {
    assert Judge(db, c, d, now).Granted?;
    JudgedApproval(db, c, d, now);
  }

  lemma SupersedingApprovesNothing(db: Db, c: Id, r: Replacement, k: Key)
    ensures StatusOf(AfterSupersede(db, c, r).approvals, k) == Some(Approved) ==> StatusOf(db.approvals, k) == Some(Approved)
  {
  }

  lemma {:induction false} ApprovedByConsent(states: seq<Db>, steps: seq<Step>, n: nat, k: Key)
    requires IsHistory(states, steps) && n <= |steps| && StatusOf(states[n].approvals, k) == Some(Approved)
    ensures exists i: nat :: i < n && ConsentedAt(states, steps, i, k, states[n].approvals[k])
  {
    if n > 0 {
      var before := states[n - 1];
      assert IsStepOf(states, steps, n - 1);
      if StatusOf(before.approvals, k) == Some(Approved) {
        ApprovedByConsent(states, steps, n - 1, k);
        StepExtends(before, steps[n - 1]);
      } else {
        RunKeeps(states, steps, n - 1);
        ApprovingStep(before, steps[n - 1], k);
        assert ConsentedAt(states, steps, n - 1, k, states[n].approvals[k]);
      }
    }
  }

  /**
   Whatever happened before, a call that needs approval passes the gate only if some earlier step
   granted an approval of that very call, sent with the call's lineage, epoch, input, snapshot and scope.
   */
  lemma NothingRunsWithoutConsent(states: seq<Db>, steps: seq<Step>, n: nat, c: Id)
    requires IsHistory(states, steps) && n <= |steps|
    requires c in states[n].calls && states[n].calls[c].approvalRequired && Gate(states[n], states[n].calls[c]) == Pass
    ensures var call := states[n].calls[c];
            && call.lineage.Some? && call.scope.Some?
            && var consent := Decision(call.lineage.value, call.epoch, call.inputHash, call.snapshot, call.scope.value);
            exists i: nat, now ::
              && i < n && steps[i] == Decide(Approve, c, consent, now)
              && Judge(states[i], c, consent, now) == Granted(Key(call.lineage.value, call.epoch))
  {
    var db := states[n];
    RunKeeps(states, steps, n);
    GateOpensWhenRowsAgree(db, c);
    ApprovalOf(db, c);
    var k := ApprovalKey(db.calls[c]).value;
    ApprovedByConsent(states, steps, n, k);
    var i: nat :| i < n && ConsentedAt(states, steps, i, k, db.approvals[k]);
    assert steps[i] == Decide(Approve, c, ConsentTo(k, db.approvals[k]), steps[i].now);
  }

  /** A call whose approval was rejected, expired or superseded never passes the gate again, whatever follows. */
  lemma DeniedForever(states: seq<Db>, steps: seq<Step>, m: nat, n: nat, k: Key)
    requires IsHistory(states, steps) && m <= n <= |steps|
    requires k in states[m].approvals && states[m].approvals[k].status in {Rejected, Expired, Superseded}
    ensures var c, later := states[m].approvals[k].call, states[n];
            c in later.calls && later.calls[c].approvalRequired && Gate(later, later.calls[c]) != Pass
  {
    RunKeeps(states, steps, n);
    DecisionsAreFinal(states, steps, m, n, k);
    OwnerOf(states[n], k);
    ApprovalOf(states[n], states[m].approvals[k].call);
  }

  // ---------------------------------------------------------------- the call of a decided approval

  /** What the end of an approval leaves its call in. */
  predicate IsToldOf(db: Db, after: Db, c: Id, status: ApprovalStatus)
    requires c in db.calls
  {
    && c in after.calls
    && var was, call := db.calls[c], after.calls[c];
       match status
       case Pending => call == was
       case Approved =>
         var item := NewestItem(db.queue, c);
         call.error == None && call.status == if item >= 0 && IsReleasable(db.queue[item]) then Planned else was.status
       case Rejected => call.status == ManualIntervention && call.error == Some(ApprovalRejected)
       case Expired => call.status == ManualIntervention && call.error == Some(ApprovalExpired)
       case Superseded => call.status == Obsolete && call.error == Some(ApprovalSuperseded)
  }

  lemma DecisionIsTold(db: Db, action: Action, c: Id, d: Decision, now: int, k: Key)
    requires RowsAgree(db) && k in db.approvals && StatusOf(AfterDecision(db, action, c, d, now).approvals, k) != StatusOf(db.approvals, k)
    ensures var after := AfterDecision(db, action, c, d, now);
            && db.approvals[k].call in db.calls && k in after.approvals
            && IsToldOf(db, after, db.approvals[k].call, after.approvals[k].status)
  {
    JudgedApproval(db, c, d, now);
  }

  lemma SupersedeIsTold(db: Db, c: Id, r: Replacement, k: Key)
    requires RowsAgree(db) && k in db.approvals && StatusOf(AfterSupersede(db, c, r).approvals, k) != StatusOf(db.approvals, k)
    ensures var after := AfterSupersede(db, c, r);
            && db.approvals[k].call in db.calls && k in after.approvals
            && IsToldOf(db, after, db.approvals[k].call, after.approvals[k].status)
  {
    SupersedingKeysAreFree(db, c, r);
  }

  /** In every reachable state, a step that decides, expires or replaces an approval leaves its call with the status and error that tell so. */
  lemma TheCallIsTold(db: Db, step: Step, k: Key)
    requires IsReachable(db) && k in db.approvals && StatusOf(Next(db, step).approvals, k) != StatusOf(db.approvals, k)
    ensures db.approvals[k].call in db.calls && k in Next(db, step).approvals
    ensures IsToldOf(db, Next(db, step), db.approvals[k].call, Next(db, step).approvals[k].status)
  {
    ReachableAgrees(db);
    match step
    case Create(c, l, expiresAt) => assert false;
    case Decide(action, c, d, now) => DecisionIsTold(db, action, c, d, now, k);
    case Supersede(c, r) => SupersedeIsTold(db, c, r, k);
    case Expire(j, now) => ExpiryIsTold(db, j, now, k);
    case AddRun(id, run) => assert false;
    case AddCall(id, call) => assert false;
    case Execute(statuses, queue) => assert false;
  }

  lemma ExpiryIsTold(db: Db, j: Key, now: int, k: Key)
    requires RowsAgree(db) && k in db.approvals && StatusOf(AfterExpire(db, j, now).approvals, k) != StatusOf(db.approvals, k)
    ensures var after := AfterExpire(db, j, now);
            && db.approvals[k].call in db.calls && k in after.approvals
            && IsToldOf(db, after, db.approvals[k].call, after.approvals[k].status)
  {
  }

  // ---------------------------------------------------------------- the queue and the event log

  predicate IsLive(item: QueueItem) {
    item.status == Queued || item.status == LeasedItem
  }

  /** No worker holds or can pick up the call. */
  predicate IsOffTheQueue(queue: seq<QueueItem>, c: Id) {
    forall i :: 0 <= i < |queue| && queue[i].call == c ==> !IsLive(queue[i])
  }

  /** The items of other calls are where they were. */
  predicate OthersStay(before: seq<QueueItem>, after: seq<QueueItem>, c: Id) {
    && |before| <= |after|
    && (forall i :: 0 <= i < |before| ==> after[i].call == before[i].call && (before[i].call != c ==> after[i] == before[i]))
    && (forall i :: |before| <= i < |after| ==> after[i].call == c)
  }

  /** Blocked or failed, and nothing but a missing approval is on record as the reason. */
  predicate IsHeldBack(item: QueueItem) {
    && (item.status == BlockedApproval || item.status == FailedItem)
    && (item.lastError.Some? ==> item.lastError.value in {ApprovalRequired, ApprovalRejected, ApprovalExpired})
  }

  /** Every queued, leased or blocked item of the call is blocked for the reason, and nothing else changes. */
  ghost predicate IsBlockedFor(before: seq<QueueItem>, after: seq<QueueItem>, c: Id, reason: ErrorCode) {
    && |after| == |before|
    && forall i :: 0 <= i < |before| ==>
         after[i] == if before[i].call == c && before[i].status in {Queued, LeasedItem, BlockedApproval}
                     then QueueItem(c, BlockedApproval, Some(reason), None) else before[i]
  }

  /** The newest item of the call is queued, if there was none or the newest was held back; no other item changes. */
  ghost predicate IsSetFree(before: seq<QueueItem>, after: seq<QueueItem>, c: Id) {
    var newest := NewestItem(before, c);
    if newest < 0 then after == before + [QueueItem(c, Queued, None, None)]
    else if IsHeldBack(before[newest]) then after == before[newest := QueueItem(c, Queued, None, None)]
    else after == before
  }

  /**
   A denied call is off the queue at once, with the reason on its items.  A granted one is queued if it had no item,
   or if its newest item was held back for want of approval; in no case does another call's item move.
   */
  lemma QueueFollowsTheDecision(db: Db, action: Action, c: Id, d: Decision, now: int)
    requires c in db.calls
    ensures var after := AfterDecision(db, action, c, d, now);
            && OthersStay(db.queue, after.queue, c)
            && match Judge(db, c, d, now)
               case Missing => after.queue == db.queue
               case Refused(_) => after.queue == db.queue
               case TooLate(_) => IsOffTheQueue(after.queue, c) && IsBlockedFor(db.queue, after.queue, c, ApprovalExpired)
               case Granted(_) =>
                 if action == Reject then IsOffTheQueue(after.queue, c) && IsBlockedFor(db.queue, after.queue, c, ApprovalRejected)
                 else IsSetFree(db.queue, after.queue, c)
  {
    match Judge(db, c, d, now)
    case Missing =>
    case Refused(_) =>
    case TooLate(_) => BlockingBlocks(db.queue, c, ApprovalExpired);
    case Granted(_) =>
      BlockingBlocks(db.queue, c, ApprovalRejected);
      ReleaseQueues(Consented(db, Key(d.lineage, d.epoch), c), c);
  }

  lemma BlockingBlocks(queue: seq<QueueItem>, c: Id, reason: ErrorCode)
    ensures IsBlockedFor(queue, BlockedQueue(queue, c, reason), c, reason)
    ensures IsOffTheQueue(BlockedQueue(queue, c, reason), c) && OthersStay(queue, BlockedQueue(queue, c, reason), c)
  {
    var after := BlockedQueue(queue, c, reason);
    assert forall i :: 0 <= i < |queue| ==> after[i] == BlockItem(queue[i], c, reason);
  }

  lemma ReleaseQueues(db: Db, c: Id)
    requires c in db.calls
    ensures OthersStay(db.queue, Released(db, c).queue, c) && IsSetFree(db.queue, Released(db, c).queue, c)
  {
  }

  /** What an event or a log entry tells of an approval. */
  datatype Notice = Notice(kind: MutationKind, key: Key, call: Id)

  function Notices(events: seq<Event>): seq<Notice> {
    if events == [] then []
    else
      var front, last := Notices(events[..|events| - 1]), events[|events| - 1];
      if last.ApprovalEvent? then front + [Notice(last.kind, last.key, last.call)] else front
  }

  function NoticeOf(m: Mutation): Notice {
    Notice(m.kind, m.key, m.call)
  }

  function NoticesOf(log: seq<Mutation>): seq<Notice> {
    seq(|log|, i requires 0 <= i < |log| => NoticeOf(log[i]))
  }

  lemma NoticesAppend(events: seq<Event>, e: Event)
    ensures Notices(events + [e]) ==
            if e.ApprovalEvent? then Notices(events) + [Notice(e.kind, e.key, e.call)] else Notices(events)
  {
    assert (events + [e])[..|events|] == events;
  }

  lemma MutationNoticed(events: seq<Event>, log: seq<Mutation>, m: Mutation)
    requires Notices(events) == NoticesOf(log)
    ensures Notices(events + [ApprovalEvent(m.kind, m.key, m.call)]) == NoticesOf(log + [m])
  {
    NoticesAppend(events, ApprovalEvent(m.kind, m.key, m.call));
  }

  lemma ConflictUnnoticed(db: Db, action: Action, c: Id, l: Id, code: ErrorCode)
    requires Notices(db.events) == NoticesOf(db.log) && c in db.calls
    ensures var after := WithConflict(db, action, c, l, code); Notices(after.events) == NoticesOf(after.log)
  {
    NoticesAppend(db.events, ConflictEvent(action, c, l, code));
  }

  lemma EndingNoticed(db: Db, k: Key, c: Id)
    requires Notices(db.events) == NoticesOf(db.log)
    requires k in db.approvals && k.lineage in db.lineages && c in db.calls && db.approvals[k].call == c
    ensures Notices(AfterExpiry(db, k, c).events) == NoticesOf(AfterExpiry(db, k, c).log)
    ensures Notices(AfterApproval(db, k, c).events) == NoticesOf(AfterApproval(db, k, c).log)
    ensures Notices(AfterRejection(db, k, c).events) == NoticesOf(AfterRejection(db, k, c).log)
  {
    var from := Some(db.approvals[k].status);
    MutationNoticed(db.events, db.log, Mutation(k, c, Expiring, Some(Pending), Expired));
    MutationNoticed(db.events, db.log, Mutation(k, c, Approving, from, Approved));
    MutationNoticed(db.events, db.log, Mutation(k, c, Rejecting, from, Rejected));
  }

  lemma DecisionNoticed(db: Db, action: Action, c: Id, d: Decision, now: int)
    requires RowsAgree(db) && Notices(db.events) == NoticesOf(db.log)
    ensures var after := AfterDecision(db, action, c, d, now); Notices(after.events) == NoticesOf(after.log)
  {
    match Judge(db, c, d, now)
    case Missing =>
    case Refused(code) => ConflictUnnoticed(db, action, c, d.lineage, code);
    case TooLate(k) => LateDecisionNoticed(db, action, c, d, now);
    case Granted(k) =>
      JudgedApproval(db, c, d, now);
      EndingNoticed(db, k, c);
  }

  lemma LateDecisionNoticed(db: Db, action: Action, c: Id, d: Decision, now: int)
    requires RowsAgree(db) && Notices(db.events) == NoticesOf(db.log) && Judge(db, c, d, now).TooLate?
    ensures var after := AfterDecision(db, action, c, d, now); Notices(after.events) == NoticesOf(after.log)
  {
    var k := Key(d.lineage, d.epoch);
    JudgedApproval(db, c, d, now);
    EndingNoticed(db, k, c);
    ConflictUnnoticed(AfterExpiry(db, k, c), action, c, d.lineage, StaleOrSuperseded);
  }

  lemma ReplacementNoticed(db: Db, c: Id, oldKey: Key, id: Id, replacement: Call)
    requires Notices(db.events) == NoticesOf(db.log) && IsReplaceable(db, c, oldKey, id, replacement)
    ensures var after := Replaced(db, c, oldKey, Key(oldKey.lineage, oldKey.epoch + 1), id, replacement);
            Notices(after.events) == NoticesOf(after.log)
  {
    var newKey := Key(oldKey.lineage, oldKey.epoch + 1);
    var after := Replaced(db, c, oldKey, newKey, id, replacement);
    var planned, first := db.events + [ToolPlanned(id)], Mutation(oldKey, c, Superseding, Some(Pending), Superseded);
    var second := Mutation(newKey, id, CreatedReplacement, None, Pending);
    var announced := planned + [ApprovalEvent(Superseding, oldKey, c)];
    NoticesAppend(db.events, ToolPlanned(id));
    MutationNoticed(planned, db.log, first);
    MutationNoticed(announced, db.log + [first], second);
    assert after.log == db.log + [first] + [second];
    assert after.events == announced + [ApprovalEvent(CreatedReplacement, newKey, id)];
  }

  lemma StepNoticed(db: Db, step: Step)
    requires Inv(db) && Notices(db.events) == NoticesOf(db.log)
    ensures Notices(Next(db, step).events) == NoticesOf(Next(db, step).log)
  {
    match step
    case Create(c, l, expiresAt) =>
      if AfterCreate(db, c, l, expiresAt) != db {
        CreateKeepsRows(db, c, l, expiresAt);
        MutationNoticed(db.events, db.log, Mutation(Key(l, 1), c, Created, None, Pending));
      }
    case Decide(action, c, d, now) => DecisionNoticed(db, action, c, d, now);
    case Supersede(c, r) =>
      SupersedeReplaces(db, c, r);
      if AfterSupersede(db, c, r) != db {
        var oldKey, replacement :| IsReplaceable(db, c, oldKey, r.id, replacement) && AfterSupersede(db, c, r) ==
          Replaced(db, c, oldKey, Key(oldKey.lineage, oldKey.epoch + 1), r.id, replacement);
        ReplacementNoticed(db, c, oldKey, r.id, replacement);
      }
    case Expire(k, now) =>
      if k in db.approvals && IsDue(db.approvals[k], now) {
        ExpiryKeeps(db, k, now);
        MutationNoticed(db.events, db.log, Mutation(k, db.approvals[k].call, Expiring, Some(Pending), Expired));
      }
    case _ =>
  }

  /** Over every history each entry of the mutation log was announced by one event, in the same order. */
  lemma {:induction false} EveryMutationIsAnnounced(states: seq<Db>, steps: seq<Step>, n: nat)
    requires IsHistory(states, steps) && n <= |steps|
    ensures Notices(states[n].events) == NoticesOf(states[n].log)
  {
    if n > 0 {
      EveryMutationIsAnnounced(states, steps, n - 1);
      RunKeeps(states, steps, n - 1);
      assert IsStepOf(states, steps, n - 1);
      StepNoticed(states[n - 1], steps[n - 1]);
    }
  }

  // ---------------------------------------------------------------- approved, and still held back

  /** A history in which a call without a scope is approved, and the gate calls its approval stale. */
  lemma ApprovedWithoutScopeIsHeldBack() returns (states: seq<Db>, steps: seq<Step>)
    ensures IsHistory(states, steps) && |steps| == 4
    ensures Key(3, 1) in states[4].approvals && states[4].approvals[Key(3, 1)].status == Approved
    ensures 2 in states[4].calls && Gate(states[4], states[4].calls[2]) == Stale
  {
    steps := [AddRun(1, Run(0, 8)), AddCall(2, CallWithoutScope()), Create(2, 3, None), Decide(Approve, 2, Decision(3, 1, 7, 8, 7), 0)];
    var s1, s2 := Registered();
    var s3, s4 := AskedAndApproved(s2);
    states := FourSteps(s1, s2, s3, s4, steps);
  }

  lemma FourSteps(s1: Db, s2: Db, s3: Db, s4: Db, steps: seq<Step>) returns (states: seq<Db>)
    requires |steps| == 4 && s1 == Next(EMPTY, steps[0]) && s2 == Next(s1, steps[1])
    requires s3 == Next(s2, steps[2]) && s4 == Next(s3, steps[3])
    ensures IsHistory(states, steps) && states == [EMPTY, s1, s2, s3, s4]
  {
    states := [EMPTY, s1, s2, s3, s4];
    assert IsStepOf(states, steps, 0) && IsStepOf(states, steps, 1) && IsStepOf(states, steps, 2) && IsStepOf(states, steps, 3);
  }

  lemma Registered() returns (s: Db, t: Db)
    ensures s == Next(EMPTY, AddRun(1, Run(0, 8))) && t == Next(s, AddCall(2, CallWithoutScope()))
    ensures t == EMPTY.(runs := map[1 := Run(0, 8)], calls := map[2 := CallWithoutScope()])
  {
    s := Next(EMPTY, AddRun(1, Run(0, 8)));
    assert s.runs == map[1 := Run(0, 8)];
    t := Next(s, AddCall(2, CallWithoutScope()));
  }

  function CallWithoutScope(): Call {
    Call(1, 0, 0, 0, Planned, None, 7, 8, None, false, None, 0, None)
  }

  lemma AskedAndApproved(s: Db) returns (t: Db, u: Db)
    requires s == EMPTY.(runs := map[1 := Run(0, 8)], calls := map[2 := CallWithoutScope()])
    ensures t == Next(s, Create(2, 3, None)) && u == Next(t, Decide(Approve, 2, Decision(3, 1, 7, 8, 7), 0))
    ensures Key(3, 1) in u.approvals && u.approvals[Key(3, 1)].status == Approved
    ensures 2 in u.calls && Gate(u, u.calls[2]) == Stale
  {
    assert !HasPendingApproval(s, 2);
    t := AfterCreate(s, 2, 3, None);
    assert t.approvals == map[Key(3, 1) := Approval(1, 2, 0, Pending, 7, 8, 7, None)];
    assert Judge(t, 2, Decision(3, 1, 7, 8, 7), 0) == Granted(Key(3, 1));
    u := AfterApproval(t, Key(3, 1), 2);
  }
}
