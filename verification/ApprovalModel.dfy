/**
 The rows of the approval tables and what each guarded operation makes of them.

 Identifiers, hashes and times are integers compared for equality or order.  An approval is named
 by its lineage and epoch, which the table keeps unique.
 */
module ApprovalModel {
  import opened Wrappers
  import opened ToolCalls

  type Id = int

  datatype ApprovalStatus = Pending | Approved | Rejected | Expired | Superseded

  datatype ErrorCode =
    | StaleOrSuperseded | EpochConflict | InputChanged | NotApprovable | CannotSupersede
    | RunMismatch | NotFound | DuplicateKey
    | ApprovalRequired | ApprovalRejected | ApprovalExpired | ApprovalSuperseded | OtherError

  datatype Run = Run(project: Id, snapshot: Id)

  datatype Call = Call(
    run: Id, step: int, attempt: int, idempotencyKey: Id, status: CallStatus, error: Option<ErrorCode>,
    inputHash: Id, snapshot: Id, scope: Option<Id>,
    approvalRequired: bool, lineage: Option<Id>, epoch: nat, approved: Option<Key>)

  datatype Key = Key(lineage: Id, epoch: nat)

  datatype Approval = Approval(
    run: Id, call: Id, project: Id, status: ApprovalStatus,
    inputHash: Id, snapshot: Id, scope: Id, expiresAt: Option<int>)

  datatype Lineage = Lineage(
    run: Id, call: Id, project: Id, currentEpoch: nat, status: ApprovalStatus,
    inputHash: Id, snapshot: Id, scope: Id)

  datatype QueueItem = QueueItem(call: Id, status: QueueStatus, lastError: Option<ErrorCode>, leaseOwner: Option<Id>)

  datatype MutationKind = Created | Approving | Rejecting | Superseding | CreatedReplacement | Expiring

  datatype Mutation = Mutation(key: Key, call: Id, kind: MutationKind, from: Option<ApprovalStatus>, to: ApprovalStatus)

  datatype Event =
    | ToolPlanned(call: Id)
    | ApprovalEvent(kind: MutationKind, key: Key, call: Id)
    | ConflictEvent(action: Action, call: Id, lineage: Id, code: ErrorCode)

  datatype Action = Approve | Reject

  datatype Db = Db(
    runs: map<Id, Run>, calls: map<Id, Call>, approvals: map<Key, Approval>, lineages: map<Id, Lineage>,
    queue: seq<QueueItem>, log: seq<Mutation>, events: seq<Event>)

  /** What a decision sends along: the approval it is about, as the decider saw it. */
  datatype Decision = Decision(lineage: Id, epoch: nat, inputHash: Id, snapshot: Id, scope: Id)

  /** What is asked of a replacement call; its identifier is the fresh one it gets. */
  datatype Replacement = Replacement(
    id: Id, run: Id, step: int, attempt: int, idempotencyKey: Id, inputHash: Id, scope: Id)

  // ---------------------------------------------------------------- shared pieces

  /** `call.approval_scope_hash or call.input_hash`. */
  function ScopeOf(call: Call): Id {
    match call.scope case Some(s) => s case None => call.inputHash
  }

  predicate IsDue(a: Approval, now: int) {
    a.status == Pending && a.expiresAt.Some? && a.expiresAt.value <= now
  }

  predicate IsApprovable(s: CallStatus) {
    s == Planned || s == PendingApproval
  }

  predicate BlocksSuperseding(s: CallStatus) {
    s in {Leased, RunningPreEffect, EffectSent, Uncertain, Reconciling, Succeeded}
  }

  function BlockItem(item: QueueItem, call: Id, code: ErrorCode): QueueItem {
    if item.call == call && item.status in {Queued, LeasedItem, BlockedApproval}
    then QueueItem(call, BlockedApproval, Some(code), None)
    else item
  }

  function BlockedQueue(queue: seq<QueueItem>, call: Id, code: ErrorCode): seq<QueueItem> {
    seq(|queue|, i requires 0 <= i < |queue| => BlockItem(queue[i], call, code))
  }

  /** The newest queue item of a call. */
  function NewestItem(queue: seq<QueueItem>, call: Id): (i: int)
    ensures -1 <= i < |queue|
    ensures i >= 0 ==> queue[i].call == call
    ensures forall j :: i < j < |queue| ==> queue[j].call != call
  {
    if queue == [] then -1
    else if queue[|queue| - 1].call == call then |queue| - 1
    else NewestItem(queue[..|queue| - 1], call)
  }

  /** A queue item an approval sets free again. */
  predicate IsReleasable(item: QueueItem) {
    && item.status in {BlockedApproval, FailedItem}
    && (item.lastError == None || item.lastError.value in {ApprovalRequired, ApprovalRejected, ApprovalExpired})
  }

  function ReleasedItem(item: QueueItem): QueueItem {
    QueueItem(item.call, Queued, None, None)
  }

  // ---------------------------------------------------------------- creating

  /** The approval `get_current_approval` finds: the one of the call with the highest epoch. */
  predicate IsCurrent(db: Db, call: Id, k: Key) {
    && k in db.approvals && db.approvals[k].call == call
    && forall j :: j in db.approvals && db.approvals[j].call == call ==> j.epoch <= k.epoch
  }

  predicate HasPendingApproval(db: Db, call: Id) {
    exists k :: k in db.approvals && IsCurrent(db, call, k) && db.approvals[k].status == Pending
  }

  /** A lineage that exists already makes the insert fail, and with it the whole transaction. */
  function AfterCreate(db: Db, c: Id, freshLineage: Id, expiresAt: Option<int>): Db {
    if c !in db.calls || db.calls[c].run !in db.runs || HasPendingApproval(db, c) then db
    else
      var call := db.calls[c];
      var l := if call.lineage.Some? then call.lineage.value else freshLineage;
      var k := Key(l, 1);
      if l in db.lineages || k in db.approvals then db
      else
        var project := db.runs[call.run].project;
        db.(lineages := db.lineages[l := Lineage(call.run, c, project, 1, Pending, call.inputHash, call.snapshot, ScopeOf(call))],
            approvals := db.approvals[k := Approval(call.run, c, project, Pending, call.inputHash, call.snapshot, ScopeOf(call), expiresAt)],
            calls := db.calls[c := call.(approvalRequired := true, lineage := Some(l), epoch := 1)],
            log := db.log + [Mutation(k, c, Created, None, Pending)],
            events := db.events + [ApprovalEvent(Created, k, c)])
  }

  // ---------------------------------------------------------------- deciding

  /** How a decision on a call turns out. */
  datatype Verdict =
    | Missing
    | Refused(code: ErrorCode)
    | TooLate(key: Key)
    | Granted(key: Key)

  /** The error code a caller sees, or the approval that was decided. */
  function Answer(v: Verdict): Result<Key, ErrorCode> {
    match v
    case Missing => Err(NotFound)
    case Refused(code) => Err(code)
    case TooLate(_) => Err(StaleOrSuperseded)
    case Granted(k) => Ok(k)
  }

  function Judge(db: Db, c: Id, d: Decision, now: int): Verdict {
    if d.lineage !in db.lineages || c !in db.calls then Missing
    else
      var lineage, call, k := db.lineages[d.lineage], db.calls[c], Key(d.lineage, d.epoch);
      if call.lineage != Some(d.lineage) || lineage.call != c then Refused(StaleOrSuperseded)
      else if d.epoch != lineage.currentEpoch || d.epoch != call.epoch then Refused(EpochConflict)
      else if k !in db.approvals || call.run !in db.runs then Missing
      else
        var a := db.approvals[k];
        if a.status != Pending then Refused(StaleOrSuperseded)
        else if a.inputHash != d.inputHash then Refused(InputChanged)
        else if a.snapshot != d.snapshot || a.scope != d.scope then Refused(StaleOrSuperseded)
        else if IsDue(a, now) then TooLate(k)
        else if !IsApprovable(call.status) then Refused(NotApprovable)
        else Granted(k)
  }

  /** A refusal is recorded if the run of the call is known. */
  function WithConflict(db: Db, action: Action, c: Id, l: Id, code: ErrorCode): Db
    requires c in db.calls
  {
    if db.calls[c].run in db.runs then db.(events := db.events + [ConflictEvent(action, c, l, code)]) else db
  }

  function AfterExpiry(db: Db, k: Key, c: Id): Db
    requires k in db.approvals && k.lineage in db.lineages && c in db.calls
  {
    db.(approvals := db.approvals[k := db.approvals[k].(status := Expired)],
        lineages := db.lineages[k.lineage := db.lineages[k.lineage].(status := Expired)],
        calls := db.calls[c := db.calls[c].(status := ManualIntervention, error := Some(ApprovalExpired))],
        log := db.log + [Mutation(k, db.approvals[k].call, Expiring, Some(Pending), Expired)],
        events := db.events + [ApprovalEvent(Expiring, k, c)],
        queue := BlockedQueue(db.queue, c, ApprovalExpired))
  }

  function AfterApproval(db: Db, k: Key, c: Id): Db
    requires k in db.approvals && k.lineage in db.lineages && c in db.calls
  {
    Released(Consented(db, k, c), c)
  }

  function Consented(db: Db, k: Key, c: Id): Db
    requires k in db.approvals && k.lineage in db.lineages && c in db.calls
  {
    db.(approvals := db.approvals[k := db.approvals[k].(status := Approved)],
        lineages := db.lineages[k.lineage := db.lineages[k.lineage].(status := Approved)],
        calls := db.calls[c := db.calls[c].(approved := Some(k), epoch := k.epoch, error := None)],
        log := db.log + [Mutation(k, db.approvals[k].call, Approving, Some(db.approvals[k].status), Approved)],
        events := db.events + [ApprovalEvent(Approving, k, c)])
  }

  /** The call's newest queue item is set free if it was held back; without any, it is queued. */
  function Released(db: Db, c: Id): Db
    requires c in db.calls
  {
    var item := NewestItem(db.queue, c);
    if item < 0 then db.(queue := db.queue + [QueueItem(c, Queued, None, None)])
    else if IsReleasable(db.queue[item]) then
      db.(queue := db.queue[item := ReleasedItem(db.queue[item])], calls := db.calls[c := db.calls[c].(status := Planned)])
    else db
  }

  function AfterRejection(db: Db, k: Key, c: Id): Db
    requires k in db.approvals && k.lineage in db.lineages && c in db.calls
  {
    db.(approvals := db.approvals[k := db.approvals[k].(status := Rejected)],
        lineages := db.lineages[k.lineage := db.lineages[k.lineage].(status := Rejected)],
        calls := db.calls[c := db.calls[c].(status := ManualIntervention, error := Some(ApprovalRejected))],
        log := db.log + [Mutation(k, db.approvals[k].call, Rejecting, Some(db.approvals[k].status), Rejected)],
        events := db.events + [ApprovalEvent(Rejecting, k, c)],
        queue := BlockedQueue(db.queue, c, ApprovalRejected))
  }

  /** A decision that comes too late still expires the approval; every refusal leaves a conflict event. */
  function AfterDecision(db: Db, action: Action, c: Id, d: Decision, now: int): Db {
    match Judge(db, c, d, now)
    case Missing => db
    case Refused(code) => WithConflict(db, action, c, d.lineage, code)
    case TooLate(k) => WithConflict(AfterExpiry(db, k, c), action, c, d.lineage, StaleOrSuperseded)
    case Granted(k) => if action == Approve then AfterApproval(db, k, c) else AfterRejection(db, k, c)
  }

  /** The expiry of one approval by the scanner. */
  function AfterExpire(db: Db, k: Key, now: int): Db {
    if k !in db.approvals || !IsDue(db.approvals[k], now) then db
    else
      var a := db.approvals[k];
      if k.lineage !in db.lineages || a.call !in db.calls || a.run !in db.runs then db
      else AfterExpiry(db, k, a.call)
  }

  // ---------------------------------------------------------------- superseding

  /** The attempts made so far at a step of a run. */
  function Attempts(db: Db, run: Id, step: int): set<int> {
    set c | c in db.calls && db.calls[c].run == run && db.calls[c].step == step :: db.calls[c].attempt
  }

  /** The greatest member, or 0: SQL's `max(...) or 0`. */
  ghost predicate IsMaxOrZero(s: set<int>, m: int) {
    if s == {} then m == 0 else m in s && forall x :: x in s ==> x <= m
  }

  ghost function MaxOrZero(s: set<int>): (m: int)
    ensures IsMaxOrZero(s, m)
  {
    if s == {} then 0
    else
      MaxExists(s);
      var m :| IsMaxOrZero(s, m);
      m
  }

  lemma MaxExists(s: set<int>)
    ensures exists m :: IsMaxOrZero(s, m)
  {
    if s == {} {
      assert IsMaxOrZero(s, 0);
    } else {
      var x := SomeMember(s);
      var rest := s - {x};
      if rest == {} {
        assert s == {x};
        assert IsMaxOrZero(s, x);
      } else {
        MaxExists(rest);
        var m :| IsMaxOrZero(rest, m);
        assert forall y :: y in s <==> y == x || y in rest;
        assert IsMaxOrZero(s, if x > m then x else m);
      }
    }
  }

  ghost function NextAttempt(db: Db, prior: Call, r: Replacement): int {
    Max(Max(MaxOrZero(Attempts(db, prior.run, r.step)) + 1, prior.attempt + 1), r.attempt)
  }

  function Max(a: int, b: int): int {
    if a < b then b else a
  }

  /** The first reason not to supersede the pending approval of `c`, if there is one. */
  function SupersedeRefusal(db: Db, c: Id, r: Replacement): Option<ErrorCode> {
    if c !in db.calls then Some(NotFound)
    else
      var call := db.calls[c];
      if call.lineage == None then Some(NotApprovable)
      else if call.lineage.value !in db.lineages then Some(NotFound)
      else
        var l := call.lineage.value;
        var k := Key(l, db.lineages[l].currentEpoch);
        if k !in db.approvals || db.approvals[k].status != Pending || db.approvals[k].call != c then Some(StaleOrSuperseded)
        else if call.run !in db.runs then Some(NotFound)
        else if r.run != call.run then Some(RunMismatch)
        else if BlocksSuperseding(call.status) then Some(CannotSupersede)
        else None
  }

  function ReplacementCall(db: Db, prior: Call, r: Replacement, attempt: int, epoch: nat): Call
    requires prior.run in db.runs
  {
    Call(prior.run, r.step, attempt, r.idempotencyKey, Planned, None, r.inputHash, db.runs[prior.run].snapshot, Some(r.scope),
         true, prior.lineage, epoch, None)
  }

  /** Some row already has one of the unique keys of the rows about to be inserted. */
  predicate Collides(db: Db, id: Id, call: Call, k: Key) {
    || id in db.calls || k in db.approvals
    || exists c :: c in db.calls && SameUniqueKey(db.calls[c], call)
  }

  predicate SameUniqueKey(a: Call, b: Call) {
    a.run == b.run && (a.idempotencyKey == b.idempotencyKey || (a.step == b.step && a.attempt == b.attempt))
  }

  ghost function AfterSupersede(db: Db, c: Id, r: Replacement): Db {
    if SupersedeRefusal(db, c, r).Some? then db
    else
      var prior := db.calls[c];
      var l := prior.lineage.value;
      var lineage := db.lineages[l];
      var oldKey, newKey := Key(l, lineage.currentEpoch), Key(l, lineage.currentEpoch + 1);
      var replacement := ReplacementCall(db, prior, r, NextAttempt(db, prior, r), newKey.epoch);
      if Collides(db, r.id, replacement, newKey) then db
      else Replaced(db, c, oldKey, newKey, r.id, replacement)
  }

  function Replaced(db: Db, c: Id, oldKey: Key, newKey: Key, id: Id, replacement: Call): Db
    requires c in db.calls && oldKey in db.approvals && oldKey.lineage in db.lineages && replacement.run in db.runs
  {
    var project := db.runs[replacement.run].project;
    db.(calls := db.calls[id := replacement][c := db.calls[c].(status := Obsolete, error := Some(ApprovalSuperseded))],
        approvals := db.approvals[oldKey := db.approvals[oldKey].(status := Superseded)]
                                 [newKey := Approval(replacement.run, id, project, Pending, replacement.inputHash,
                                                     replacement.snapshot, ScopeOf(replacement), None)],
        lineages := db.lineages[oldKey.lineage := db.lineages[oldKey.lineage].(
                      call := id, currentEpoch := newKey.epoch, status := Pending, inputHash := replacement.inputHash,
                      snapshot := replacement.snapshot, scope := ScopeOf(replacement))],
        log := db.log + [Mutation(oldKey, db.approvals[oldKey].call, Superseding, Some(db.approvals[oldKey].status), Superseded),
                         Mutation(newKey, id, CreatedReplacement, None, Pending)],
        events := db.events + [ToolPlanned(id), ApprovalEvent(Superseding, oldKey, c), ApprovalEvent(CreatedReplacement, newKey, id)],
        queue := BlockedQueue(db.queue, c, ApprovalSuperseded))
  }

  // ---------------------------------------------------------------- the execution gate

  datatype GateAnswer = Pass | RequiresApproval | Stale

  /** `ensure_approval_allows_execution`. */
  function Gate(db: Db, call: Call): GateAnswer {
    if !call.approvalRequired then Pass
    else if call.approved == None then RequiresApproval
    else
      var k := call.approved.value;
      if k !in db.approvals || db.approvals[k].status != Approved then RequiresApproval
      else
        var a := db.approvals[k];
        if a.inputHash != call.inputHash || a.snapshot != call.snapshot || Some(a.scope) != call.scope
           || Some(k.lineage) != call.lineage || k.epoch != call.epoch
        then Stale else Pass
  }
}
