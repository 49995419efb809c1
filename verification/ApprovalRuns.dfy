/** What every run of the approval protocol keeps, whatever the order of its steps. */
module ApprovalRuns {
  import opened Wrappers
  import opened ToolCalls
  import opened ApprovalModel

  /**
   One transaction.  The last three are the surroundings: runs and calls are added by the tool ledger,
   and executors move calls and queue items about but never touch what approvals are made of.
   */
  datatype Step =
    | Create(call: Id, freshLineage: Id, expiresAt: Option<int>)
    | Decide(action: Action, call: Id, decision: Decision, now: int)
    | Supersede(call: Id, replacement: Replacement)
    | Expire(key: Key, now: int)
    | AddRun(id: Id, run: Run)
    | AddCall(id: Id, newCall: Call)
    | Execute(statuses: map<Id, CallStatus>, queue: seq<QueueItem>)

  predicate IsNewCall(db: Db, id: Id, call: Call) {
    && id !in db.calls && call.run in db.runs
    && call.lineage == None && call.epoch == 0 && call.approved == None
    && forall c :: c in db.calls ==> !SameUniqueKey(db.calls[c], call)
  }

  function Executed(calls: map<Id, Call>, statuses: map<Id, CallStatus>): map<Id, Call> {
    map c | c in calls :: if c in statuses then calls[c].(status := statuses[c]) else calls[c]
  }

  ghost function Next(db: Db, step: Step): Db {
    match step
    case Create(c, l, expiresAt) => AfterCreate(db, c, l, expiresAt)
    case Decide(action, c, d, now) => AfterDecision(db, action, c, d, now)
    case Supersede(c, r) => AfterSupersede(db, c, r)
    case Expire(k, now) => AfterExpire(db, k, now)
    case AddRun(id, run) => if id in db.runs then db else db.(runs := db.runs[id := run])
    case AddCall(id, call) => if IsNewCall(db, id, call) then db.(calls := db.calls[id := call]) else db
    case Execute(statuses, queue) => db.(calls := Executed(db.calls, statuses), queue := queue)
  }

  const EMPTY := Db(map[], map[], map[], map[], [], [], [])

  ghost predicate IsStepOf(states: seq<Db>, steps: seq<Step>, i: nat)
    requires i < |steps| && |states| == |steps| + 1
  {
    states[i + 1] == Next(states[i], steps[i])
  }

  /** The states of a history, one more than it has steps. */
  ghost predicate IsHistory(states: seq<Db>, steps: seq<Step>) {
    && |states| == |steps| + 1 && states[0] == EMPTY
    && forall i :: 0 <= i < |steps| ==> IsStepOf(states, steps, i)
  }

  // ---------------------------------------------------------------- the invariant

  /** The approvals of each lineage are numbered 1 to its current epoch. */
  ghost predicate Linked(approvals: map<Key, Approval>, lineages: map<Id, Lineage>) {
    && (forall k :: k in approvals ==> k.lineage in lineages && 1 <= k.epoch <= lineages[k.lineage].currentEpoch)
    && (forall l :: l in lineages ==> IsNumbered(approvals, l, lineages[l]))
  }

  ghost predicate IsNumbered(approvals: map<Key, Approval>, l: Id, lineage: Lineage) {
    && lineage.currentEpoch >= 1
    && (forall e: nat :: 1 <= e <= lineage.currentEpoch ==> Key(l, e) in approvals)
    && approvals[Key(l, lineage.currentEpoch)].call == lineage.call
  }

  /** An approval and the call it is for agree on everything the approval covers. */
  ghost predicate Covers(k: Key, a: Approval, call: Call) {
    && call.lineage == Some(k.lineage) && call.epoch == k.epoch && call.approvalRequired
    && a.run == call.run
    && a.inputHash == call.inputHash && a.snapshot == call.snapshot && a.scope == ScopeOf(call)
    && (call.approved.Some? <==> a.status == Approved)
  }

  ghost predicate Matched(runs: map<Id, Run>, calls: map<Id, Call>, approvals: map<Key, Approval>) {
    && (forall k :: k in approvals ==>
          approvals[k].call in calls && approvals[k].run in runs && Covers(k, approvals[k], calls[approvals[k].call]))
    && (forall c :: c in calls ==> IsTied(c, calls[c], approvals))
  }

  /** A call names the approval made for it, if there is one. */
  ghost predicate IsTied(c: Id, call: Call, approvals: map<Key, Approval>) {
    match call.lineage
    case None => call.approved == None
    case Some(l) =>
      var k := Key(l, call.epoch);
      && k in approvals && approvals[k].call == c
      && (call.approved.Some? ==> call.approved.value == k)
  }

  /** Below the current epoch everything is superseded; the current approval has the status of its lineage. */
  ghost predicate Settled(approvals: map<Key, Approval>, lineages: map<Id, Lineage>) {
    forall k :: k in approvals && k.lineage in lineages ==>
      if k.epoch < lineages[k.lineage].currentEpoch then approvals[k].status == Superseded
      else approvals[k].status == lineages[k.lineage].status != Superseded
  }

  predicate IsLegal(m: Mutation) {
    match m.kind
    case Created => m.from == None && m.to == Pending
    case CreatedReplacement => m.from == None && m.to == Pending
    case Approving => m.from == Some(Pending) && m.to == Approved
    case Rejecting => m.from == Some(Pending) && m.to == Rejected
    case Superseding => m.from == Some(Pending) && m.to == Superseded
    case Expiring => m.from == Some(Pending) && m.to == Expired
  }

  /** The status the log leaves an approval in. */
  function StatusAfter(log: seq<Mutation>, k: Key): Option<ApprovalStatus> {
    if log == [] then None
    else if log[|log| - 1].key == k then Some(log[|log| - 1].to)
    else StatusAfter(log[..|log| - 1], k)
  }

  /** Every entry continues from where the log left its approval. */
  predicate IsChain(log: seq<Mutation>) {
    log == [] ||
    var front, last := log[..|log| - 1], log[|log| - 1];
    IsLegal(last) && last.from == StatusAfter(front, last.key) && IsChain(front)
  }

  function StatusOf(approvals: map<Key, Approval>, k: Key): Option<ApprovalStatus> {
    if k in approvals then Some(approvals[k].status) else None
  }

  ghost predicate LogAgrees(log: seq<Mutation>, approvals: map<Key, Approval>) {
    IsChain(log) && forall k :: StatusOf(approvals, k) == StatusAfter(log, k)
  }

  ghost predicate RowsAgree(db: Db) {
    Linked(db.approvals, db.lineages) && Settled(db.approvals, db.lineages) && Matched(db.runs, db.calls, db.approvals)
  }

  ghost predicate Inv(db: Db) {
    RowsAgree(db) && LogAgrees(db.log, db.approvals)
  }

  // ---------------------------------------------------------------- the log

  lemma ChainGrows(log: seq<Mutation>, m: Mutation)
    requires IsChain(log) && IsLegal(m) && m.from == StatusAfter(log, m.key)
    ensures IsChain(log + [m])
    ensures forall k :: StatusAfter(log + [m], k) == if k == m.key then Some(m.to) else StatusAfter(log, k)
  {
    assert (log + [m])[..|log|] == log;
  }

  lemma LogGrows(log: seq<Mutation>, approvals: map<Key, Approval>, m: Mutation, a: Approval)
    requires LogAgrees(log, approvals) && IsLegal(m) && m.from == StatusOf(approvals, m.key) && a.status == m.to
    ensures LogAgrees(log + [m], approvals[m.key := a])
  {
    ChainGrows(log, m);
    forall k ensures StatusOf(approvals[m.key := a], k) == StatusAfter(log + [m], k) {
      assert StatusOf(approvals, k) == StatusAfter(log, k);
    }
  }

  // ---------------------------------------------------------------- the rows

  /** One approval and its call are written together. */
  lemma MatchedWrite(runs: map<Id, Run>, calls: map<Id, Call>, approvals: map<Key, Approval>, k: Key, a: Approval, call: Call)
    requires Matched(runs, calls, approvals)
    requires if k in approvals then approvals[k].call == a.call
             else a.call in calls ==> calls[a.call].lineage == None
    requires a.run in runs && Covers(k, a, call) && (call.approved.Some? ==> call.approved.value == k)
    ensures Matched(runs, calls[a.call := call], approvals[k := a])
  {
    var c := a.call;
    forall j | j in approvals && j != k
      ensures approvals[j].call in calls && approvals[j].call != c && approvals[j].run in runs
              && Covers(j, approvals[j], calls[approvals[j].call])
    {
      assert Covers(j, approvals[j], calls[approvals[j].call]);
      assert k in approvals ==> Covers(k, approvals[k], calls[c]);
    }
    forall x | x in calls && x != c ensures IsTied(x, calls[x], approvals[k := a]) {
      assert IsTied(x, calls[x], approvals);
    }
    assert IsTied(c, call, approvals[k := a]);
  }

  lemma LineageStarts(approvals: map<Key, Approval>, lineages: map<Id, Lineage>, l: Id, a: Approval, lineage: Lineage)
    requires Linked(approvals, lineages) && Settled(approvals, lineages) && l !in lineages
    requires lineage.currentEpoch == 1 && lineage.call == a.call && lineage.status == a.status != Superseded
    ensures Linked(approvals[Key(l, 1) := a], lineages[l := lineage])
    ensures Settled(approvals[Key(l, 1) := a], lineages[l := lineage])
    ensures Key(l, 1) !in approvals
  {
    forall m | m in lineages ensures IsNumbered(approvals[Key(l, 1) := a], m, lineages[m]) {
      assert IsNumbered(approvals, m, lineages[m]);
    }
  }

  lemma LineageEnds(approvals: map<Key, Approval>, lineages: map<Id, Lineage>, k: Key, a: Approval, lineage: Lineage)
    requires Linked(approvals, lineages) && Settled(approvals, lineages) && k in approvals && k.lineage in lineages
    requires k.epoch == lineages[k.lineage].currentEpoch == lineage.currentEpoch
    requires lineage.call == a.call && lineage.status == a.status != Superseded
    ensures Linked(approvals[k := a], lineages[k.lineage := lineage])
    ensures Settled(approvals[k := a], lineages[k.lineage := lineage])
  {
    forall m | m in lineages && m != k.lineage ensures IsNumbered(approvals[k := a], m, lineages[m]) {
      assert IsNumbered(approvals, m, lineages[m]);
    }
    assert IsNumbered(approvals, k.lineage, lineages[k.lineage]);
  }

  lemma LineageGrows(approvals: map<Key, Approval>, lineages: map<Id, Lineage>, k: Key, was: Approval, a: Approval,
                     lineage: Lineage)
    requires Linked(approvals, lineages) && Settled(approvals, lineages) && k in approvals && k.lineage in lineages
    requires k.epoch == lineages[k.lineage].currentEpoch && lineage.currentEpoch == k.epoch + 1
    requires was.status == Superseded && lineage.call == a.call && lineage.status == a.status != Superseded
    ensures var written := approvals[k := was][Key(k.lineage, k.epoch + 1) := a];
            Linked(written, lineages[k.lineage := lineage]) && Settled(written, lineages[k.lineage := lineage])
  {
    var written := approvals[k := was][Key(k.lineage, k.epoch + 1) := a];
    forall m | m in lineages && m != k.lineage ensures IsNumbered(written, m, lineages[m]) {
      assert IsNumbered(approvals, m, lineages[m]);
    }
    assert IsNumbered(approvals, k.lineage, lineages[k.lineage]);
    assert IsNumbered(written, k.lineage, lineage);
  }

  // ---------------------------------------------------------------- each step keeps the invariant

  lemma CreateKeeps(db: Db, c: Id, newLineage: Id, expiresAt: Option<int>)
    requires Inv(db)
    ensures Inv(AfterCreate(db, c, newLineage, expiresAt))
  {
    var after := AfterCreate(db, c, newLineage, expiresAt);
    if after != db {
      CreateKeepsRows(db, c, newLineage, expiresAt);
      var k := Key(newLineage, 1);
      LogGrows(db.log, db.approvals, Mutation(k, c, Created, None, Pending), after.approvals[k]);
    }
  }

  lemma CreateKeepsRows(db: Db, c: Id, newLineage: Id, expiresAt: Option<int>)
    requires RowsAgree(db)
    ensures RowsAgree(AfterCreate(db, c, newLineage, expiresAt))
    ensures AfterCreate(db, c, newLineage, expiresAt) != db ==>
              db.calls[c].lineage == None && Key(newLineage, 1) !in db.approvals
  {
    var after := AfterCreate(db, c, newLineage, expiresAt);
    if after != db {
      if db.calls[c].lineage.Some? {
        NoSecondLineage(db, c);
        assert false;
      }
      var k := Key(newLineage, 1);
      LineageStarts(db.approvals, db.lineages, newLineage, after.approvals[k], after.lineages[newLineage]);
      MatchedWrite(db.runs, db.calls, db.approvals, k, after.approvals[k], after.calls[c]);
    }
  }

  /** The lineage of a call exists. */
  lemma NoSecondLineage(db: Db, c: Id)
    requires RowsAgree(db) && c in db.calls && db.calls[c].lineage.Some?
    ensures db.calls[c].lineage.value in db.lineages
  {
    ApprovalOf(db, c);
    OwnerOf(db, Key(db.calls[c].lineage.value, db.calls[c].epoch));
  }

  /** Approving, rejecting and expiring end the current, pending approval of a lineage. */
  lemma EndingKeeps(db: Db, after: Db, k: Key, kind: MutationKind, to: ApprovalStatus)
    requires Inv(db) && k in db.approvals && db.approvals[k].status == Pending
    requires to != Pending && to != Superseded
    requires IsLegal(Mutation(k, db.approvals[k].call, kind, Some(Pending), to))
    requires k.lineage in db.lineages && db.approvals[k].call in db.calls
    requires IsEnding(db, after, k, to)
    requires after.log == db.log + [Mutation(k, db.approvals[k].call, kind, Some(Pending), to)]
    ensures Inv(after)
  {
    EndingKeepsRows(db, after, k, to);
    LogGrows(db.log, db.approvals, Mutation(k, db.approvals[k].call, kind, Some(Pending), to), after.approvals[k]);
  }

  ghost predicate IsEnding(db: Db, after: Db, k: Key, to: ApprovalStatus)
    requires k in db.approvals && k.lineage in db.lineages && db.approvals[k].call in db.calls
  {
    var c := db.approvals[k].call;
    && after.runs == db.runs
    && after.approvals == db.approvals[k := db.approvals[k].(status := to)]
    && after.lineages == db.lineages[k.lineage := db.lineages[k.lineage].(status := to)]
    && c in after.calls && after.calls == db.calls[c := after.calls[c]]
    && after.calls[c] == db.calls[c].(status := after.calls[c].status, error := after.calls[c].error,
                                      approved := if to == Approved then Some(k) else None)
  }

  lemma EndingKeepsRows(db: Db, after: Db, k: Key, to: ApprovalStatus)
    requires RowsAgree(db) && k in db.approvals && db.approvals[k].status == Pending
    requires to != Pending && to != Superseded
    requires k.lineage in db.lineages && db.approvals[k].call in db.calls
    requires IsEnding(db, after, k, to)
    ensures RowsAgree(after)
  {
    OwnerOf(db, k);
    LineageEnds(db.approvals, db.lineages, k, after.approvals[k], after.lineages[k.lineage]);
    MatchedWrite(db.runs, db.calls, db.approvals, k, after.approvals[k], after.calls[db.approvals[k].call]);
  }

  lemma ExpiryKeeps(db: Db, k: Key, now: int)
    requires Inv(db)
    ensures Inv(AfterExpire(db, k, now))
    ensures k in db.approvals && IsDue(db.approvals[k], now) ==>
              && k.lineage in db.lineages && db.approvals[k].call in db.calls
              && AfterExpire(db, k, now) == AfterExpiry(db, k, db.approvals[k].call)
  {
    if k in db.approvals && IsDue(db.approvals[k], now) {
      OwnerOf(db, k);
      EndingKeeps(db, AfterExpiry(db, k, db.approvals[k].call), k, Expiring, Expired);
    }
  }

  /** What the invariant says about one approval. */
  lemma OwnerOf(db: Db, k: Key)
    requires RowsAgree(db) && k in db.approvals
    ensures k.lineage in db.lineages && 1 <= k.epoch <= db.lineages[k.lineage].currentEpoch
    ensures db.approvals[k].run in db.runs && db.approvals[k].call in db.calls
    ensures Covers(k, db.approvals[k], db.calls[db.approvals[k].call])
    ensures db.approvals[k].status != Superseded <==> k.epoch == db.lineages[k.lineage].currentEpoch
    ensures k.epoch == db.lineages[k.lineage].currentEpoch ==>
              db.lineages[k.lineage].call == db.approvals[k].call && db.lineages[k.lineage].status == db.approvals[k].status
  {
    assert IsNumbered(db.approvals, k.lineage, db.lineages[k.lineage]);
  }

  /** What it says about one call. */
  lemma ApprovalOf(db: Db, c: Id)
    requires RowsAgree(db) && c in db.calls && db.calls[c].lineage.Some?
    ensures var k := Key(db.calls[c].lineage.value, db.calls[c].epoch);
            && k in db.approvals && db.approvals[k].call == c && Covers(k, db.approvals[k], db.calls[c])
            && (db.calls[c].approved.Some? ==> db.calls[c].approved.value == k)
  {
    assert IsTied(c, db.calls[c], db.approvals);
  }

  lemma DecisionKeeps(db: Db, action: Action, c: Id, d: Decision, now: int)
    requires Inv(db)
    ensures Inv(AfterDecision(db, action, c, d, now))
  {
    match Judge(db, c, d, now)
    case Missing =>
    case Refused(code) =>
    case TooLate(k) =>
      JudgedApproval(db, c, d, now);
      EndingKeeps(db, AfterExpiry(db, k, c), k, Expiring, Expired);
    case Granted(k) =>
      GrantKeeps(db, action, c, d, now);
  }

  /** The approval a decision finds pending is the one of the call. */
  lemma JudgedApproval(db: Db, c: Id, d: Decision, now: int)
    requires RowsAgree(db) && (Judge(db, c, d, now).TooLate? || Judge(db, c, d, now).Granted?)
    ensures var k := Key(d.lineage, d.epoch);
            && Judge(db, c, d, now).key == k && k in db.approvals && db.approvals[k].call == c && db.approvals[k].status == Pending
            && k.lineage in db.lineages && c in db.calls && db.calls[c].approved == None && db.calls[c].epoch == k.epoch
            && db.approvals[k].run in db.runs && db.calls[c].run == db.approvals[k].run
  {
    ApprovalOf(db, c);
  }

  lemma ConsentEnds(db: Db, k: Key, c: Id)
    requires k in db.approvals && k.lineage in db.lineages && db.approvals[k].call == c && c in db.calls
    requires db.calls[c].epoch == k.epoch && db.approvals[k].status == Pending
    ensures IsEnding(db, AfterApproval(db, k, c), k, Approved)
    ensures AfterApproval(db, k, c).log == db.log + [Mutation(k, c, Approving, Some(Pending), Approved)]
  {
    var consented, after := Consented(db, k, c), AfterApproval(db, k, c);
    assert after.calls == consented.calls[c := after.calls[c]];
    assert after == consented.(queue := after.queue, calls := after.calls);
  }

  lemma GrantKeeps(db: Db, action: Action, c: Id, d: Decision, now: int)
    requires Inv(db) && Judge(db, c, d, now).Granted?
    ensures Inv(AfterDecision(db, action, c, d, now))
  {
    var k := Key(d.lineage, d.epoch);
    JudgedApproval(db, c, d, now);
    if action == Approve {
      ConsentEnds(db, k, c);
      EndingKeeps(db, AfterApproval(db, k, c), k, Approving, Approved);
    } else {
      EndingKeeps(db, AfterRejection(db, k, c), k, Rejecting, Rejected);
    }
  }

  /** The (lineage, epoch) a replacement needs is always free, and so is the attempt number it is given. */
  lemma SupersedingKeysAreFree(db: Db, c: Id, r: Replacement)
    requires RowsAgree(db) && SupersedeRefusal(db, c, r) == None
    ensures Key(db.calls[c].lineage.value, db.lineages[db.calls[c].lineage.value].currentEpoch + 1) !in db.approvals
    ensures forall x :: x in db.calls && db.calls[x].run == r.run && db.calls[x].step == r.step ==>
              db.calls[x].attempt < NextAttempt(db, db.calls[c], r)
  {
    var newKey := Key(db.calls[c].lineage.value, db.lineages[db.calls[c].lineage.value].currentEpoch + 1);
    if newKey in db.approvals {
      OwnerOf(db, newKey);
      assert false;
    }
    AttemptIsNew(db, db.calls[c], r);
  }

  lemma AttemptIsNew(db: Db, prior: Call, r: Replacement)
    requires prior.run == r.run
    ensures forall x :: x in db.calls && db.calls[x].run == r.run && db.calls[x].step == r.step ==>
              db.calls[x].attempt < NextAttempt(db, prior, r)
  {
    forall x | x in db.calls && db.calls[x].run == r.run && db.calls[x].step == r.step
      ensures db.calls[x].attempt < NextAttempt(db, prior, r)
    {
      assert db.calls[x].attempt in Attempts(db, r.run, r.step);
    }
  }

  lemma SupersedeKeeps(db: Db, c: Id, r: Replacement)
    requires Inv(db)
    ensures Inv(AfterSupersede(db, c, r))
  {
    SupersedeReplaces(db, c, r);
    var after := AfterSupersede(db, c, r);
    if after != db {
      var oldKey, replacement :| IsReplaceable(db, c, oldKey, r.id, replacement)
                                 && after == Replaced(db, c, oldKey, Key(oldKey.lineage, oldKey.epoch + 1), r.id, replacement);
      ReplacedKeeps(db, c, oldKey, r.id, replacement);
    }
  }

  lemma SupersedeReplaces(db: Db, c: Id, r: Replacement)
    ensures AfterSupersede(db, c, r) == db || exists oldKey, replacement ::
              && IsReplaceable(db, c, oldKey, r.id, replacement)
              && AfterSupersede(db, c, r) == Replaced(db, c, oldKey, Key(oldKey.lineage, oldKey.epoch + 1), r.id, replacement)
  {
    if SupersedeRefusal(db, c, r) == None {
      var prior := db.calls[c];
      var l := prior.lineage.value;
      var oldKey := Key(l, db.lineages[l].currentEpoch);
      var replacement := ReplacementCall(db, prior, r, NextAttempt(db, prior, r), oldKey.epoch + 1);
      if !Collides(db, r.id, replacement, Key(l, oldKey.epoch + 1)) {
        assert IsReplaceable(db, c, oldKey, r.id, replacement);
      }
    }
  }

  lemma ReplacedKeeps(db: Db, c: Id, oldKey: Key, id: Id, replacement: Call)
    requires Inv(db) && IsReplaceable(db, c, oldKey, id, replacement)
    ensures Inv(Replaced(db, c, oldKey, Key(oldKey.lineage, oldKey.epoch + 1), id, replacement))
  {
    var newKey := Key(oldKey.lineage, oldKey.epoch + 1);
    var after := Replaced(db, c, oldKey, newKey, id, replacement);
    ReplacedKeepsRows(db, c, oldKey, id, replacement);
    if newKey in db.approvals {
      OwnerOf(db, newKey);
      assert false;
    }
    var first := Mutation(oldKey, c, Superseding, Some(Pending), Superseded);
    var second := Mutation(newKey, id, CreatedReplacement, None, Pending);
    var superseded := db.approvals[oldKey].(status := Superseded);
    LogGrows(db.log, db.approvals, first, superseded);
    LogGrows(db.log + [first], db.approvals[oldKey := superseded], second, after.approvals[newKey]);
    assert after.log == db.log + [first] + [second];
  }

  ghost predicate IsReplaceable(db: Db, c: Id, oldKey: Key, id: Id, replacement: Call) {
    && oldKey in db.approvals && oldKey.lineage in db.lineages && oldKey.epoch == db.lineages[oldKey.lineage].currentEpoch
    && db.approvals[oldKey].status == Pending && db.approvals[oldKey].call == c && c in db.calls
    && id !in db.calls && replacement.run in db.runs
    && replacement.approvalRequired && replacement.lineage == Some(oldKey.lineage) && replacement.approved == None
    && replacement.epoch == oldKey.epoch + 1
  }

  lemma ReplacedKeepsRows(db: Db, c: Id, oldKey: Key, id: Id, replacement: Call)
    requires RowsAgree(db) && IsReplaceable(db, c, oldKey, id, replacement)
    ensures RowsAgree(Replaced(db, c, oldKey, Key(oldKey.lineage, oldKey.epoch + 1), id, replacement))
  {
    var newKey := Key(oldKey.lineage, oldKey.epoch + 1);
    var after := Replaced(db, c, oldKey, newKey, id, replacement);
    OwnerOf(db, oldKey);
    var superseded := db.approvals[oldKey].(status := Superseded);
    LineageGrows(db.approvals, db.lineages, oldKey, superseded, after.approvals[newKey], after.lineages[oldKey.lineage]);
    MatchedWrite(db.runs, db.calls, db.approvals, oldKey, superseded, after.calls[c]);
    MatchedWrite(db.runs, db.calls[c := after.calls[c]], db.approvals[oldKey := superseded], newKey, after.approvals[newKey],
                 replacement);
    assert db.calls[c := after.calls[c]][id := replacement] == after.calls;
  }

  lemma SurroundingsKeep(db: Db, after: Db)
    requires Inv(db)
    requires after.approvals == db.approvals && after.lineages == db.lineages && after.log == db.log
    requires forall r :: r in db.runs ==> r in after.runs
    requires forall c :: c in db.calls ==> c in after.calls && after.calls[c] == db.calls[c].(status := after.calls[c].status)
    requires forall c :: c in after.calls && c !in db.calls ==> after.calls[c].lineage == None && after.calls[c].approved == None
    ensures Inv(after)
  {
    forall x | x in after.calls ensures IsTied(x, after.calls[x], after.approvals) {
      assert x in db.calls ==> IsTied(x, db.calls[x], db.approvals);
    }
    forall k | k in after.approvals
      ensures after.approvals[k].call in after.calls && after.approvals[k].run in after.runs
              && Covers(k, after.approvals[k], after.calls[after.approvals[k].call])
    {
      OwnerOf(db, k);
    }
  }

  lemma StepKeeps(db: Db, step: Step)
    requires Inv(db)
    ensures Inv(Next(db, step))
  {
    match step
    case Create(c, l, expiresAt) => CreateKeeps(db, c, l, expiresAt);
    case Decide(action, c, d, now) => DecisionKeeps(db, action, c, d, now);
    case Supersede(c, r) => SupersedeKeeps(db, c, r);
    case Expire(k, now) => ExpiryKeeps(db, k, now);
    case AddRun(id, run) => SurroundingsKeep(db, Next(db, step));
    case AddCall(id, call) => SurroundingsKeep(db, Next(db, step));
    case Execute(statuses, queue) => SurroundingsKeep(db, Next(db, step));
  }

  lemma {:induction false} RunKeeps(states: seq<Db>, steps: seq<Step>, n: nat)
    requires IsHistory(states, steps) && n <= |steps|
    ensures Inv(states[n])
  {
    if n > 0 {
      RunKeeps(states, steps, n - 1);
      assert IsStepOf(states, steps, n - 1);
      StepKeeps(states[n - 1], steps[n - 1]);
    }
  }
}
