/** Whether a paused run may go on from its checkpoint. */
module Freshness {
  import opened Wrappers
  import opened ToolCalls
  import opened ReconcileModel

  datatype Checkpoint = Checkpoint(createdAt: int, snapshot: Id)

  /** A watch on evidence that has gone stale; `environment` if it watches or was set off by an environment. */
  datatype Watch = Watch(environment: bool)

  datatype Role = DecisionDependency | ValidationEvidence | PolicyDependency | OtherRole
  datatype RefType = LatestExecutionSample | ExternalDoc | MemoryRef | OtherRef
  datatype Mutability = EphemeralLatest | ExternalUncontrolled | OtherMutability
  datatype Policy = RevalidateOnResume | OtherPolicy

  datatype PolicyRef = PolicyRef(
    active: bool, role: Role, superseded: bool, refType: RefType, refId: Option<Id>, mutability: Mutability, policy: Policy)

  /** Staleness in hundredths. */
  datatype Memory = Memory(needsRevalidation: bool, staleScore: int)

  datatype PendingApproval = PendingApproval(
    call: Id, expiresAt: Option<int>, input: Id, snapshot: Id, scope: Id, lineage: Id, epoch: int)

  /** What the gate looks up besides the ledger.  Nobody's permissions are looked at when no user asks. */
  datatype Facts = Facts(
    checkpoint: Option<Checkpoint>, maxAge: int, snapshots: set<Id>, runSnapshot: Id, watches: seq<Watch>,
    refs: seq<PolicyRef>, memories: map<Id, Memory>, pending: seq<PendingApproval>, granted: Option<set<Id>>,
    activeContracts: set<Contract>)

  datatype Reason =
    | CheckpointMissing | CheckpointTooOld | SnapshotMissing | SnapshotMismatch | OpenBlocks | EnvironmentUpdated
    | StaleWatch | LatestSample | ActiveEvidence | StaleMemory | ApprovalExpired | ApprovalStale | ApprovalPending
    | PermissionRevoked | ContractMissing | Fresh

  function ActionOf(r: Reason): Action {
    match r
    case CheckpointMissing => Replan
    case CheckpointTooOld => Replan
    case SnapshotMissing => Replan
    case SnapshotMismatch => Replan
    case OpenBlocks => MigrationBlock
    case EnvironmentUpdated => RevalidateBeforeSideEffect
    case StaleWatch => FetchEvidence
    case LatestSample => MaterializeEvidence
    case ActiveEvidence => FetchEvidence
    case StaleMemory => FetchEvidence
    case ApprovalExpired => RefreshApproval
    case ApprovalStale => RefreshApproval
    case ApprovalPending => RefreshApproval
    case PermissionRevoked => RefreshPermissions
    case ContractMissing => MigrationBlock
    case Fresh => Continue
  }

  /** Whole seconds, rounded towards zero. */
  function Seconds(milliseconds: int): int {
    if milliseconds >= 0 then milliseconds / 1000 else -(-milliseconds / 1000)
  }

  predicate IsActive(r: PolicyRef) {
    r.active && r.role != OtherRole && !r.superseded
  }

  predicate IsLatestSample(r: PolicyRef) {
    IsActive(r) && (r.refType == LatestExecutionSample || r.mutability == EphemeralLatest)
  }

  predicate NeedsRevalidation(r: PolicyRef) {
    && IsActive(r) && !IsLatestSample(r)
    && (r.policy == RevalidateOnResume || r.mutability == ExternalUncontrolled || r.refType == ExternalDoc)
  }

  predicate IsStale(m: Memory) {
    m.needsRevalidation || m.staleScore >= 80
  }

  predicate RestsOnStaleMemory(r: PolicyRef, memories: map<Id, Memory>) {
    exists m :: m in memories && IsRefTo(r, m) && IsStale(memories[m])
  }

  predicate IsRefTo(r: PolicyRef, m: Id) {
    IsActive(r) && r.refType == MemoryRef && r.refId == Some(m)
  }

  predicate HasExpired(a: PendingApproval, now: int) {
    a.expiresAt.Some? && a.expiresAt.value <= now
  }

  const LIVE: set<CallStatus> := {Planned, FailedRetryable, Uncertain, Reconciling}

  predicate LacksPermission(call: Call, granted: Option<set<Id>>) {
    call.status in LIVE && granted.Some? && exists p :: p in call.permissions && p !in granted.value
  }

  predicate LacksContract(call: Call, active: set<Contract>) {
    call.contract.Some? && call.contract.value !in active
  }

  predicate NoEnvironmentChanged(watches: seq<Watch>) {
    forall i :: 0 <= i < |watches| ==> !watches[i].environment
  }

  predicate NoLatestSample(refs: seq<PolicyRef>) {
    forall i :: 0 <= i < |refs| ==> !IsLatestSample(refs[i])
  }

  predicate NoneNeedsRevalidation(refs: seq<PolicyRef>) {
    forall i :: 0 <= i < |refs| ==> !NeedsRevalidation(refs[i])
  }

  predicate NoneRestsOnStaleMemory(refs: seq<PolicyRef>, memories: map<Id, Memory>) {
    forall i :: 0 <= i < |refs| ==> !RestsOnStaleMemory(refs[i], memories)
  }

  predicate NoneExpired(pending: seq<PendingApproval>, now: int) {
    forall i :: 0 <= i < |pending| ==> !HasExpired(pending[i], now)
  }

  /** Its call exists and agrees with it on input, snapshot, scope, lineage and epoch. */
  predicate Agrees(a: PendingApproval, calls: map<Id, Call>) {
    a.call in calls &&
    var terms := calls[a.call].terms;
    && a.input == terms.input && a.snapshot == terms.snapshot
    && a.scope == (if terms.scope.Some? then terms.scope.value else terms.input)
    && Some(a.lineage) == terms.lineage && a.epoch == terms.epoch
  }

  predicate AllAgree(pending: seq<PendingApproval>, calls: map<Id, Call>) {
    forall i :: 0 <= i < |pending| ==> Agrees(pending[i], calls)
  }

  predicate NoneLacksPermission(calls: map<Id, Call>, granted: Option<set<Id>>) {
    forall c :: c in calls ==> !LacksPermission(calls[c], granted)
  }

  predicate NoneLacksContract(calls: map<Id, Call>, active: set<Contract>) {
    forall c :: c in calls ==> !LacksContract(calls[c], active)
  }

  /** The check behind a reason to stop. */
  predicate Passes(r: Reason, s: Ledger, f: Facts) {
    match r
    case CheckpointMissing => f.checkpoint.Some?
    case CheckpointTooOld => f.checkpoint.Some? ==> Seconds(s.now - f.checkpoint.value.createdAt) <= f.maxAge
    case SnapshotMissing => f.checkpoint.Some? ==> f.checkpoint.value.snapshot in f.snapshots
    case SnapshotMismatch => f.checkpoint.Some? ==> f.checkpoint.value.snapshot == f.runSnapshot
    case OpenBlocks => OpenIds(s.blocks) == []
    case EnvironmentUpdated => NoEnvironmentChanged(f.watches)
    case StaleWatch => f.watches == []
    case LatestSample => NoLatestSample(f.refs)
    case ActiveEvidence => NoneNeedsRevalidation(f.refs)
    case StaleMemory => NoneRestsOnStaleMemory(f.refs, f.memories)
    case ApprovalExpired => NoneExpired(f.pending, s.now)
    case ApprovalStale => AllAgree(f.pending, s.calls)
    case ApprovalPending => f.pending == []
    case PermissionRevoked => NoneLacksPermission(s.calls, f.granted)
    case ContractMissing => NoneLacksContract(s.calls, f.activeContracts)
    case Fresh => true
  }

  /** The first check that fails. */
  function Verdict(s: Ledger, f: Facts): Reason {
    var checkpoint, evidence := CheckpointVerdict(s, f), EvidenceVerdict(s, f);
    if checkpoint != Fresh then checkpoint else if evidence != Fresh then evidence else AuthorityVerdict(s, f)
  }

  function CheckpointVerdict(s: Ledger, f: Facts): Reason {
    if !Passes(CheckpointMissing, s, f) then CheckpointMissing
    else if !Passes(CheckpointTooOld, s, f) then CheckpointTooOld
    else if !Passes(SnapshotMissing, s, f) then SnapshotMissing
    else if !Passes(SnapshotMismatch, s, f) then SnapshotMismatch
    else if !Passes(OpenBlocks, s, f) then OpenBlocks
    else Fresh
  }

  function EvidenceVerdict(s: Ledger, f: Facts): Reason {
    if !Passes(EnvironmentUpdated, s, f) then EnvironmentUpdated
    else if !Passes(StaleWatch, s, f) then StaleWatch
    else if !Passes(LatestSample, s, f) then LatestSample
    else if !Passes(ActiveEvidence, s, f) then ActiveEvidence
    else if !Passes(StaleMemory, s, f) then StaleMemory
    else Fresh
  }

  function AuthorityVerdict(s: Ledger, f: Facts): Reason {
    if !Passes(ApprovalExpired, s, f) then ApprovalExpired
    else if !Passes(ApprovalStale, s, f) then ApprovalStale
    else if !Passes(ApprovalPending, s, f) then ApprovalPending
    else if !Passes(PermissionRevoked, s, f) then PermissionRevoked
    else if !Passes(ContractMissing, s, f) then ContractMissing
    else Fresh
  }

  function Place(r: Reason): nat {
    match r
    case CheckpointMissing => 0
    case CheckpointTooOld => 1
    case SnapshotMissing => 2
    case SnapshotMismatch => 3
    case OpenBlocks => 4
    case EnvironmentUpdated => 5
    case StaleWatch => 6
    case LatestSample => 7
    case ActiveEvidence => 8
    case StaleMemory => 9
    case ApprovalExpired => 10
    case ApprovalStale => 11
    case ApprovalPending => 12
    case PermissionRevoked => 13
    case ContractMissing => 14
    case Fresh => 15
  }

  /**
   The reason given is the check that fails while all before it pass; so the gate lets a run continue
   exactly when nothing stands against it.
   */
  lemma TheFirstFailureDecides(s: Ledger, f: Facts)
    ensures forall r :: Place(r) < Place(Verdict(s, f)) ==> Passes(r, s, f)
    ensures Verdict(s, f) != Fresh ==> !Passes(Verdict(s, f), s, f)
    ensures ActionOf(Verdict(s, f)) == Continue <==> forall r :: Passes(r, s, f)
  {
    var verdict := Verdict(s, f);
    if verdict == Fresh {
      forall r ensures Passes(r, s, f) {
        match r case _ =>
      }
    }
  }

  // ---------------------------------------------------------------- the gate

  /** `CheckpointFreshnessGate.evaluate`. */
  method Evaluate(s: Ledger, f: Facts) returns (r: Reason)
    ensures r == Verdict(s, f)
  {
    r := EvaluateCheckpoint(s, f);
    if r != Fresh {
      return;
    }
    r := EvaluateEvidence(s, f);
    if r != Fresh {
      return;
    }
    r := EvaluateAuthority(s, f);
  }

  method EvaluateCheckpoint(s: Ledger, f: Facts) returns (r: Reason)
    ensures r == CheckpointVerdict(s, f)
  {
    if f.checkpoint == None {
      return CheckpointMissing;
    }
    var checkpoint := f.checkpoint.value;
    if Seconds(s.now - checkpoint.createdAt) > f.maxAge {
      return CheckpointTooOld;
    }
    if checkpoint.snapshot !in f.snapshots {
      return SnapshotMissing;
    }
    if checkpoint.snapshot != f.runSnapshot {
      return SnapshotMismatch;
    }
    return if OpenIds(s.blocks) != [] then OpenBlocks else Fresh;
  }

  method EvaluateEvidence(s: Ledger, f: Facts) returns (r: Reason)
    ensures r == EvidenceVerdict(s, f)
  {
    var environments := CountEnvironments(f.watches);
    if environments > 0 {
      return EnvironmentUpdated;
    }
    if |f.watches| > 0 {
      return StaleWatch;
    }
    var latest, revalidate := CountEvidence(f.refs);
    if latest > 0 {
      return LatestSample;
    }
    if revalidate > 0 {
      return ActiveEvidence;
    }
    var memories := StaleMemories(f.refs, f.memories);
    return if memories != {} then StaleMemory else Fresh;
  }

  method EvaluateAuthority(s: Ledger, f: Facts) returns (r: Reason)
    ensures r == AuthorityVerdict(s, f)
  {
    var expired, stale := CountPending(f.pending, s.calls, s.now);
    if |f.pending| > 0 {
      return if expired > 0 then ApprovalExpired else if stale > 0 then ApprovalStale else ApprovalPending;
    }
    var revoked := CallsLackingPermission(s.calls, f.granted);
    if revoked != {} {
      return PermissionRevoked;
    }
    var missing := CallsLackingContract(s.calls, f.activeContracts);
    return if missing != {} then ContractMissing else Fresh;
  }

  method CountEnvironments(watches: seq<Watch>) returns (n: nat)
    ensures n == 0 <==> NoEnvironmentChanged(watches)
  {
    n := 0;
    for i := 0 to |watches|
      invariant n == 0 <==> forall j :: 0 <= j < i ==> !watches[j].environment
    {
      if watches[i].environment {
        n := n + 1;
      }
    }
  }

  method CountEvidence(refs: seq<PolicyRef>) returns (latest: nat, revalidate: nat)
    ensures latest == 0 <==> NoLatestSample(refs)
    ensures revalidate == 0 <==> NoneNeedsRevalidation(refs)
  {
    latest, revalidate := 0, 0;
    for i := 0 to |refs|
      invariant latest == 0 <==> forall j :: 0 <= j < i ==> !IsLatestSample(refs[j])
      invariant revalidate == 0 <==> forall j :: 0 <= j < i ==> !NeedsRevalidation(refs[j])
    {
      var item := refs[i];
      if !IsActive(item) {
        continue;
      }
      if item.refType == LatestExecutionSample || item.mutability == EphemeralLatest {
        latest := latest + 1;
        continue;
      }
      if item.policy == RevalidateOnResume || item.mutability == ExternalUncontrolled || item.refType == ExternalDoc {
        revalidate := revalidate + 1;
      }
    }
  }

  method StaleMemories(refs: seq<PolicyRef>, memories: map<Id, Memory>) returns (ids: set<Id>)
    ensures ids == {} <==> NoneRestsOnStaleMemory(refs, memories)
  {
    var wanted: set<Id> := {};
    for i := 0 to |refs|
      invariant forall m :: m in wanted <==>
                  exists j :: 0 <= j < i && IsRefTo(refs[j], m)
    {
      if IsActive(refs[i]) && refs[i].refType == MemoryRef && refs[i].refId.Some? {
        wanted := wanted + {refs[i].refId.value};
      }
    }
    ids := set m | m in memories && m in wanted && IsStale(memories[m]);
    assert forall m :: m in ids <==> m in memories && m in wanted && IsStale(memories[m]);
    if ids != {} {
      ghost var m := SomeMember(ids);
      ghost var j :| 0 <= j < |refs| && IsRefTo(refs[j], m);
      assert RestsOnStaleMemory(refs[j], memories);
    }
  }

  method CountPending(pending: seq<PendingApproval>, calls: map<Id, Call>, now: int) returns (expired: nat, stale: nat)
    ensures expired == 0 <==> NoneExpired(pending, now)
    ensures stale == 0 <==> AllAgree(pending, calls)
  {
    expired, stale := 0, 0;
    for i := 0 to |pending|
      invariant expired == 0 <==> forall j :: 0 <= j < i ==> !HasExpired(pending[j], now)
      invariant stale == 0 <==> forall j :: 0 <= j < i ==> Agrees(pending[j], calls)
    {
      if pending[i].expiresAt.Some? && pending[i].expiresAt.value <= now {
        expired := expired + 1;
      }
      if pending[i].call !in calls {
        stale := stale + 1;
        continue;
      }
      var terms := calls[pending[i].call].terms;
      var scope := if terms.scope.Some? then terms.scope.value else terms.input;
      if pending[i].input != terms.input || pending[i].snapshot != terms.snapshot || pending[i].scope != scope
         || Some(pending[i].lineage) != terms.lineage || pending[i].epoch != terms.epoch {
        stale := stale + 1;
      }
    }
  }

  method CallsLackingPermission(calls: map<Id, Call>, granted: Option<set<Id>>) returns (ids: set<Id>)
    ensures ids == {} <==> NoneLacksPermission(calls, granted)
  {
    if granted == None {
      return {};
    }
    ids := set c | c in calls && LacksPermission(calls[c], granted);
    assert forall c :: c in ids <==> c in calls && LacksPermission(calls[c], granted);
    if ids != {} {
      ghost var c := SomeMember(ids);
      assert LacksPermission(calls[c], granted);
    }
  }

  method CallsLackingContract(calls: map<Id, Call>, active: set<Contract>) returns (ids: set<Id>)
    ensures ids == {} <==> NoneLacksContract(calls, active)
  {
    ids := set c | c in calls && LacksContract(calls[c], active);
    assert forall c :: c in ids <==> c in calls && LacksContract(calls[c], active);
    if ids != {} {
      ghost var c := SomeMember(ids);
      assert LacksContract(calls[c], active);
    }
  }
}
