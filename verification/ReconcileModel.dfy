/**
 The ledger of one run: its tool calls, migration blocks, reconcile attempts and queue items, and
 what settling an uncertain call makes of them.

 Times are in milliseconds.  The attempts of a call are kept in the order they were made.
 */
module ReconcileModel {
  import opened Wrappers
  import opened ToolCalls
  import opened Listings

  type Id = int

  datatype Effect = NoEffect | SendIntentRecorded | TransportSentObserved | BackendAccepted | EffectCommitted

  datatype Capability = NoCapability | ReceiptFirst | IdempotencyIndexOnly | LegacyNoReceipt

  datatype Contract = Contract(backend: Id, operation: Id, version: Id)

  datatype Recovery =
    | NoRecovery | LegacyManual | MarkSucceeded | StillRunning | SafeRetrySameKey | ReconcileBackoff
    | AcceptedNotFound | CommittedNotFound | NotFoundManual | IdempotencyConflict | MarkFailed | MigrationRequired
    | ReconcileAfterMigration | ResumeRetrySameKey

  datatype CallError =
    | ReconcileNotSupported | ContractUnsupported | NotFoundAfterCommit | ReconcileNotFound | Conflict
    | BackendFailed | UnsupportedSchema | AdapterMissing | OtherError(code: Id)

  datatype Call = Call(
    step: int, attempt: int, idempotencyKey: Id, status: CallStatus, effect: Effect, capability: Capability,
    safe: bool, contract: Option<Contract>, permissions: seq<Id>, approvalRequired: bool, approved: bool,
    output: Option<Id>, recovery: Recovery, error: Option<CallError>, terms: Terms)

  /** What an approval of the call has to agree with. */
  datatype Terms = Terms(input: Id, snapshot: Id, scope: Option<Id>, lineage: Option<Id>, epoch: int)

  datatype BlockStatus = Open | Resolved

  datatype Block = Block(call: Id, status: BlockStatus)

  datatype ReplyStatus = FoundSucceeded | FoundRunning | FoundFailed | NotFound | FoundConflict | UnsupportedVersion

  /** `at` is when the attempt was made. */
  datatype Attempt = Attempt(number: int, result: ReplyStatus, at: int, nextRetry: Option<int>)

  datatype RunStatus = QueuedRun | Running | Paused | Completed | FailedRun | Cancelled | MigrationBlocked | NeedsHuman

  predicate IsTerminal(s: RunStatus) {
    s in {Completed, FailedRun, Cancelled}
  }

  datatype Action =
    | Continue | Replan | MigrationBlock | RevalidateBeforeSideEffect | FetchEvidence | MaterializeEvidence
    | RefreshApproval | RefreshPermissions

  datatype RunError = ActionNeeded(action: Action) | StaleCheckpoint

  datatype RunRow = RunRow(
    status: RunStatus, blockCount: nat, blocking: seq<Id>, error: Option<RunError>, iteration: int, stepIndex: int)

  datatype QueueItem = QueueItem(call: Id, status: QueueStatus)

  datatype Event =
    | ToolFailed(call: Id) | ToolReconciled(call: Id) | ToolUncertain(call: Id) | ToolRetryable(call: Id)
    | ToolNeedsMigration(call: Id) | RunBlocked(call: Id) | FreshnessChecked(action: Action) | RunResolved(status: RunStatus)
    | RunPaused(action: Action) | RunResumed(scheduled: seq<Id>, executed: seq<Id>) | ResultObserved(call: Id)

  datatype Ledger = Ledger(
    run: RunRow, calls: map<Id, Call>, blocks: seq<Block>, attempts: map<Id, seq<Attempt>>, queue: seq<QueueItem>,
    events: seq<Event>, now: int)

  /** What a backend says about a call, how long it took to say it, and how long its answer took to be booked. */
  datatype Reply = Reply(status: ReplyStatus, error: Option<CallError>, output: Id, delay: nat, lag: nat)

  /** The contracts on record, the replies of the adapters there are, and the pause between attempts. */
  datatype Backends = Backends(registered: set<Contract>, replies: map<Id, Reply>, backoff: int)

  // ---------------------------------------------------------------- migration blocks

  function OpenIds(blocks: seq<Block>): seq<Id> {
    if blocks == [] then []
    else
      var front, last := OpenIds(blocks[..|blocks| - 1]), blocks[|blocks| - 1];
      if last.status == Open then front + [last.call] else front
  }

  predicate HasOpenBlock(blocks: seq<Block>, c: Id) {
    exists i :: 0 <= i < |blocks| && blocks[i] == Block(c, Open)
  }

  function Refreshed(run: RunRow, blocks: seq<Block>): RunRow {
    var ids := OpenIds(blocks);
    run.(blockCount := |ids|, blocking := ids, status := if ids != [] then MigrationBlocked else run.status)
  }

  function Blocked(s: Ledger, c: Id): Ledger {
    var blocks := if HasOpenBlock(s.blocks, c) then s.blocks else s.blocks + [Block(c, Open)];
    s.(blocks := blocks, run := Refreshed(s.run, blocks))
  }

  // ---------------------------------------------------------------- attempts

  function Rows(s: Ledger, c: Id): seq<Attempt> {
    if c in s.attempts then s.attempts[c] else []
  }

  /** `max(attempt_seq) or 0`. */
  function MaxNumber(rows: seq<Attempt>): int {
    if rows == [] then 0
    else if |rows| == 1 then rows[0].number
    else
      var front, last := MaxNumber(rows[..|rows| - 1]), rows[|rows| - 1].number;
      if front < last then last else front
  }

  /** The place of the attempt with the highest number, or -1. */
  function LatestAt(rows: seq<Attempt>): (i: int)
    ensures -1 <= i < |rows|
    ensures rows != [] ==> i >= 0
  {
    if rows == [] then -1
    else
      var front := LatestAt(rows[..|rows| - 1]);
      if front >= 0 && rows[|rows| - 1].number <= rows[front].number then front else |rows| - 1
  }

  function Recorded(s: Ledger, c: Id, result: ReplyStatus, nextRetry: Option<int>): Ledger {
    s.(attempts := s.attempts[c := Rows(s, c) + [Attempt(MaxNumber(Rows(s, c)) + 1, result, s.now, nextRetry)]])
  }

  // ---------------------------------------------------------------- settling a call

  predicate IsEligible(status: CallStatus) {
    status == Uncertain || status == Reconciling
  }

  predicate BacksOff(call: Call) {
    call.effect == TransportSentObserved && (call.capability == ReceiptFirst || call.capability == IdempotencyIndexOnly)
  }

  /** What a reply makes of a call. */
  function Answered(call: Call, reply: Reply): Call {
    match reply.status
    case FoundSucceeded =>
      call.(status := Succeeded, effect := EffectCommitted, output := Some(reply.output), recovery := MarkSucceeded, error := None)
    case FoundRunning => call.(status := Reconciling, recovery := StillRunning)
    case FoundFailed => call.(status := Failed, recovery := MarkFailed, error := Some(Code(reply, BackendFailed)))
    case FoundConflict =>
      call.(status := ManualIntervention, recovery := IdempotencyConflict, error := Some(Code(reply, Conflict)))
    case UnsupportedVersion =>
      call.(status := NeedsMigration, recovery := MigrationRequired, error := Some(Code(reply, UnsupportedSchema)))
    case NotFound =>
      if call.effect == SendIntentRecorded then call.(status := FailedRetryable, recovery := SafeRetrySameKey)
      else if BacksOff(call) then call.(status := Uncertain, recovery := ReconcileBackoff)
      else if call.effect == BackendAccepted then
        call.(status := ManualIntervention, recovery := AcceptedNotFound, error := Some(NotFoundAfterCommit))
      else if call.effect == EffectCommitted then
        call.(status := ManualIntervention, recovery := CommittedNotFound, error := Some(NotFoundAfterCommit))
      else call.(status := ManualIntervention, recovery := NotFoundManual, error := Some(ReconcileNotFound))
  }

  function Code(reply: Reply, default: CallError): CallError {
    if reply.error.Some? then reply.error.value else default
  }

  /** When the call may be asked about again, if the reply leaves that open. */
  function RetryAt(call: Call, reply: Reply, now: int, backoff: int): Option<int> {
    match reply.status
    case FoundRunning => Some(now + backoff)
    case NotFound =>
      if call.effect == SendIntentRecorded then Some(now)
      else if BacksOff(call) then Some(now + backoff)
      else None
    case _ => None
  }

  function EventsOf(c: Id, status: CallStatus): seq<Event> {
    match status
    case Succeeded => [ToolReconciled(c)]
    case Reconciling => [ToolUncertain(c)]
    case Uncertain => [ToolUncertain(c)]
    case FailedRetryable => [ToolRetryable(c)]
    case NeedsMigration => [ToolNeedsMigration(c), RunBlocked(c)]
    case _ => [ToolFailed(c)]
  }

  /** A call is written back and what happened to it is put on record. */
  function Booked(s: Ledger, c: Id, call: Call): Ledger {
    var t := s.(calls := s.calls[c := call]);
    (if call.status == NeedsMigration then Blocked(t, c) else t).(events := s.events + EventsOf(c, call.status))
  }

  function ReplyFor(b: Backends, c: Id): Reply {
    if c in b.replies then b.replies[c] else Reply(UnsupportedVersion, Some(AdapterMissing), 0, 0, 0)
  }

  predicate HasContract(call: Call, b: Backends) {
    call.contract.Some? && call.contract.value in b.registered
  }

  /** The attempt on record, with the time that took. */
  function Asked(s: Ledger, c: Id, b: Backends): Ledger
    requires c in s.calls
  {
    var reply := ReplyFor(b, c);
    var asked := s.now + reply.delay;
    var booked := asked + reply.lag;
    Recorded(s.(now := asked), c, reply.status, RetryAt(s.calls[c], reply, booked, b.backoff)).(now := booked)
  }

  /** `reconcile_tool_call`. */
  function Reconciled(s: Ledger, c: Id, b: Backends): Ledger {
    if c !in s.calls || !IsEligible(s.calls[c].status) then s
    else
      var call := s.calls[c];
      if call.capability == LegacyNoReceipt && !call.safe then
        Booked(s, c, call.(status := ManualIntervention, recovery := LegacyManual, error := Some(ReconcileNotSupported)))
      else if !HasContract(call, b) then
        Booked(Recorded(s, c, UnsupportedVersion, None), c,
               call.(status := NeedsMigration, recovery := MigrationRequired, error := Some(ContractUnsupported)))
      else Booked(Asked(s, c, b), c, Answered(call, ReplyFor(b, c)))
  }

  // ---------------------------------------------------------------- a pass over the run

  /** `order by step_index, attempt_index` over the calls whose status is one of `statuses`. */
  function Ranks(calls: map<Id, Call>, statuses: set<CallStatus>): map<Id, Rank> {
    map c | c in calls && calls[c].status in statuses :: (calls[c].step, calls[c].attempt)
  }

  /** The latest attempt asks to wait longer. */
  predicate IsThrottled(s: Ledger, c: Id, now: int) {
    var rows := Rows(s, c);
    rows != [] && rows[LatestAt(rows)].nextRetry.Some? && rows[LatestAt(rows)].nextRetry.value > now
  }

  /** The calls in `q` that are not throttled, in order. */
  function DueCalls(s: Ledger, q: seq<Id>, now: int): seq<Id> {
    if q == [] then []
    else
      var front, last := DueCalls(s, q[..|q| - 1], now), q[|q| - 1];
      if IsThrottled(s, last, now) then front else front + [last]
  }

  /** The calls in `q` that are, in order. */
  function HeldBack(s: Ledger, q: seq<Id>, now: int): seq<Id> {
    if q == [] then []
    else
      var front, last := HeldBack(s, q[..|q| - 1], now), q[|q| - 1];
      if IsThrottled(s, last, now) then front + [last] else front
  }

  function ReconcileAll(s: Ledger, q: seq<Id>, b: Backends): Ledger {
    if q == [] then s else Reconciled(ReconcileAll(s, q[..|q| - 1], b), q[|q| - 1], b)
  }

  /** `reconcile_run`, with the eligible calls listed in `q`. */
  function AfterReconcileRun(s: Ledger, q: seq<Id>, b: Backends): Ledger {
    if IsTerminal(s.run.status) then s else ReconcileAll(s, DueCalls(s, q, s.now), b)
  }

  /** How many of the calls in `q` have one of the statuses. */
  function CountIn(calls: map<Id, Call>, q: seq<Id>, statuses: set<CallStatus>): nat {
    if q == [] then 0
    else
      CountIn(calls, q[..|q| - 1], statuses)
      + if q[|q| - 1] in calls && calls[q[|q| - 1]].status in statuses then 1 else 0
  }
}
