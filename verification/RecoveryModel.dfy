/** Taking a run up again: resolving its migration blocks and resuming it. */
module RecoveryModel {
  import opened Wrappers
  import opened ToolCalls
  import opened Listings
  import opened ReconcileModel
  import opened Freshness

  // ---------------------------------------------------------------- resolving a block

  function Unblocked(s: Ledger, b: nat): Ledger
    requires b < |s.blocks|
  {
    var blocks := s.blocks[b := s.blocks[b].(status := Resolved)];
    var c := blocks[b].call;
    var calls :=
      if c in s.calls && s.calls[c].status == NeedsMigration
      then s.calls[c := s.calls[c].(status := Reconciling, recovery := ReconcileAfterMigration, error := None)]
      else s.calls;
    s.(blocks := blocks, calls := calls, run := Refreshed(s.run, blocks))
  }

  function AfterResolve(s: Ledger, b: int, f: Facts): Ledger {
    if !(0 <= b < |s.blocks|) || s.blocks[b].status == Resolved then s
    else
      var u := Unblocked(s, b);
      var action := ActionOf(Verdict(u, f));
      var run :=
        if u.run.blockCount > 0 then u.run
        else if action == Continue then u.run.(status := Running, error := None)
        else u.run.(status := Paused, error := Some(ActionNeeded(action)));
      u.(run := run, events := s.events + [FreshnessChecked(action), RunResolved(run.status)])
  }

  // ---------------------------------------------------------------- resuming

  datatype Ending = EndsSucceeded | EndsFailed | EndsManual | EndsUncertain

  /** What the tool executor, which is outside, made of a call. */
  datatype Outcome = Outcome(ending: Ending, effect: Effect, output: Option<Id>, error: Option<CallError>)

  function StatusOf(e: Ending): CallStatus {
    match e case EndsSucceeded => Succeeded case EndsFailed => Failed case EndsManual => ManualIntervention case EndsUncertain => Uncertain
  }

  function OutcomeFor(outcomes: map<Id, Outcome>, c: Id): Outcome {
    if c in outcomes then outcomes[c] else Outcome(EndsManual, NoEffect, None, None)
  }

  /** The newest item of a call that is waiting, or -1. */
  function WaitingItem(queue: seq<QueueItem>, c: Id): (i: int)
    ensures -1 <= i < |queue|
    ensures i >= 0 ==> queue[i].call == c && queue[i].status in {Queued, BlockedApproval, FailedItem}
    ensures forall j :: i < j < |queue| && queue[j].call == c ==> queue[j].status !in {Queued, BlockedApproval, FailedItem}
  {
    if queue == [] then -1
    else if queue[|queue| - 1].call == c && queue[|queue| - 1].status in {Queued, BlockedApproval, FailedItem} then |queue| - 1
    else WaitingItem(queue[..|queue| - 1], c)
  }

  predicate IsActiveItem(item: QueueItem, c: Id) {
    item.call == c && item.status in {Queued, LeasedItem}
  }

  predicate HasActiveItem(queue: seq<QueueItem>, c: Id) {
    exists i :: 0 <= i < |queue| && IsActiveItem(queue[i], c)
  }

  predicate MayExecute(call: Call) {
    call.approvalRequired && call.approved && call.status == Planned
  }

  /** What the executor leaves behind: the call, and the item it was waiting in. */
  function Executed(s: Ledger, c: Id, o: Outcome): Ledger
    requires c in s.calls
  {
    var i := WaitingItem(s.queue, c);
    s.(calls := s.calls[c := s.calls[c].(status := StatusOf(o.ending), effect := o.effect, output := o.output, error := o.error)],
       queue := if i < 0 then s.queue
                else s.queue[i := QueueItem(c, if o.ending == EndsSucceeded then CompletedItem else FailedItem)])
  }

  function Observed(s: Ledger, c: Id): Ledger
    requires c in s.calls
  {
    var step := s.calls[c].step + 1;
    s.(run := s.run.(iteration := s.run.iteration + 1, stepIndex := if s.run.stepIndex < step then step else s.run.stepIndex),
       events := s.events + [ResultObserved(c)])
  }

  /** A ledger and the calls taken up so far. */
  datatype Progress = Progress(ledger: Ledger, done: seq<Id>)

  function ExecuteOne(p: Progress, c: Id, outcomes: map<Id, Outcome>): Progress {
    var s := p.ledger;
    if c !in s.calls then p
    else if s.calls[c].status == Succeeded then Progress(s, p.done + [c])
    else if !MayExecute(s.calls[c]) then p
    else
      var t := Executed(s, c, OutcomeFor(outcomes, c));
      if t.calls[c].status == Succeeded then Progress(Observed(t, c), p.done + [c]) else Progress(t, p.done)
  }

  function ExecuteAll(s: Ledger, q: seq<Id>, outcomes: map<Id, Outcome>): Progress {
    if q == [] then Progress(s, []) else ExecuteOne(ExecuteAll(s, q[..|q| - 1], outcomes), q[|q| - 1], outcomes)
  }

  function ScheduleOne(p: Progress, c: Id): Progress {
    var s := p.ledger;
    if c !in s.calls || HasActiveItem(s.queue, c) then p
    else
      Progress(s.(calls := s.calls[c := s.calls[c].(status := Planned, recovery := ResumeRetrySameKey)],
                  queue := s.queue + [QueueItem(c, Queued)]),
               p.done + [c])
  }

  function ScheduleAll(s: Ledger, q: seq<Id>): Progress {
    if q == [] then Progress(s, []) else ScheduleOne(ScheduleAll(s, q[..|q| - 1]), q[|q| - 1])
  }

  /** The blocking calls that have not succeeded, or do not exist. */
  function Remaining(calls: map<Id, Call>, ids: seq<Id>): seq<Id> {
    if ids == [] then []
    else
      var front, last := Remaining(calls, ids[..|ids| - 1]), ids[|ids| - 1];
      if last in calls && calls[last].status == Succeeded then front else front + [last]
  }

  function BlockingRanks(s: Ledger): map<Id, Rank> {
    map c | c in s.calls && c in s.run.blocking :: (s.calls[c].step, s.calls[c].attempt)
  }

  function RetryableRanks(s: Ledger): map<Id, Rank> {
    Ranks(s.calls, {FailedRetryable})
  }

  /** A run that ended, has open blocks or rests on something stale is not resumed. */
  datatype Refusal = Ended | HasBlocks | IsStale(reason: Reason)

  function RefusalOf(s: Ledger, f: Facts): Option<Refusal> {
    if IsTerminal(s.run.status) then Some(Ended)
    else if OpenIds(s.blocks) != [] then Some(HasBlocks)
    else if ActionOf(Verdict(s, f)) != Continue then Some(IsStale(Verdict(s, f)))
    else None
  }

  function Checked(s: Ledger, action: Action): Ledger {
    s.(events := s.events + [FreshnessChecked(action)])
  }

  function AfterRefusal(s: Ledger, refusal: Refusal): Ledger {
    match refusal
    case Ended => s
    case HasBlocks => s
    case IsStale(reason) =>
      var action := ActionOf(reason);
      var error := if action == Replan then StaleCheckpoint else ActionNeeded(action);
      s.(run := s.run.(status := Paused, error := Some(error)),
         events := s.events + [FreshnessChecked(action), RunPaused(action)])
  }

  /** The approved blocking calls in `blocking` are executed, then the retryable calls in `retryable` queued again. */
  function AfterResume(s: Ledger, f: Facts, blocking: seq<Id>, retryable: seq<Id>, outcomes: map<Id, Outcome>): Ledger {
    var refusal := RefusalOf(s, f);
    if refusal.Some? then AfterRefusal(s, refusal.value)
    else
      var executed := ExecuteAll(Checked(s, Continue), blocking, outcomes);
      Settled(ScheduleAll(executed.ledger, retryable), executed.done)
  }

  function Settled(scheduled: Progress, executed: seq<Id>): Ledger {
    var t := scheduled.ledger;
    var remaining := Remaining(t.calls, t.run.blocking);
    t.(run := t.run.(blocking := remaining, status := if remaining == [] then Running else NeedsHuman, error := None),
       events := t.events + [RunResumed(scheduled.done, executed)])
  }

  /** The two lists are the ones the queries give. */
  ghost predicate AreResumeListings(s: Ledger, blocking: seq<Id>, retryable: seq<Id>, outcomes: map<Id, Outcome>) {
    && IsListing(blocking, BlockingRanks(s))
    && IsListing(retryable, RetryableRanks(ExecuteAll(Checked(s, Continue), blocking, outcomes).ledger))
  }

  // ---------------------------------------------------------------- claiming

  /** `claim_next`, for the queued item `i`: held back, failed or leased. */
  function Claimed(s: Ledger, i: nat): Ledger
    requires i < |s.queue|
  {
    var c := s.queue[i].call;
    if c in s.calls && s.calls[c].approvalRequired && !s.calls[c].approved then
      s.(queue := s.queue[i := QueueItem(c, BlockedApproval)], calls := s.calls[c := s.calls[c].(status := Planned)])
    else if c in s.calls && IsEligible(s.calls[c].status) then s.(queue := s.queue[i := QueueItem(c, FailedItem)])
    else
      s.(queue := s.queue[i := QueueItem(c, LeasedItem)],
         calls := if c in s.calls then s.calls[c := s.calls[c].(status := Leased)] else s.calls)
  }
}
