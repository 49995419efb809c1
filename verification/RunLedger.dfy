/** The rows of a run as mutable state, and the services that settle and resume it. */
module RunLedger {
  import opened Wrappers
  import opened ToolCalls
  import opened Listings
  import opened ReconcileModel
  import opened Freshness
  import opened RecoveryModel

  class AgentRunLedger {
    var run: RunRow
    var calls: map<Id, Call>
    var blocks: seq<Block>
    var attempts: map<Id, seq<Attempt>>
    var queue: seq<QueueItem>
    var events: seq<Event>
    var now: int

    constructor (run: RunRow, now: int)
      ensures State() == Ledger(run, map[], [], map[], [], [], now)
    {
      this.run, this.now := run, now;
      calls, blocks, attempts, queue, events := map[], [], map[], [], [];
    }

    function State(): Ledger
      reads this
    {
      Ledger(run, calls, blocks, attempts, queue, events, now)
    }

    method AppendEvent(e: Event)
      modifies this`events
      ensures events == old(events) + [e]
    {
      events := events + [e];
    }

    /** `AgentWorkerQueueService.enqueue_tool_call`. */
    method Enqueue(c: Id)
      modifies this`queue
      ensures queue == old(queue) + [QueueItem(c, Queued)]
    {
      queue := queue + [QueueItem(c, Queued)];
    }
  }

  class MigrationCoordinator {
    const ledger: AgentRunLedger

    constructor (ledger: AgentRunLedger)
      ensures this.ledger == ledger
    {
      this.ledger := ledger;
    }

    method CreateToolCallBlock(c: Id)
      modifies ledger`blocks, ledger`run
      ensures ledger.State() == Blocked(old(ledger.State()), c)
    {
      var existing := false;
      for i := 0 to |ledger.blocks|
        invariant existing <==> exists j :: 0 <= j < i && ledger.blocks[j] == Block(c, Open)
        invariant ledger.State() == old(ledger.State())
      {
        if ledger.blocks[i].call == c && ledger.blocks[i].status == Open {
          existing := true;
        }
      }
      if !existing {
        ledger.blocks := ledger.blocks + [Block(c, Open)];
      }
      RefreshRunBlockState();
    }

    method RefreshRunBlockState()
      modifies ledger`run
      ensures ledger.run == Refreshed(old(ledger.run), ledger.blocks)
    {
      var ids: seq<Id> := [];
      for i := 0 to |ledger.blocks|
        invariant ids == OpenIds(ledger.blocks[..i])
        invariant ledger.run == old(ledger.run)
      {
        assert ledger.blocks[..i + 1][..i] == ledger.blocks[..i];
        if ledger.blocks[i].status == Open {
          ids := ids + [ledger.blocks[i].call];
        }
      }
      assert ledger.blocks[..|ledger.blocks|] == ledger.blocks;
      ledger.run := ledger.run.(blockCount := |ids|);
      ledger.run := ledger.run.(blocking := ids);
      if ids != [] {
        ledger.run := ledger.run.(status := MigrationBlocked);
      }
    }

    /** The reason the freshness gate gave, unless the block is unknown. */
    method ResolveBlock(b: int, f: Facts) returns (freshness: Option<Reason>)
      modifies ledger
      ensures ledger.State() == AfterResolve(old(ledger.State()), b, f)
      ensures freshness.Some? <==> 0 <= b < |old(ledger.blocks)|
    {
      if !(0 <= b < |ledger.blocks|) {
        return None;
      }
      if ledger.blocks[b].status == Resolved {
        var reason := Evaluate(ledger.State(), f);
        return Some(reason);
      }
      Unblock(b);
      var reason := Evaluate(ledger.State(), f);
      var action := ActionOf(reason);
      if ledger.run.blockCount == 0 {
        if action == Continue {
          ledger.run := ledger.run.(status := Running, error := None);
        } else {
          ledger.run := ledger.run.(status := Paused, error := Some(ActionNeeded(action)));
        }
      }
      ledger.AppendEvent(FreshnessChecked(action));
      ledger.AppendEvent(RunResolved(ledger.run.status));
      return Some(reason);
    }

    method Unblock(b: nat)
      requires b < |ledger.blocks|
      modifies ledger`blocks, ledger`calls, ledger`run
      ensures ledger.State() == Unblocked(old(ledger.State()), b)
    {
      ledger.blocks := ledger.blocks[b := ledger.blocks[b].(status := Resolved)];
      var c := ledger.blocks[b].call;
      if c in ledger.calls && ledger.calls[c].status == NeedsMigration {
        var call := ledger.calls[c];
        call := call.(status := Reconciling);
        call := call.(recovery := ReconcileAfterMigration);
        call := call.(error := None);
        ledger.calls := ledger.calls[c := call];
      }
      RefreshRunBlockState();
    }
  }

  /** What a pass over the run reports. */
  datatype Summary = Summary(
    processed: seq<Id>, skipped: seq<Id>, reconciled: nat, stillUncertain: nat, needsMigration: nat, manual: nat)

  class ReconcileWorker {
    const ledger: AgentRunLedger
    const coordinator: MigrationCoordinator
    const backends: Backends

    constructor (ledger: AgentRunLedger, backends: Backends)
      ensures this.ledger == ledger && this.backends == backends && coordinator.ledger == ledger
    {
      this.ledger, this.backends := ledger, backends;
      coordinator := new MigrationCoordinator(ledger);
    }

    method ReconcileRun() returns (summary: Summary)
      requires coordinator.ledger == ledger
      modifies ledger
      ensures exists q ::
                && IsListing(q, Ranks(old(ledger.calls), {Uncertain, Reconciling}))
                && ledger.State() == AfterReconcileRun(old(ledger.State()), q, backends)
                && IsSummary(old(ledger.State()), ledger.State(), q, summary)
    {
      ghost var s := ledger.State();
      var q := Listing(Ranks(ledger.calls, {Uncertain, Reconciling}));
      if IsTerminal(ledger.run.status) {
        summary := Summary([], [], 0, 0, 0, 0);
        return;
      }
      var due, skipped := SplitDue(q, ledger.now);
      for i := 0 to |due|
        invariant ledger.State() == ReconcileAll(s, due[..i], backends)
      {
        assert due[..i + 1][..i] == due[..i];
        ReconcileToolCall(due[i]);
      }
      assert due[..|due|] == due;
      var reconciled := CountStatus(due, {Succeeded});
      var uncertain := CountStatus(due, {Uncertain, Reconciling});
      var migrating := CountStatus(due, {NeedsMigration});
      var manual := CountStatus(due, {ManualIntervention});
      summary := Summary(due, skipped, reconciled, uncertain, migrating, manual);
    }

    /** The calls that are due, and the ones the backoff holds back. */
    method SplitDue(q: seq<Id>, now: int) returns (due: seq<Id>, skipped: seq<Id>)
      ensures due == DueCalls(ledger.State(), q, now)
      ensures skipped == HeldBack(ledger.State(), q, now)
      ensures |due| + |skipped| == |q|
    {
      due, skipped := [], [];
      for i := 0 to |q|
        invariant due == DueCalls(ledger.State(), q[..i], now)
        invariant skipped == HeldBack(ledger.State(), q[..i], now)
        invariant |due| + |skipped| == i
      {
        assert q[..i + 1][..i] == q[..i];
        var rows := Rows(ledger.State(), q[i]);
        var latest := LatestAttempt(rows);
        if latest >= 0 && rows[latest].nextRetry.Some? && rows[latest].nextRetry.value > now {
          skipped := skipped + [q[i]];
          continue;
        }
        due := due + [q[i]];
      }
      assert q[..|q|] == q;
    }

    method LatestAttempt(rows: seq<Attempt>) returns (latest: int)
      ensures latest == LatestAt(rows)
    {
      latest := -1;
      for i := 0 to |rows|
        invariant latest == LatestAt(rows[..i])
      {
        assert rows[..i + 1][..i] == rows[..i];
        if latest < 0 || rows[i].number > rows[latest].number {
          latest := i;
        }
      }
      assert rows[..|rows|] == rows;
    }

    method CountStatus(q: seq<Id>, statuses: set<CallStatus>) returns (n: nat)
      ensures n == CountIn(ledger.calls, q, statuses)
    {
      n := 0;
      for i := 0 to |q|
        invariant n == CountIn(ledger.calls, q[..i], statuses)
      {
        assert q[..i + 1][..i] == q[..i];
        if q[i] in ledger.calls && ledger.calls[q[i]].status in statuses {
          n := n + 1;
        }
      }
      assert q[..|q|] == q;
    }

    method ReconcileToolCall(c: Id)
      requires coordinator.ledger == ledger
      modifies ledger
      ensures ledger.State() == Reconciled(old(ledger.State()), c, backends)
    {
      if c !in ledger.calls || !(ledger.calls[c].status == Uncertain || ledger.calls[c].status == Reconciling) {
        return;
      }
      var call := ledger.calls[c];
      if call.capability == LegacyNoReceipt && !call.safe {
        call := call.(status := ManualIntervention);
        call := call.(recovery := LegacyManual);
        call := call.(error := Some(ReconcileNotSupported));
        WriteBack(c, call, ToolFailed(c));
        return;
      }
      if call.contract == None || call.contract.value !in backends.registered {
        MarkNeedsMigration(c, ContractUnsupported, true);
        return;
      }
      Ask(c, call);
    }

    method Ask(c: Id, call: Call)
      requires coordinator.ledger == ledger && c in ledger.calls && ledger.calls[c] == call
      modifies ledger
      ensures ledger.State() == Booked(Asked(old(ledger.State()), c, backends), c, Answered(call, ReplyFor(backends, c)))
    {
      ghost var s := ledger.State();
      ledger.calls := ledger.calls[c := call.(status := Reconciling)];
      var reply := AskBackend(c);
      RecordAttempt(c, reply.status);
      ledger.now := ledger.now + reply.lag;
      assert ledger.State() == AskedSoFar(s, c, backends).(calls := s.calls[c := call.(status := Reconciling)]);
      AskedInSteps(s, c, backends, call.(status := Reconciling), Answered(call, reply));
      Settle(c, call, reply);
    }

    /** The branch a reply leads to, once the attempt is on record. */
    method Settle(c: Id, call: Call, reply: Reply)
      requires coordinator.ledger == ledger
      requires c in ledger.calls && ledger.calls[c] == call.(status := Reconciling)
      requires c in ledger.attempts && ledger.attempts[c] != [] && ledger.attempts[c][|ledger.attempts[c]| - 1].nextRetry == None
      modifies ledger
      ensures ledger.State() ==
                Booked(Throttled(old(ledger.State()), c, RetryAt(call, reply, old(ledger.now), backends.backoff)), c, Answered(call, reply))
    {
      if reply.status == UnsupportedVersion {
        LastUnchanged(ledger.attempts, c);
        MarkNeedsMigration(c, if reply.error.Some? then reply.error.value else UnsupportedSchema, false);
        return;
      }
      var settled, event := Decide(c, call, reply);
      WriteBack(c, settled, event);
    }

    /** What the call becomes, and when it may be asked about again. */
    method Decide(c: Id, call: Call, reply: Reply) returns (settled: Call, event: Event)
      requires c in ledger.attempts && ledger.attempts[c] != [] && ledger.attempts[c][|ledger.attempts[c]| - 1].nextRetry == None
      requires reply.status != UnsupportedVersion
      modifies ledger`attempts
      ensures settled == Answered(call, reply) && EventsOf(c, settled.status) == [event]
      ensures ledger.State() == Throttled(old(ledger.State()), c, RetryAt(call, reply, ledger.now, backends.backoff))
    {
      LastUnchanged(ledger.attempts, c);
      settled, event := call, ToolFailed(c);
      match reply.status {
        case FoundSucceeded =>
          settled := settled.(status := Succeeded);
          settled := settled.(effect := EffectCommitted);
          settled := settled.(output := Some(reply.output));
          settled := settled.(error := None);
          settled := settled.(recovery := MarkSucceeded);
          event := ToolReconciled(c);
        case FoundRunning =>
          settled := settled.(status := Reconciling);
          settled := settled.(recovery := StillRunning);
          SetNextRetry(c, ledger.now + backends.backoff);
          event := ToolUncertain(c);
        case NotFound =>
          settled, event := HandleNotFound(c, call, reply);
        case FoundConflict =>
          settled := settled.(status := ManualIntervention);
          settled := settled.(recovery := IdempotencyConflict);
          settled := settled.(error := Some(if reply.error.Some? then reply.error.value else Conflict));
        case FoundFailed =>
          settled := settled.(status := Failed);
          settled := settled.(recovery := MarkFailed);
          settled := settled.(error := Some(if reply.error.Some? then reply.error.value else BackendFailed));
      }
    }

    method WriteBack(c: Id, call: Call, event: Event)
      requires call.status != NeedsMigration && EventsOf(c, call.status) == [event]
      modifies ledger`calls, ledger`events
      ensures ledger.State() == Booked(old(ledger.State()), c, call)
    {
      ledger.calls := ledger.calls[c := call];
      ledger.AppendEvent(event);
    }

    /** The reply of the adapter of the call's backend; without an adapter its schema is unsupported. */
    method AskBackend(c: Id) returns (reply: Reply)
      modifies ledger`now
      ensures reply == ReplyFor(backends, c) && ledger.now == old(ledger.now) + reply.delay
    {
      reply := if c in backends.replies then backends.replies[c] else Reply(UnsupportedVersion, Some(AdapterMissing), 0, 0, 0);
      ledger.now := ledger.now + reply.delay;
    }

    method RecordAttempt(c: Id, result: ReplyStatus)
      modifies ledger`attempts
      ensures ledger.State() == Recorded(old(ledger.State()), c, result, None)
    {
      var rows := Rows(ledger.State(), c);
      var last := 0;
      for i := 0 to |rows|
        invariant last == MaxNumber(rows[..i])
      {
        assert rows[..i + 1][..i] == rows[..i];
        last := if i == 0 || last < rows[i].number then rows[i].number else last;
      }
      assert rows[..|rows|] == rows;
      ledger.attempts := ledger.attempts[c := rows + [Attempt(last + 1, result, ledger.now, None)]];
    }

    method SetNextRetry(c: Id, at: int)
      requires c in ledger.attempts && ledger.attempts[c] != []
      modifies ledger`attempts
      ensures ledger.State() == Throttled(old(ledger.State()), c, Some(at))
    {
      var rows := ledger.attempts[c];
      ledger.attempts := ledger.attempts[c := rows[|rows| - 1 := rows[|rows| - 1].(nextRetry := Some(at))]];
    }

    method HandleNotFound(c: Id, call: Call, reply: Reply) returns (settled: Call, event: Event)
      requires c in ledger.attempts && ledger.attempts[c] != [] && reply.status == NotFound
      requires ledger.attempts[c][|ledger.attempts[c]| - 1].nextRetry == None
      modifies ledger`attempts
      ensures settled == Answered(call, reply) && EventsOf(c, settled.status) == [event]
      ensures ledger.State() == Throttled(old(ledger.State()), c, RetryAt(call, reply, ledger.now, backends.backoff))
    {
      LastUnchanged(ledger.attempts, c);
      if call.effect == SendIntentRecorded {
        SetNextRetry(c, ledger.now);
        return call.(status := FailedRetryable, recovery := SafeRetrySameKey), ToolRetryable(c);
      }
      if call.effect == TransportSentObserved && (call.capability == ReceiptFirst || call.capability == IdempotencyIndexOnly) {
        SetNextRetry(c, ledger.now + backends.backoff);
        return call.(status := Uncertain, recovery := ReconcileBackoff), ToolUncertain(c);
      }
      settled := call.(status := ManualIntervention, recovery := NotFoundManual, error := Some(ReconcileNotFound));
      if call.effect == BackendAccepted || call.effect == EffectCommitted {
        var incident := if call.effect == BackendAccepted then AcceptedNotFound else CommittedNotFound;
        settled := settled.(recovery := incident, error := Some(NotFoundAfterCommit));
      }
      return settled, ToolFailed(c);
    }

    method MarkNeedsMigration(c: Id, error: CallError, record: bool)
      requires coordinator.ledger == ledger && c in ledger.calls
      modifies ledger
      ensures var s := if record then Recorded(old(ledger.State()), c, UnsupportedVersion, None) else old(ledger.State());
              var call := s.calls[c].(status := NeedsMigration, recovery := MigrationRequired, error := Some(error));
              ledger.State() == Booked(s, c, call)
    {
      ghost var s := if record then Recorded(ledger.State(), c, UnsupportedVersion, None) else ledger.State();
      var call := ledger.calls[c];
      call := call.(status := NeedsMigration);
      call := call.(recovery := MigrationRequired);
      call := call.(error := Some(error));
      if record {
        RecordAttempt(c, UnsupportedVersion);
      }
      assert ledger.State() == s;
      OpenBlock(c, call);
    }

    /** The call is written back, its block opened and both put on record. */
    method OpenBlock(c: Id, call: Call)
      requires coordinator.ledger == ledger && call.status == NeedsMigration
      modifies ledger
      ensures ledger.State() == Booked(old(ledger.State()), c, call)
    {
      ledger.calls := ledger.calls[c := call];
      coordinator.CreateToolCallBlock(c);
      ledger.AppendEvent(ToolNeedsMigration(c));
      ledger.AppendEvent(RunBlocked(c));
      assert ledger.events == old(ledger.events) + EventsOf(c, NeedsMigration);
    }
  }

  /** The latest attempt told when to ask again. */
  function Throttled(s: Ledger, c: Id, retry: Option<int>): Ledger
    requires c in s.attempts && s.attempts[c] != []
  {
    var rows := s.attempts[c];
    s.(attempts := s.attempts[c := rows[|rows| - 1 := rows[|rows| - 1].(nextRetry := retry)]])
  }

  lemma LastUnchanged(attempts: map<Id, seq<Attempt>>, c: Id)
    requires c in attempts && attempts[c] != [] && attempts[c][|attempts[c]| - 1].nextRetry == None
    ensures var rows := attempts[c];
            attempts == attempts[c := rows[|rows| - 1 := rows[|rows| - 1].(nextRetry := None)]]
  {
    var rows := attempts[c];
    assert rows == rows[|rows| - 1 := rows[|rows| - 1].(nextRetry := None)];
  }

  function AskedSoFar(s: Ledger, c: Id, b: Backends): Ledger {
    var reply := ReplyFor(b, c);
    Recorded(s.(now := s.now + reply.delay), c, reply.status, None).(now := s.now + reply.delay + reply.lag)
  }

  lemma AskedInSteps(s: Ledger, c: Id, b: Backends, asking: Call, settled: Call)
    requires c in s.calls
    ensures var t := AskedSoFar(s, c, b).(calls := s.calls[c := asking]);
            Booked(Throttled(t, c, RetryAt(s.calls[c], ReplyFor(b, c), t.now, b.backoff)), c, settled) == Booked(Asked(s, c, b), c, settled)
  {
    var t := AskedSoFar(s, c, b).(calls := s.calls[c := asking]);
    var retry := RetryAt(s.calls[c], ReplyFor(b, c), t.now, b.backoff);
    var rows := Rows(s, c);
    assert Rows(s.(now := s.now + ReplyFor(b, c).delay), c) == rows;
    var first := t.attempts[c][|rows|];
    assert (rows + [first])[|rows| := first.(nextRetry := retry)] == rows + [first.(nextRetry := retry)];
    assert Throttled(t, c, retry) == Asked(s, c, b).(calls := s.calls[c := asking]);
    assert s.calls[c := asking][c := settled] == s.calls[c := settled];
  }

  /** A run that has ended is not looked at; else every eligible call was either taken up or held back. */
  ghost predicate IsSummary(s: Ledger, t: Ledger, q: seq<Id>, summary: Summary) {
    var due := DueCalls(s, q, s.now);
    if IsTerminal(s.run.status) then summary == Summary([], [], 0, 0, 0, 0)
    else
      && summary.processed == due && summary.skipped == HeldBack(s, q, s.now)
      && |summary.processed| + |summary.skipped| == |q|
      && summary.reconciled == CountIn(t.calls, due, {Succeeded})
      && summary.stillUncertain == CountIn(t.calls, due, {Uncertain, Reconciling})
      && summary.needsMigration == CountIn(t.calls, due, {NeedsMigration})
      && summary.manual == CountIn(t.calls, due, {ManualIntervention})
  }
}
