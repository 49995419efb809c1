/** What every history of reconciling, resolving, resuming and executing keeps. */
module RecoveryRuns {
  import opened Wrappers
  import opened ToolCalls
  import opened Listings
  import opened ReconcileModel
  import opened Freshness
  import opened RecoveryModel

  /** One transaction.  What executors, approvals and users do to the run meanwhile is the environment's. */
  datatype Step =
    | Reconcile(eligible: seq<Id>, backends: Backends)
    | Resolve(block: int, facts: Facts)
    | Resume(facts: Facts, blocking: seq<Id>, retryable: seq<Id>, outcomes: map<Id, Outcome>)
    | Environment(after: Ledger)

  ghost predicate MayFollow(s: Ledger, step: Step) {
    match step
    case Reconcile(eligible, _) => IsListing(eligible, Ranks(s.calls, {Uncertain, Reconciling}))
    case Resolve(_, _) => true
    case Resume(f, blocking, retryable, outcomes) =>
      RefusalOf(s, f) == None ==> AreResumeListings(s, blocking, retryable, outcomes)
    case Environment(after) => IsEnvironment(s, after)
  }

  function Next(s: Ledger, step: Step): Ledger {
    match step
    case Reconcile(eligible, b) => AfterReconcileRun(s, eligible, b)
    case Resolve(b, f) => AfterResolve(s, b, f)
    case Resume(f, blocking, retryable, outcomes) => AfterResume(s, f, blocking, retryable, outcomes)
    case Environment(after) => after
  }

  /**
   What is assumed of everyone else: time goes on; calls keep their identity; nobody but the reconciler
   makes a call retryable or in need of migration, takes up one that needs migration, or writes blocks
   and attempts; while blocks are open the run may end but is not otherwise moved; and nobody gives a
   call a second active queue item.
   */
  ghost predicate IsEnvironment(s: Ledger, t: Ledger) {
    && s.now <= t.now && t.blocks == s.blocks && t.attempts == s.attempts && t.run.blockCount == s.run.blockCount
    && (OpenIds(s.blocks) != [] ==>
          t.run.blocking == s.run.blocking && (t.run.status == s.run.status || IsTerminal(t.run.status)))
    && (forall c :: c in s.calls ==> c in t.calls && IsExecution(s.calls[c], t.calls[c]))
    && (forall c :: c in t.calls && c !in s.calls ==> t.calls[c].status !in {FailedRetryable, NeedsMigration} && !HasOpenBlock(s.blocks, c))
    && (forall c :: AtMostOneActive(s.queue, c) ==> AtMostOneActive(t.queue, c))
  }

  predicate IsExecution(a: Call, b: Call) {
    || b == a
    || (SameIdentity(a, b) && a.status != NeedsMigration && b.status !in {FailedRetryable, NeedsMigration})
  }

  predicate SameIdentity(a: Call, b: Call) {
    a.idempotencyKey == b.idempotencyKey && a.step == b.step && a.attempt == b.attempt
  }

  ghost predicate AtMostOneActive(queue: seq<QueueItem>, c: Id) {
    forall i, j :: 0 <= i < j < |queue| ==> !(IsActiveItem(queue[i], c) && IsActiveItem(queue[j], c))
  }

  /** The states of a history, one more than it has steps. */
  ghost predicate IsRun(states: seq<Ledger>, steps: seq<Step>) {
    && |states| == |steps| + 1 && IsStart(states[0])
    && forall i :: 0 <= i < |steps| ==> IsStepOf(states, steps, i)
  }

  ghost predicate IsStepOf(states: seq<Ledger>, steps: seq<Step>, i: nat)
    requires i < |steps| && |states| == |steps| + 1
  {
    MayFollow(states[i], steps[i]) && states[i + 1] == Next(states[i], steps[i])
  }

  /** Nothing has been reconciled yet. */
  ghost predicate IsStart(s: Ledger) {
    && s.run.blockCount == 0 && s.blocks == [] && s.attempts == map[]
    && (forall c :: c in s.calls ==> s.calls[c].status !in {FailedRetryable, NeedsMigration})
    && (forall c :: AtMostOneActive(s.queue, c))
  }

  // ---------------------------------------------------------------- the invariant

  ghost predicate BlocksMatch(calls: map<Id, Call>, blocks: seq<Block>) {
    && (forall c :: c in calls ==> (calls[c].status == NeedsMigration <==> HasOpenBlock(blocks, c)))
    && (forall i :: 0 <= i < |blocks| && blocks[i].status == Open ==> blocks[i].call in calls)
    && (forall i, j :: 0 <= i < j < |blocks| && blocks[i].status == blocks[j].status == Open ==> blocks[i].call != blocks[j].call)
  }

  predicate RunCounts(run: RunRow, blocks: seq<Block>) {
    && run.blockCount == |OpenIds(blocks)|
    && (OpenIds(blocks) != [] ==> run.blocking == OpenIds(blocks) && (run.status == MigrationBlocked || IsTerminal(run.status)))
  }

  /** Numbered from one, made one after the other, and none before the one before allowed it. */
  ghost predicate IsHistory(rows: seq<Attempt>, now: int) {
    && (forall i :: 0 <= i < |rows| ==> rows[i].number == i + 1 && rows[i].at <= now)
    && (forall i :: 0 < i < |rows| ==>
          rows[i - 1].at <= rows[i].at && (rows[i - 1].nextRetry.Some? ==> rows[i - 1].nextRetry.value <= rows[i].at))
  }

  ghost predicate AreHistories(attempts: map<Id, seq<Attempt>>, now: int) {
    forall c :: c in attempts ==> IsHistory(attempts[c], now)
  }

  /** A retryable call was never sent, as far as anyone knows, and its backend has not heard of it. */
  predicate IsSafeToRetry(call: Call, rows: seq<Attempt>) {
    call.effect == SendIntentRecorded && rows != [] && rows[|rows| - 1].result == NotFound
  }

  ghost predicate RetriesAreSafe(s: Ledger) {
    forall c :: c in s.calls && s.calls[c].status == FailedRetryable ==> IsSafeToRetry(s.calls[c], Rows(s, c))
  }

  ghost predicate QueueIsSingle(queue: seq<QueueItem>) {
    forall c :: AtMostOneActive(queue, c)
  }

  ghost predicate Inv(s: Ledger) {
    BlocksMatch(s.calls, s.blocks) && RunCounts(s.run, s.blocks) && AreHistories(s.attempts, s.now) && RetriesAreSafe(s)
    && QueueIsSingle(s.queue)
  }

  // ---------------------------------------------------------------- attempts

  lemma {:induction false} NumberedRows(rows: seq<Attempt>)
    requires forall i :: 0 <= i < |rows| ==> rows[i].number == i + 1
    ensures MaxNumber(rows) == |rows| && LatestAt(rows) == |rows| - 1
  {
    if rows != [] {
      NumberedRows(rows[..|rows| - 1]);
    }
  }

  lemma HistoryGrows(rows: seq<Attempt>, since: int, a: Attempt, now: int)
    requires IsHistory(rows, since) && since <= a.at <= now && a.number == MaxNumber(rows) + 1
    requires rows != [] && rows[|rows| - 1].nextRetry.Some? ==> rows[|rows| - 1].nextRetry.value <= a.at
    ensures IsHistory(rows + [a], now)
  {
    NumberedRows(rows);
  }

  lemma HistoriesAge(attempts: map<Id, seq<Attempt>>, since: int, now: int)
    requires AreHistories(attempts, since) && since <= now
    ensures AreHistories(attempts, now)
  {
    forall c | c in attempts ensures IsHistory(attempts[c], now) {
      assert IsHistory(attempts[c], since);
    }
  }

  // ---------------------------------------------------------------- blocks

  lemma {:induction false} OpenIdsAreOpen(blocks: seq<Block>, c: Id)
    ensures c in OpenIds(blocks) <==> HasOpenBlock(blocks, c)
  {
    if blocks != [] {
      var front, last := blocks[..|blocks| - 1], blocks[|blocks| - 1];
      OpenIdsAreOpen(front, c);
      if i :| 0 <= i < |blocks| && blocks[i] == Block(c, Open) {
        assert i < |front| ==> front[i] == Block(c, Open);
      }
      if i :| 0 <= i < |front| && front[i] == Block(c, Open) {
        assert blocks[i] == Block(c, Open);
      }
    }
  }

  /** A call without an open block gets one. */
  lemma BlockAdded(calls: map<Id, Call>, blocks: seq<Block>, c: Id, call: Call)
    requires BlocksMatch(calls, blocks) && c in calls && calls[c].status != NeedsMigration && call.status == NeedsMigration
    ensures !HasOpenBlock(blocks, c) && BlocksMatch(calls[c := call], blocks + [Block(c, Open)])
  {
    var more := blocks + [Block(c, Open)];
    assert more[|blocks|] == Block(c, Open);
    forall x ensures HasOpenBlock(more, x) <==> HasOpenBlock(blocks, x) || x == c {
      if i :| 0 <= i < |blocks| && blocks[i] == Block(x, Open) {
        assert more[i] == Block(x, Open);
      }
    }
    forall i | 0 <= i < |blocks| && blocks[i].status == Open ensures blocks[i].call != c {
      assert blocks[i] == Block(blocks[i].call, Open);
    }
  }

  lemma BlockRemoved(calls: map<Id, Call>, blocks: seq<Block>, b: nat, calls': map<Id, Call>)
    requires BlocksMatch(calls, blocks) && b < |blocks| && blocks[b].status == Open
    requires var c := blocks[b].call; c in calls' && calls'[c].status != NeedsMigration && calls' == calls[c := calls'[c]]
    ensures BlocksMatch(calls', blocks[b := blocks[b].(status := Resolved)])
  {
    var c, left := blocks[b].call, blocks[b := blocks[b].(status := Resolved)];
    forall x ensures HasOpenBlock(left, x) <==> HasOpenBlock(blocks, x) && x != c {
      if i :| 0 <= i < |blocks| && blocks[i] == Block(x, Open) && x != c {
        assert left[i] == Block(x, Open);
      }
      if i :| 0 <= i < |left| && left[i] == Block(x, Open) {
        assert blocks[i] == Block(x, Open);
      }
    }
  }

  lemma BookedKeepsBlocks(s: Ledger, c: Id, call: Call)
    requires BlocksMatch(s.calls, s.blocks) && RunCounts(s.run, s.blocks)
    requires c in s.calls && s.calls[c].status != NeedsMigration
    ensures BlocksMatch(Booked(s, c, call).calls, Booked(s, c, call).blocks)
    ensures RunCounts(Booked(s, c, call).run, Booked(s, c, call).blocks)
  {
    if call.status == NeedsMigration {
      BlockAdded(s.calls, s.blocks, c, call);
    }
  }

  // ---------------------------------------------------------------- reconciling one call

  /** A transaction about one call leaves the others, their attempts and the queue alone. */
  ghost predicate TouchesOnly(s: Ledger, t: Ledger, c: Id) {
    && t.calls.Keys == s.calls.Keys && t.queue == s.queue && s.now <= t.now
    && (forall x :: x in s.calls ==> (x != c ==> t.calls[x] == s.calls[x]) && SameIdentity(s.calls[x], t.calls[x]))
    && (forall x :: x != c ==> Rows(t, x) == Rows(s, x))
    && (c in s.calls && !IsEligible(s.calls[c].status) ==> t == s)
  }

  /** Reconciling an open call: at most one attempt is recorded, then the call is written back. */
  lemma ReconciledInStages(s: Ledger, c: Id, b: Backends) returns (t: Ledger, call: Call, made: seq<Attempt>)
    requires c in s.calls && IsEligible(s.calls[c].status)
    ensures Reconciled(s, c, b) == Booked(t, c, call) && SameIdentity(s.calls[c], call)
    ensures RecordsAtMostOne(s, c, t, made)
    ensures call.status == FailedRetryable ==> call.effect == SendIntentRecorded && made != [] && made[0].result == NotFound
    ensures IsEligible(call.status) ==>
              made != [] && made[0].nextRetry.Some? && made[0].nextRetry.value >= made[0].at + b.backoff
  {
    var was, reply := s.calls[c], ReplyFor(b, c);
    if was.capability == LegacyNoReceipt && !was.safe {
      t, made := s, [];
      call := was.(status := ManualIntervention, recovery := LegacyManual, error := Some(ReconcileNotSupported));
    } else if !HasContract(was, b) {
      t, made := Recorded(s, c, UnsupportedVersion, None), [Attempt(MaxNumber(Rows(s, c)) + 1, UnsupportedVersion, s.now, None)];
      call := was.(status := NeedsMigration, recovery := MigrationRequired, error := Some(ContractUnsupported));
    } else {
      t, call := Asked(s, c, b), Answered(was, reply);
      made := AskedRecords(s, c, b);
      AnswersAreSound(was, reply, t.now, b.backoff);
    }
  }

  /** The step from `s` to `t` records what is in `made` for the call, and time passes. */
  ghost predicate RecordsAtMostOne(s: Ledger, c: Id, t: Ledger, made: seq<Attempt>) {
    && t == s.(attempts := if made == [] then s.attempts else s.attempts[c := Rows(s, c) + made], now := t.now)
    && if made == [] then t.now == s.now
       else |made| == 1 && made[0].number == MaxNumber(Rows(s, c)) + 1 && s.now <= made[0].at <= t.now
  }

  lemma AskedRecords(s: Ledger, c: Id, b: Backends) returns (made: seq<Attempt>)
    requires c in s.calls
    ensures RecordsAtMostOne(s, c, Asked(s, c, b), made)
    ensures made != [] && made[0].result == ReplyFor(b, c).status
    ensures made[0].nextRetry == RetryAt(s.calls[c], ReplyFor(b, c), Asked(s, c, b).now, b.backoff) && made[0].at <= Asked(s, c, b).now
  {
    var reply := ReplyFor(b, c);
    var asked := s.now + reply.delay;
    assert Rows(s.(now := asked), c) == Rows(s, c);
    made := [Attempt(MaxNumber(Rows(s, c)) + 1, reply.status, asked, RetryAt(s.calls[c], reply, asked + reply.lag, b.backoff))];
  }

  /** A call is retryable only if it was not sent and is not known; one left open is told when to be asked about. */
  lemma AnswersAreSound(call: Call, reply: Reply, now: int, backoff: int)
    ensures SameIdentity(call, Answered(call, reply))
    ensures Answered(call, reply).status == FailedRetryable ==>
              Answered(call, reply).effect == SendIntentRecorded && reply.status == NotFound
    ensures IsEligible(Answered(call, reply).status) ==> RetryAt(call, reply, now, backoff) == Some(now + backoff)
  {
  }

  lemma ReconciledTouches(s: Ledger, c: Id, b: Backends)
    ensures TouchesOnly(s, Reconciled(s, c, b), c)
    ensures Rows(s, c) <= Rows(Reconciled(s, c, b), c)
  {
    if c in s.calls && IsEligible(s.calls[c].status) {
      var t, call, made := ReconciledInStages(s, c, b);
      BookedTouches(t, c, call);
    }
  }

  lemma BookedTouches(s: Ledger, c: Id, call: Call)
    ensures var t := Booked(s, c, call);
            && t.attempts == s.attempts && t.queue == s.queue && t.now == s.now && t.calls == s.calls[c := call]
  {
  }

  lemma MayAttempt(s: Ledger, c: Id, start: int)
    requires AreHistories(s.attempts, s.now) && start <= s.now && !IsThrottled(s, c, start)
    ensures var rows := Rows(s, c);
            && IsHistory(rows, s.now)
            && (rows != [] && rows[|rows| - 1].nextRetry.Some? ==> rows[|rows| - 1].nextRetry.value <= s.now)
  {
    assert IsHistory(Rows(s, c), s.now);
    NumberedRows(Rows(s, c));
  }

  lemma ReconciledKeepsHistories(s: Ledger, c: Id, b: Backends, start: int)
    requires AreHistories(s.attempts, s.now) && start <= s.now && !IsThrottled(s, c, start)
    ensures AreHistories(Reconciled(s, c, b).attempts, Reconciled(s, c, b).now)
  {
    if c in s.calls && IsEligible(s.calls[c].status) {
      var t, call, made := ReconciledInStages(s, c, b);
      BookedTouches(t, c, call);
      HistoriesAge(s.attempts, s.now, t.now);
      if made != [] {
        MayAttempt(s, c, start);
        HistoryGrows(Rows(s, c), s.now, made[0], t.now);
        assert made == [made[0]];
      }
    }
  }

  lemma ReconciledKeepsBlocks(s: Ledger, c: Id, b: Backends)
    requires BlocksMatch(s.calls, s.blocks) && RunCounts(s.run, s.blocks)
    ensures BlocksMatch(Reconciled(s, c, b).calls, Reconciled(s, c, b).blocks)
    ensures RunCounts(Reconciled(s, c, b).run, Reconciled(s, c, b).blocks)
  {
    if c in s.calls && IsEligible(s.calls[c].status) {
      var t, call, made := ReconciledInStages(s, c, b);
      BookedKeepsBlocks(t, c, call);
    }
  }

  /** Only a call that is known not to have been sent, and that its backend does not know, becomes retryable. */
  lemma ReconciledKeepsRetries(s: Ledger, c: Id, b: Backends)
    requires RetriesAreSafe(s)
    ensures RetriesAreSafe(Reconciled(s, c, b))
  {
    if c in s.calls && IsEligible(s.calls[c].status) {
      var t, call, made := ReconciledInStages(s, c, b);
      BookedTouches(t, c, call);
      RetriesStaySafe(s, Reconciled(s, c, b), c);
    }
  }

  lemma RetriesStaySafe(s: Ledger, t: Ledger, c: Id)
    requires RetriesAreSafe(s) && c in t.calls && t.calls == s.calls[c := t.calls[c]]
    requires forall x :: x != c ==> Rows(t, x) == Rows(s, x)
    requires t.calls[c].status == FailedRetryable ==> IsSafeToRetry(t.calls[c], Rows(t, c))
    ensures RetriesAreSafe(t)
  {
    forall x | x in t.calls && t.calls[x].status == FailedRetryable ensures IsSafeToRetry(t.calls[x], Rows(t, x)) {
      assert x != c ==> IsSafeToRetry(s.calls[x], Rows(s, x));
    }
  }

  lemma ReconciledKeeps(s: Ledger, c: Id, b: Backends, start: int)
    requires Inv(s) && start <= s.now && !IsThrottled(s, c, start)
    ensures Inv(Reconciled(s, c, b))
  {
    ReconciledTouches(s, c, b);
    ReconciledKeepsHistories(s, c, b, start);
    ReconciledKeepsBlocks(s, c, b);
    ReconciledKeepsRetries(s, c, b);
  }

  // ---------------------------------------------------------------- a pass

  /** A pass over `q` leaves what is not in it alone. */
  ghost predicate TouchesAmong(s: Ledger, t: Ledger, q: seq<Id>) {
    && t.calls.Keys == s.calls.Keys && t.queue == s.queue && s.now <= t.now
    && (forall c :: c in s.calls ==> SameIdentity(s.calls[c], t.calls[c]))
    && (forall c :: c in s.calls && c !in q ==> t.calls[c] == s.calls[c])
    && (forall c :: c !in q ==> Rows(t, c) == Rows(s, c))
    && (forall c :: Rows(s, c) <= Rows(t, c))
  }

  ghost predicate AllDue(s: Ledger, q: seq<Id>, start: int) {
    && (forall i, j :: 0 <= i < j < |q| ==> q[i] != q[j])
    && (forall i :: 0 <= i < |q| ==> !IsThrottled(s, q[i], start))
  }

  lemma {:induction false} PassTouches(s: Ledger, q: seq<Id>, b: Backends)
    ensures TouchesAmong(s, ReconcileAll(s, q, b), q)
  {
    if q != [] {
      var front, last := q[..|q| - 1], q[|q| - 1];
      var t := ReconcileAll(s, front, b);
      PassTouches(s, front, b);
      ReconciledTouches(t, last, b);
      assert forall c :: c in q <==> c in front || c == last;
    }
  }

  lemma {:induction false} PassKeeps(s: Ledger, q: seq<Id>, b: Backends)
    requires Inv(s) && AllDue(s, q, s.now)
    ensures Inv(ReconcileAll(s, q, b))
  {
    if q != [] {
      var front, last := q[..|q| - 1], q[|q| - 1];
      PassKeeps(s, front, b);
      PassTouches(s, front, b);
      assert last !in front;
      assert Rows(ReconcileAll(s, front, b), last) == Rows(s, last);
      ReconciledKeeps(ReconcileAll(s, front, b), last, b, s.now);
    }
  }

  lemma {:induction false} DueCallsAreDue(s: Ledger, q: seq<Id>, start: int)
    requires forall i, j :: 0 <= i < j < |q| ==> q[i] != q[j]
    ensures AllDue(s, DueCalls(s, q, start), start)
    ensures forall c :: c in DueCalls(s, q, start) <==> c in q && !IsThrottled(s, c, start)
  {
    if q != [] {
      var front, last := q[..|q| - 1], q[|q| - 1];
      DueCallsAreDue(s, front, start);
      assert last !in front;
      assert forall c :: c in q <==> c in front || c == last;
    }
  }

  lemma ReconcileKeeps(s: Ledger, q: seq<Id>, b: Backends)
    requires Inv(s) && IsListing(q, Ranks(s.calls, {Uncertain, Reconciling}))
    ensures Inv(AfterReconcileRun(s, q, b))
  {
    DueCallsAreDue(s, q, s.now);
    PassKeeps(s, DueCalls(s, q, s.now), b);
  }

  // ---------------------------------------------------------------- resolving

  lemma ResolveKeeps(s: Ledger, b: int, f: Facts)
    requires Inv(s)
    ensures Inv(AfterResolve(s, b, f))
  {
    var t := AfterResolve(s, b, f);
    if t != s {
      UnblockedKeeps(s, b);
      var u := Unblocked(s, b);
      assert Rows(u, 0) == Rows(s, 0);
      forall c | c in t.calls && t.calls[c].status == FailedRetryable ensures IsSafeToRetry(t.calls[c], Rows(t, c)) {
        assert IsSafeToRetry(s.calls[c], Rows(s, c));
      }
    }
  }

  lemma UnblockedKeeps(s: Ledger, b: nat)
    requires BlocksMatch(s.calls, s.blocks) && b < |s.blocks| && s.blocks[b].status == Open
    ensures s.blocks[b].call in s.calls && s.calls[s.blocks[b].call].status == NeedsMigration
    ensures BlocksMatch(Unblocked(s, b).calls, Unblocked(s, b).blocks)
  {
    var c := s.blocks[b].call;
    assert s.blocks[b] == Block(c, Open);
    assert HasOpenBlock(s.blocks, c);
    BlockRemoved(s.calls, s.blocks, b, Unblocked(s, b).calls);
  }
}
