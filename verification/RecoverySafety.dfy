/** What reconciling and resuming are for: nothing is sent twice, and nothing blocked is forgotten. */
module RecoverySafety {
  import opened Wrappers
  import opened ToolCalls
  import opened Listings
  import opened ReconcileModel
  import opened Freshness
  import opened RecoveryModel
  import opened RecoveryRuns

  // ---------------------------------------------------------------- executing

  /** Executing approved calls touches planned calls and the items they wait in. */
  ghost predicate OnlyExecutes(s: Ledger, t: Ledger) {
    && t.blocks == s.blocks && t.attempts == s.attempts && t.now == s.now
    && t.run == s.run.(iteration := t.run.iteration, stepIndex := t.run.stepIndex)
    && t.calls.Keys == s.calls.Keys && (forall c :: c in s.calls ==> IsOutcome(s.calls[c], t.calls[c]))
    && |t.queue| == |s.queue|
    && (forall i :: 0 <= i < |s.queue| ==> t.queue[i] == s.queue[i] || IsTakenUp(s, s.queue[i], t.queue[i]))
  }

  predicate IsOutcome(a: Call, b: Call) {
    || b == a
    || (SameIdentity(a, b) && a.status == Planned && b.status in {Succeeded, Failed, ManualIntervention, Uncertain})
  }

  predicate IsTakenUp(s: Ledger, a: QueueItem, b: QueueItem) {
    b.call == a.call && b.status in {CompletedItem, FailedItem} && a.call in s.calls && s.calls[a.call].status == Planned
  }

  lemma OneExecutes(p: Progress, c: Id, outcomes: map<Id, Outcome>)
    ensures OnlyExecutes(p.ledger, ExecuteOne(p, c, outcomes).ledger)
  {
  }

  lemma {:induction false} ExecutingKeeps(s: Ledger, q: seq<Id>, outcomes: map<Id, Outcome>)
    ensures OnlyExecutes(s, ExecuteAll(s, q, outcomes).ledger)
  {
    if q != [] {
      var p := ExecuteAll(s, q[..|q| - 1], outcomes);
      ExecutingKeeps(s, q[..|q| - 1], outcomes);
      OneExecutes(p, q[|q| - 1], outcomes);
      ExecutionsCompose(s, p.ledger, ExecuteAll(s, q, outcomes).ledger);
    }
  }

  lemma ExecutionsCompose(s: Ledger, t: Ledger, u: Ledger)
    requires OnlyExecutes(s, t) && OnlyExecutes(t, u)
    ensures OnlyExecutes(s, u)
  {
    forall c | c in s.calls ensures IsOutcome(s.calls[c], u.calls[c]) {
      assert IsOutcome(s.calls[c], t.calls[c]) && IsOutcome(t.calls[c], u.calls[c]);
    }
  }

  // ---------------------------------------------------------------- queueing again

  /** Each new item is for a retryable call that had no active item, and no two are for the same call. */
  ghost predicate OnlyRequeues(s: Ledger, t: Ledger) {
    && t.blocks == s.blocks && t.attempts == s.attempts && t.now == s.now && t.run == s.run
    && t.calls.Keys == s.calls.Keys && s.queue <= t.queue
    && (forall i :: |s.queue| <= i < |t.queue| ==> IsRequeued(s, t, t.queue[i]))
    && (forall i, j :: |s.queue| <= i < j < |t.queue| ==> t.queue[i].call != t.queue[j].call)
    && (forall c :: c in s.calls && t.calls[c] != s.calls[c] ==> exists i :: |s.queue| <= i < |t.queue| && t.queue[i].call == c)
  }

  ghost predicate IsRequeued(s: Ledger, t: Ledger, item: QueueItem) {
    && item.status == Queued && item.call in s.calls && item.call in t.calls && s.calls[item.call].status == FailedRetryable
    && t.calls[item.call] == s.calls[item.call].(status := Planned, recovery := ResumeRetrySameKey)
    && !HasActiveItem(s.queue, item.call)
  }

  lemma RequeuedCall(s: Ledger, t: Ledger, c: Id)
    requires OnlyRequeues(s, t) && c in s.calls
    ensures t.calls[c] == s.calls[c] ||
            (s.calls[c].status == FailedRetryable && t.calls[c] == s.calls[c].(status := Planned, recovery := ResumeRetrySameKey))
  {
    if t.calls[c] != s.calls[c] {
      var i :| |s.queue| <= i < |t.queue| && t.queue[i].call == c;
      assert IsRequeued(s, t, t.queue[i]);
    }
  }

  lemma OneRequeues(s: Ledger, p: Progress, c: Id)
    requires OnlyRequeues(s, p.ledger) && c in s.calls && s.calls[c].status == FailedRetryable
    requires p.ledger.calls[c] == s.calls[c]
    ensures OnlyRequeues(s, ScheduleOne(p, c).ledger)
  {
    var t, u := p.ledger, ScheduleOne(p, c).ledger;
    if u != t {
      assert forall i :: 0 <= i < |t.queue| ==> u.queue[i] == t.queue[i];
      forall i | 0 <= i < |s.queue| ensures !IsActiveItem(s.queue[i], c) {
        assert t.queue[i] == s.queue[i];
      }
      forall i | |s.queue| <= i < |u.queue|
        ensures IsRequeued(s, u, u.queue[i]) && (i < |t.queue| ==> u.queue[i].call != c)
      {
        if i < |t.queue| {
          assert IsRequeued(s, t, t.queue[i]);
          assert !IsActiveItem(t.queue[i], c);
        }
      }
      forall x | x in s.calls && u.calls[x] != s.calls[x]
        ensures exists i :: |s.queue| <= i < |u.queue| && u.queue[i].call == x
      {
        if x == c {
          assert u.queue[|t.queue|].call == c;
        } else {
          var i :| |s.queue| <= i < |t.queue| && t.queue[i].call == x;
          assert u.queue[i].call == x;
        }
      }
    }
  }

  lemma {:induction false} SchedulingRequeues(s: Ledger, q: seq<Id>)
    requires forall i :: 0 <= i < |q| ==> q[i] in s.calls && s.calls[q[i]].status == FailedRetryable
    requires forall i, j :: 0 <= i < j < |q| ==> q[i] != q[j]
    ensures OnlyRequeues(s, ScheduleAll(s, q).ledger)
    ensures forall c :: c in s.calls && c !in q ==> ScheduleAll(s, q).ledger.calls[c] == s.calls[c]
  {
    if q != [] {
      var front, last := q[..|q| - 1], q[|q| - 1];
      SchedulingRequeues(s, front);
      assert last !in front;
      OneRequeues(s, ScheduleAll(s, front), last);
      assert forall c :: c in q <==> c in front || c == last;
    }
  }

  // ---------------------------------------------------------------- resuming

  /** How a resume that goes ahead comes about: execute, then queue again, then settle the run. */
  lemma ResumeInStages(s: Ledger, f: Facts, blocking: seq<Id>, retryable: seq<Id>, outcomes: map<Id, Outcome>)
    returns (mid: Ledger, queued: Ledger)
    requires RefusalOf(s, f) == None && AreResumeListings(s, blocking, retryable, outcomes)
    ensures OnlyExecutes(s, mid) && OnlyRequeues(mid, queued)
    ensures var t := AfterResume(s, f, blocking, retryable, outcomes);
            && t == queued.(run := t.run, events := t.events)
            && t.run == queued.run.(blocking := t.run.blocking, status := t.run.status, error := None)
            && t.run.blocking == Remaining(t.calls, queued.run.blocking)
            && t.run.status == if t.run.blocking == [] then Running else NeedsHuman
  {
    var start := Checked(s, Continue);
    var p := ExecuteAll(start, blocking, outcomes);
    mid := p.ledger;
    ExecutingKeeps(start, blocking, outcomes);
    assert OnlyExecutes(s, start);
    ExecutionsCompose(s, start, mid);
    queued := ScheduleAll(mid, retryable).ledger;
    SchedulingRequeues(mid, retryable);
  }

  lemma ResumeKeeps(s: Ledger, f: Facts, blocking: seq<Id>, retryable: seq<Id>, outcomes: map<Id, Outcome>)
    requires Inv(s) && (RefusalOf(s, f) == None ==> AreResumeListings(s, blocking, retryable, outcomes))
    ensures Inv(AfterResume(s, f, blocking, retryable, outcomes))
  {
    if RefusalOf(s, f) == None {
      var mid, queued := ResumeInStages(s, f, blocking, retryable, outcomes);
      ExecutionsKeep(s, mid);
      RequeueingKeeps(mid, queued);
      var t := AfterResume(s, f, blocking, retryable, outcomes);
      assert RetriesAreSafe(t);
    }
  }

  lemma ExecutionsKeep(s: Ledger, t: Ledger)
    requires Inv(s) && OnlyExecutes(s, t)
    ensures Inv(t)
  {
    forall c | c in t.calls
      ensures t.calls[c].status == NeedsMigration <==> s.calls[c].status == NeedsMigration
      ensures t.calls[c].status == FailedRetryable ==> IsSafeToRetry(t.calls[c], Rows(t, c))
    {
      assert IsOutcome(s.calls[c], t.calls[c]);
      assert s.calls[c].status == FailedRetryable ==> IsSafeToRetry(s.calls[c], Rows(s, c));
    }
    forall c ensures AtMostOneActive(t.queue, c) {
      assert AtMostOneActive(s.queue, c);
      assert forall i :: 0 <= i < |s.queue| && IsActiveItem(t.queue[i], c) ==> IsActiveItem(s.queue[i], c);
    }
  }

  lemma RequeueingKeeps(s: Ledger, t: Ledger)
    requires Inv(s) && OnlyRequeues(s, t)
    ensures Inv(t)
  {
    forall c | c in t.calls
      ensures t.calls[c].status == NeedsMigration <==> s.calls[c].status == NeedsMigration
      ensures t.calls[c].status == FailedRetryable ==> IsSafeToRetry(t.calls[c], Rows(t, c))
    {
      RequeuedCall(s, t, c);
      assert s.calls[c].status == FailedRetryable ==> IsSafeToRetry(s.calls[c], Rows(s, c));
    }
    forall c ensures AtMostOneActive(t.queue, c) {
      RequeueingStaysSingle(s, t, c);
    }
  }

  lemma RequeueingStaysSingle(s: Ledger, t: Ledger, c: Id)
    requires AtMostOneActive(s.queue, c) && OnlyRequeues(s, t)
    ensures AtMostOneActive(t.queue, c)
  {
    forall i, j | 0 <= i < j < |t.queue| && IsActiveItem(t.queue[i], c) ensures !IsActiveItem(t.queue[j], c) {
      assert j < |s.queue| ==> t.queue[j] == s.queue[j];
      assert j >= |s.queue| ==> IsRequeued(s, t, t.queue[j]);
      assert i < |s.queue| ==> IsActiveItem(s.queue[i], c);
    }
  }

  // ---------------------------------------------------------------- every step

  lemma EnvironmentKeeps(s: Ledger, t: Ledger)
    requires Inv(s) && IsEnvironment(s, t)
    ensures Inv(t)
  {
    forall c | c in t.calls
      ensures t.calls[c].status == NeedsMigration <==> HasOpenBlock(t.blocks, c)
      ensures t.calls[c].status == FailedRetryable ==> IsSafeToRetry(t.calls[c], Rows(t, c))
    {
      if c in s.calls {
        assert IsExecution(s.calls[c], t.calls[c]);
        assert s.calls[c].status == FailedRetryable ==> IsSafeToRetry(s.calls[c], Rows(s, c));
      }
    }
    HistoriesAge(s.attempts, s.now, t.now);
    forall c ensures AtMostOneActive(t.queue, c) {
      assert AtMostOneActive(s.queue, c);
    }
  }

  lemma StepKeeps(s: Ledger, step: Step)
    requires Inv(s) && MayFollow(s, step)
    ensures Inv(Next(s, step))
  {
    match step
    case Reconcile(q, b) => ReconcileKeeps(s, q, b);
    case Resolve(b, f) => ResolveKeeps(s, b, f);
    case Resume(f, blocking, retryable, outcomes) => ResumeKeeps(s, f, blocking, retryable, outcomes);
    case Environment(after) => EnvironmentKeeps(s, after);
  }

  lemma {:induction false} RunKeeps(states: seq<Ledger>, steps: seq<Step>, n: nat)
    requires IsRun(states, steps) && n <= |steps|
    ensures Inv(states[n])
  {
    if n > 0 {
      RunKeeps(states, steps, n - 1);
      assert IsStepOf(states, steps, n - 1);
      StepKeeps(states[n - 1], steps[n - 1]);
    }
  }

  // ---------------------------------------------------------------- no unsafe resend

  /**
   Whatever happened before, every item a resume queues is for a call that was waiting to be retried:
   its sending was intended but never observed, its backend last answered that it does not know it, no
   item for it was active, and it goes out under the key it had.
   */
  lemma NothingIsSentTwice(states: seq<Ledger>, steps: seq<Step>, n: nat, i: nat)
    requires IsRun(states, steps) && n < |steps| && steps[n].Resume?
    requires |states[n].queue| <= i < |states[n + 1].queue|
    ensures var s, t, c := states[n], states[n + 1], states[n + 1].queue[i].call;
            && c in s.calls && s.calls[c].status == FailedRetryable && s.calls[c].effect == SendIntentRecorded
            && Rows(s, c) != [] && Rows(s, c)[|Rows(s, c)| - 1].result == NotFound
            && !HasActiveItem(s.queue, c) && AtMostOneActive(t.queue, c)
            && c in t.calls && t.calls[c] == s.calls[c].(status := Planned, recovery := ResumeRetrySameKey)
  {
    RunKeeps(states, steps, n);
    RunKeeps(states, steps, n + 1);
    assert IsStepOf(states, steps, n);
    var s, t, step := states[n], states[n + 1], steps[n];
    var c := t.queue[i].call;
    if RefusalOf(s, step.facts) == None {
      var mid, queued := ResumeInStages(s, step.facts, step.blocking, step.retryable, step.outcomes);
      assert IsRequeued(mid, queued, queued.queue[i]);
      assert IsOutcome(s.calls[c], mid.calls[c]);
      assert IsSafeToRetry(s.calls[c], Rows(s, c));
      forall j | 0 <= j < |s.queue| ensures !IsActiveItem(s.queue[j], c) {
        assert mid.queue[j] == s.queue[j] || IsTakenUp(s, s.queue[j], mid.queue[j]);
        assert !IsActiveItem(mid.queue[j], c);
      }
      assert AtMostOneActive(t.queue, c);
    }
  }

  /** No step changes which call a call is, or the key it is sent under. */
  lemma StepKeepsIdentity(s: Ledger, step: Step, c: Id)
    requires MayFollow(s, step) && c in s.calls
    ensures c in Next(s, step).calls && SameIdentity(s.calls[c], Next(s, step).calls[c])
  {
    match step
    case Reconcile(q, b) => PassTouches(s, DueCalls(s, q, s.now), b);
    case Resolve(_, _) =>
    case Resume(f, blocking, retryable, outcomes) =>
      if RefusalOf(s, f) == None {
        var mid, queued := ResumeInStages(s, f, blocking, retryable, outcomes);
        assert IsOutcome(s.calls[c], mid.calls[c]);
        RequeuedCall(mid, queued, c);
      }
    case Environment(after) => assert IsExecution(s.calls[c], after.calls[c]);
  }

  lemma {:induction false} KeysNeverChange(states: seq<Ledger>, steps: seq<Step>, m: nat, n: nat, c: Id)
    requires IsRun(states, steps) && m <= n <= |steps| && c in states[m].calls
    ensures c in states[n].calls && states[n].calls[c].idempotencyKey == states[m].calls[c].idempotencyKey
  {
    if m < n {
      KeysNeverChange(states, steps, m, n - 1, c);
      assert IsStepOf(states, steps, n - 1);
      StepKeepsIdentity(states[n - 1], steps[n - 1], c);
    }
  }

  // ---------------------------------------------------------------- migration blocks

  /** The run knows its open blocks; it waits for them unless it ended; a call needs migration while it has one. */
  lemma BlocksAreAccountedFor(states: seq<Ledger>, steps: seq<Step>, n: nat)
    requires IsRun(states, steps) && n <= |steps|
    ensures var s := states[n];
            && s.run.blockCount == |set i | 0 <= i < |s.blocks| && s.blocks[i].status == Open|
            && (s.run.blockCount > 0 ==> s.run.status == MigrationBlocked || IsTerminal(s.run.status))
            && (s.run.blockCount > 0 ==> forall c :: c in s.run.blocking <==> HasOpenBlock(s.blocks, c))
            && (forall c :: c in s.calls ==> (s.calls[c].status == NeedsMigration <==> HasOpenBlock(s.blocks, c)))
            && (forall i, j :: 0 <= i < j < |s.blocks| && s.blocks[i].status == s.blocks[j].status == Open ==>
                  s.blocks[i].call != s.blocks[j].call)
  {
    RunKeeps(states, steps, n);
    OpenIdsAreCounted(states[n].blocks);
    forall c ensures c in OpenIds(states[n].blocks) <==> HasOpenBlock(states[n].blocks, c) {
      OpenIdsAreOpen(states[n].blocks, c);
    }
  }

  lemma {:induction false} OpenIdsAreCounted(blocks: seq<Block>)
    ensures |OpenIds(blocks)| == |set i | 0 <= i < |blocks| && blocks[i].status == Open|
  {
    if blocks != [] {
      var front, n := blocks[..|blocks| - 1], |blocks| - 1;
      OpenIdsAreCounted(front);
      var before := set i | 0 <= i < |front| && front[i].status == Open;
      var all := set i | 0 <= i < |blocks| && blocks[i].status == Open;
      assert forall i :: i in all <==> i in before || (i == n && blocks[n].status == Open);
      assert all == if blocks[n].status == Open then before + {n} else before;
    }
  }

  /**
   Resolving an open block sends its call back to reconciling.  The run stays blocked while other
   blocks are open; with the last one it runs exactly if the gate lets it continue, and pauses
   otherwise.  This is so even for a run that had ended: resolving revives it.
   */
  lemma ResolvingTheLastBlock(states: seq<Ledger>, steps: seq<Step>, n: nat, b: nat, f: Facts)
    requires IsRun(states, steps) && n <= |steps| && b < |states[n].blocks| && states[n].blocks[b].status == Open
    ensures var s, t, c := states[n], AfterResolve(states[n], b, f), states[n].blocks[b].call;
            && c in s.calls && t.calls == s.calls[c := s.calls[c].(status := Reconciling, recovery := ReconcileAfterMigration, error := None)]
            && (t.run.status == MigrationBlocked <==> exists i :: 0 <= i < |s.blocks| && i != b && s.blocks[i].status == Open)
            && (t.run.status != MigrationBlocked ==>
                  t.run.status == if (forall r :: Passes(r, Unblocked(s, b), f)) then Running else Paused)
  {
    var s := states[n];
    RunKeeps(states, steps, n);
    UnblockedKeeps(s, b);
    var u := Unblocked(s, b);
    TheFirstFailureDecides(u, f);
    SomeBlockIsOpen(u.blocks);
    assert forall i :: 0 <= i < |s.blocks| ==> (u.blocks[i].status == Open <==> i != b && s.blocks[i].status == Open);
  }

  lemma SomeBlockIsOpen(blocks: seq<Block>)
    ensures OpenIds(blocks) != [] <==> exists i :: 0 <= i < |blocks| && blocks[i].status == Open
  {
    if OpenIds(blocks) != [] {
      OpenIdsAreOpen(blocks, OpenIds(blocks)[0]);
    }
    forall i | 0 <= i < |blocks| && blocks[i].status == Open ensures OpenIds(blocks) != [] {
      assert blocks[i] == Block(blocks[i].call, Open);
      OpenIdsAreOpen(blocks, blocks[i].call);
    }
  }

  /** A resume that goes ahead lets the run go on exactly when every call it waited for has succeeded. */
  lemma ResumedExactlyWhenNothingBlocks(s: Ledger, f: Facts, blocking: seq<Id>, retryable: seq<Id>, outcomes: map<Id, Outcome>)
    requires RefusalOf(s, f) == None && AreResumeListings(s, blocking, retryable, outcomes)
    ensures var t := AfterResume(s, f, blocking, retryable, outcomes);
            && (t.run.status == Running <==> forall c :: c in s.run.blocking ==> c in t.calls && t.calls[c].status == Succeeded)
            && (t.run.status == NeedsHuman <==> t.run.status != Running)
            && forall c :: c in t.run.blocking <==> c in s.run.blocking && !(c in t.calls && t.calls[c].status == Succeeded)
  {
    var mid, queued := ResumeInStages(s, f, blocking, retryable, outcomes);
    RemainingExactly(AfterResume(s, f, blocking, retryable, outcomes).calls, s.run.blocking);
  }

  lemma RemainingExactly(calls: map<Id, Call>, ids: seq<Id>)
    ensures Remaining(calls, ids) == [] <==> forall c :: c in ids ==> c in calls && calls[c].status == Succeeded
    ensures forall c :: c in Remaining(calls, ids) <==> c in ids && !(c in calls && calls[c].status == Succeeded)
  {
    forall c ensures c in Remaining(calls, ids) <==> c in ids && !(c in calls && calls[c].status == Succeeded) {
      RemainingAreUnfinished(calls, ids, c);
    }
    if Remaining(calls, ids) != [] {
      assert Remaining(calls, ids)[0] in Remaining(calls, ids);
    }
  }

  lemma {:induction false} RemainingAreUnfinished(calls: map<Id, Call>, ids: seq<Id>, c: Id)
    ensures c in Remaining(calls, ids) <==> c in ids && !(c in calls && calls[c].status == Succeeded)
  {
    if ids != [] {
      RemainingAreUnfinished(calls, ids[..|ids| - 1], c);
      assert ids == ids[..|ids| - 1] + [ids[|ids| - 1]];
    }
  }

  // ---------------------------------------------------------------- attempts

  /** Attempts are only added, and are numbered without a gap. */
  lemma {:induction false} AttemptsAreNumbered(states: seq<Ledger>, steps: seq<Step>, m: nat, n: nat, c: Id)
    requires IsRun(states, steps) && m <= n <= |steps|
    ensures Rows(states[m], c) <= Rows(states[n], c)
    ensures forall i :: 0 <= i < |Rows(states[n], c)| ==> Rows(states[n], c)[i].number == i + 1
  {
    RunKeeps(states, steps, n);
    if m < n {
      AttemptsAreNumbered(states, steps, m, n - 1, c);
      assert IsStepOf(states, steps, n - 1);
      StepAddsAttempts(states[n - 1], steps[n - 1], c);
    }
  }

  lemma StepAddsAttempts(s: Ledger, step: Step, c: Id)
    requires MayFollow(s, step)
    ensures Rows(s, c) <= Rows(Next(s, step), c)
    ensures !step.Reconcile? ==> Rows(s, c) == Rows(Next(s, step), c)
  {
    match step
    case Reconcile(q, b) => PassTouches(s, DueCalls(s, q, s.now), b);
    case Resolve(_, _) =>
    case Resume(f, blocking, retryable, outcomes) =>
      if RefusalOf(s, f) == None {
        var mid, queued := ResumeInStages(s, f, blocking, retryable, outcomes);
      }
    case Environment(after) =>
  }

  /** An attempt that leaves its call open says when the next may be made. */
  ghost predicate AsksToWait(s: Ledger, t: Ledger, c: Id, backoff: int) {
    && |Rows(t, c)| == |Rows(s, c)| + 1
    && var a := Rows(t, c)[|Rows(s, c)|];
       a.nextRetry.Some? && a.nextRetry.value >= a.at + backoff
  }

  lemma ReconciledAsksToWait(s: Ledger, c: Id, b: Backends)
    requires c in s.calls && IsEligible(s.calls[c].status)
    requires c in Reconciled(s, c, b).calls && IsEligible(Reconciled(s, c, b).calls[c].status)
    ensures AsksToWait(s, Reconciled(s, c, b), c, b.backoff)
  {
    var t, call, made := ReconciledInStages(s, c, b);
    BookedTouches(t, c, call);
  }

  lemma {:induction false} PassAsksToWait(s: Ledger, q: seq<Id>, b: Backends, c: Id)
    requires c in s.calls && IsEligible(s.calls[c].status) && c in q
    requires forall i, j :: 0 <= i < j < |q| ==> q[i] != q[j]
    requires c in ReconcileAll(s, q, b).calls && IsEligible(ReconcileAll(s, q, b).calls[c].status)
    ensures AsksToWait(s, ReconcileAll(s, q, b), c, b.backoff)
  {
    var front, last := q[..|q| - 1], q[|q| - 1];
    var t := ReconcileAll(s, front, b);
    PassTouches(s, front, b);
    assert last !in front;
    ReconciledTouches(t, last, b);
    if c == last {
      ReconciledAsksToWait(t, c, b);
    } else {
      PassAsksToWait(s, front, b, c);
    }
  }

  /**
   Two attempts on a call are at least the backoff apart, if the first was made at step `m` and left
   the call uncertain or reconciling; nothing that happens in between shortens the wait.
   */
  lemma AttemptsKeepTheirDistance(states: seq<Ledger>, steps: seq<Step>, m: nat, n: nat, c: Id)
    requires IsRun(states, steps) && m < n <= |steps| && c in states[m].calls
    requires |Rows(states[m + 1], c)| > |Rows(states[m], c)|
    requires c in states[m + 1].calls && IsEligible(states[m + 1].calls[c].status)
    ensures steps[m].Reconcile? && |Rows(states[m + 1], c)| == |Rows(states[m], c)| + 1
    ensures var k := |Rows(states[m], c)|;
            |Rows(states[n], c)| > k + 1 ==> Rows(states[n], c)[k + 1].at >= Rows(states[n], c)[k].at + steps[m].backends.backoff
  {
    var s := states[m];
    assert IsStepOf(states, steps, m);
    StepAddsAttempts(s, steps[m], c);
    var q := DueCalls(s, steps[m].eligible, s.now);
    DueCallsAreDue(s, steps[m].eligible, s.now);
    PassTouches(s, q, steps[m].backends);
    assert c in q;
    PassAsksToWait(s, q, steps[m].backends, c);
    AttemptsAreNumbered(states, steps, m + 1, n, c);
    RunKeeps(states, steps, n);
    var rows := Rows(states[n], c);
    assert IsHistory(rows, states[n].now);
    var k := |Rows(s, c)|;
    assert rows[k] == Rows(states[m + 1], c)[k];
  }

  // ---------------------------------------------------------------- settled calls

  predicate IsSettled(status: CallStatus) {
    status in {Succeeded, Failed, ManualIntervention, Obsolete}
  }

  lemma ResumeLeavesAlone(s: Ledger, f: Facts, blocking: seq<Id>, retryable: seq<Id>, outcomes: map<Id, Outcome>, c: Id)
    requires RefusalOf(s, f) == None && AreResumeListings(s, blocking, retryable, outcomes)
    requires c in s.calls && s.calls[c].status != Planned && s.calls[c].status != FailedRetryable
    ensures var t := AfterResume(s, f, blocking, retryable, outcomes);
            c in t.calls && t.calls[c] == s.calls[c] && t.attempts == s.attempts
  {
    var mid, queued := ResumeInStages(s, f, blocking, retryable, outcomes);
    assert IsOutcome(s.calls[c], mid.calls[c]);
    RequeuedCall(mid, queued, c);
  }

  /** A pass leaves calls that are not open alone. */
  lemma PassLeavesAlone(s: Ledger, eligible: seq<Id>, b: Backends, c: Id)
    requires IsListing(eligible, Ranks(s.calls, {Uncertain, Reconciling})) && c in s.calls && !IsEligible(s.calls[c].status)
    ensures var t := AfterReconcileRun(s, eligible, b);
            c in t.calls && t.calls[c] == s.calls[c] && Rows(t, c) == Rows(s, c)
  {
    var q := DueCalls(s, eligible, s.now);
    DueCallsAreDue(s, eligible, s.now);
    assert c !in q;
    PassTouches(s, q, b);
  }

  /** Reconciling, resolving and resuming leave a settled call and its attempts alone. */
  lemma SettledCallsAreLeftAlone(s: Ledger, step: Step, c: Id)
    requires MayFollow(s, step) && !step.Environment? && c in s.calls && IsSettled(s.calls[c].status)
    ensures c in Next(s, step).calls && Next(s, step).calls[c] == s.calls[c] && Rows(Next(s, step), c) == Rows(s, c)
  {
    match step
    case Reconcile(q, b) => PassLeavesAlone(s, q, b, c);
    case Resolve(b, _) =>
    case Resume(f, blocking, retryable, outcomes) =>
      if RefusalOf(s, f) == None {
        ResumeLeavesAlone(s, f, blocking, retryable, outcomes, c);
      }
  }

  /** A call that needs migration stays as it is until a block is resolved. */
  lemma MigrationWaitsForResolution(s: Ledger, step: Step, c: Id)
    requires BlocksMatch(s.calls, s.blocks) && MayFollow(s, step) && !step.Resolve? && c in s.calls && s.calls[c].status == NeedsMigration
    ensures c in Next(s, step).calls && Next(s, step).calls[c] == s.calls[c] && Rows(Next(s, step), c) == Rows(s, c)
    ensures step.Resume? ==> Next(s, step) == s
  {
    match step
    case Reconcile(q, b) => PassLeavesAlone(s, q, b, c);
    case Resume(f, _, _, _) => OpenIdsAreOpen(s.blocks, c);
    case Environment(after) => assert IsExecution(s.calls[c], after.calls[c]);
  }

  /** The environment does not touch the call at step `i`. */
  ghost predicate LeavesAlone(states: seq<Ledger>, i: nat, c: Id)
    requires i + 1 < |states|
  {
    c in states[i].calls && c in states[i + 1].calls && states[i + 1].calls[c] == states[i].calls[c]
  }

  /** Over every history a settled call and its attempts stay as they are, unless the environment changes the call. */
  lemma {:induction false} SettledCallsStay(states: seq<Ledger>, steps: seq<Step>, m: nat, n: nat, c: Id)
    requires IsRun(states, steps) && m <= n <= |steps| && c in states[m].calls && IsSettled(states[m].calls[c].status)
    requires forall i :: m <= i < n && steps[i].Environment? ==> LeavesAlone(states, i, c)
    ensures c in states[n].calls && states[n].calls[c] == states[m].calls[c] && Rows(states[n], c) == Rows(states[m], c)
  {
    if m < n {
      SettledCallsStay(states, steps, m, n - 1, c);
      assert IsStepOf(states, steps, n - 1);
      if steps[n - 1].Environment? {
        assert LeavesAlone(states, n - 1, c);
      } else {
        SettledCallsAreLeftAlone(states[n - 1], steps[n - 1], c);
      }
    }
  }

  /** Over every history a call that needs migration waits, attempts and all, until some block is resolved. */
  lemma {:induction false} MigrationWaits(states: seq<Ledger>, steps: seq<Step>, m: nat, n: nat, c: Id)
    requires IsRun(states, steps) && m <= n <= |steps| && c in states[m].calls && states[m].calls[c].status == NeedsMigration
    requires forall i :: m <= i < n ==> !steps[i].Resolve?
    ensures c in states[n].calls && states[n].calls[c] == states[m].calls[c] && Rows(states[n], c) == Rows(states[m], c)
  {
    if m < n {
      MigrationWaits(states, steps, m, n - 1, c);
      assert IsStepOf(states, steps, n - 1);
      RunKeeps(states, steps, n - 1);
      MigrationWaitsForResolution(states[n - 1], steps[n - 1], c);
    }
  }

  // ---------------------------------------------------------------- what the queue may do

  /**
   Claiming a queued item is something the environment may do exactly when its call does not need migration;
   `claim_next` itself looks only for calls that are uncertain or reconciling.
   */
  lemma ClaimingIsAllowedExactlyWhen(s: Ledger, i: nat)
    requires i < |s.queue| && s.queue[i].status == Queued
    ensures IsEnvironment(s, Claimed(s, i)) <==>
              (s.queue[i].call in s.calls ==> s.calls[s.queue[i].call].status != NeedsMigration)
  {
    var t, c := Claimed(s, i), s.queue[i].call;
    forall x ensures AtMostOneActive(s.queue, x) ==> AtMostOneActive(t.queue, x) {
      assert forall j :: 0 <= j < |s.queue| && IsActiveItem(t.queue[j], x) ==> IsActiveItem(s.queue[j], x);
    }
    if c in s.calls {
      assert IsExecution(s.calls[c], t.calls[c]) <==> s.calls[c].status != NeedsMigration;
      assert forall x :: x in s.calls && x != c ==> t.calls[x] == s.calls[x];
    }
  }

  /** And if it does need migration, a block stays open for a call that no longer waits for it. */
  lemma ClaimingForgetsTheBlock(s: Ledger, i: nat)
    requires i < |s.queue| && s.queue[i].status == Queued && s.queue[i].call in s.calls && BlocksMatch(s.calls, s.blocks)
    ensures BlocksMatch(Claimed(s, i).calls, Claimed(s, i).blocks) <==> s.calls[s.queue[i].call].status != NeedsMigration
  {
    var t, c := Claimed(s, i), s.queue[i].call;
    assert t.calls[c].status != NeedsMigration;
    assert forall x :: x in s.calls && x != c ==> t.calls[x] == s.calls[x];
  }

  // ---------------------------------------------------------------- an ended run revived

  /** A history in which a cancelled run is running again: its only block was resolved. */
  lemma CancelledRunRevived(b: Backends) returns (states: seq<Ledger>, steps: seq<Step>)
    ensures IsRun(states, steps) && |steps| == 3 && steps[2].Resolve?
    ensures states[2].run.status == Cancelled && states[3].run.status == Running
  {
    var s0, s1 := ACallMigrates(b);
    var s2, s3 := CancelledThenResolved(s1);
    states, steps := ThreeSteps(s0, s1, s2, s3, Reconcile([1], b), Environment(s2), Resolve(0, NothingStale()));
  }

  lemma ThreeSteps(s0: Ledger, s1: Ledger, s2: Ledger, s3: Ledger, a: Step, b: Step, c: Step)
    returns (states: seq<Ledger>, steps: seq<Step>)
    requires IsStart(s0) && MayFollow(s0, a) && s1 == Next(s0, a)
    requires MayFollow(s1, b) && s2 == Next(s1, b) && MayFollow(s2, c) && s3 == Next(s2, c)
    ensures IsRun(states, steps) && states == [s0, s1, s2, s3] && steps == [a, b, c]
  {
    states, steps := [s0, s1, s2, s3], [a, b, c];
    assert IsStepOf(states, steps, 0) && IsStepOf(states, steps, 1) && IsStepOf(states, steps, 2);
  }

  lemma ACallMigrates(b: Backends) returns (s: Ledger, t: Ledger)
    ensures IsStart(s) && MayFollow(s, Reconcile([1], b)) && t == Next(s, Reconcile([1], b))
    ensures t.blocks == [Block(1, Open)] && t.now == 0 && forall c :: c in t.calls ==> t.calls[c].contract == None
  {
    s := Ledger(RunRow(Running, 0, [], None, 0, 0), map[1 := LostCall()], [], map[], [], [], 0);
    t := AfterReconcileRun(s, [1], b);
    OneCallMigrates(b);
  }

  lemma CancelledThenResolved(s: Ledger) returns (t: Ledger, u: Ledger)
    requires s.blocks == [Block(1, Open)] && s.now == 0 && forall c :: c in s.calls ==> s.calls[c].contract == None
    ensures MayFollow(s, Environment(t)) && t == Next(s, Environment(t)) && t.run.status == Cancelled
    ensures MayFollow(t, Resolve(0, NothingStale())) && u == Next(t, Resolve(0, NothingStale())) && u.run.status == Running
  {
    t := s.(run := s.run.(status := Cancelled));
    u := AfterResolve(t, 0, NothingStale());
    LastBlockResolved(t);
  }

  /** An uncertain call of a backend nobody has a contract with. */
  function LostCall(): Call {
    Call(0, 0, 0, Uncertain, TransportSentObserved, ReceiptFirst, true, None, [], false, false, None, NoRecovery, None,
         Terms(0, 0, None, None, 0))
  }

  function NothingStale(): Facts {
    Facts(Some(Checkpoint(0, 5)), 100, {5}, 5, [], [], map[], [], None, {})
  }

  lemma LastBlockResolved(s: Ledger)
    requires s.blocks == [Block(1, Open)] && s.now == 0 && forall c :: c in s.calls ==> s.calls[c].contract == None
    ensures AfterResolve(s, 0, NothingStale()).run.status == Running
  {
    var u := Unblocked(s, 0);
    assert u.blocks == [Block(1, Resolved)];
    assert OpenIds([]) == [] && u.blocks[..0] == [];
    assert OpenIds(u.blocks) == [];
    assert Verdict(u, NothingStale()) == Fresh;
  }

  lemma OneCallMigrates(b: Backends)
    ensures var s := Ledger(RunRow(Running, 0, [], None, 0, 0), map[1 := LostCall()], [], map[], [], [], 0);
            var t := AfterReconcileRun(s, [1], b);
            && IsListing([1], Ranks(s.calls, {Uncertain, Reconciling}))
            && t.now == 0 && t.blocks == [Block(1, Open)]
            && (forall c :: c in t.calls ==> t.calls[c].contract == None)
  {
    var s := Ledger(RunRow(Running, 0, [], None, 0, 0), map[1 := LostCall()], [], map[], [], [], 0);
    OneIsDue(s);
    OneIsPassedOver(s, b);
    LostCallMigrates(s, b);
  }

  lemma OneIsDue(s: Ledger)
    requires s.attempts == map[]
    ensures DueCalls(s, [1], 0) == [1]
  {
    assert [1][..0] == [];
    assert DueCalls(s, [], 0) == [];
  }

  lemma OneIsPassedOver(s: Ledger, b: Backends)
    ensures ReconcileAll(s, [1], b) == Reconciled(s, 1, b)
  {
    assert [1][..0] == [];
    assert ReconcileAll(s, [], b) == s;
  }

  lemma LostCallMigrates(s: Ledger, b: Backends)
    requires s.calls == map[1 := LostCall()] && s.blocks == [] && s.now == 0
    ensures var t := Reconciled(s, 1, b);
            t.now == 0 && t.blocks == [Block(1, Open)] && forall c :: c in t.calls ==> t.calls[c].contract == None
  {
    var recorded := Recorded(s, 1, UnsupportedVersion, None);
    var call := LostCall().(status := NeedsMigration, recovery := MigrationRequired, error := Some(ContractUnsupported));
    assert Reconciled(s, 1, b) == Booked(recorded, 1, call);
    FirstBlock(recorded, 1, call);
  }

  lemma FirstBlock(s: Ledger, c: Id, call: Call)
    requires s.blocks == [] && call.status == NeedsMigration
    ensures Booked(s, c, call).blocks == [Block(c, Open)] && Booked(s, c, call).now == s.now
    ensures Booked(s, c, call).calls == s.calls[c := call]
  {
    assert !HasOpenBlock(s.blocks, c);
  }
}
