/** What a resume that goes ahead gets done: which calls it executes, and which it queues again. */
module ResumeEffects {
  import opened Wrappers
  import opened ToolCalls
  import opened Listings
  import opened ReconcileModel
  import opened Freshness
  import opened RecoveryModel
  import opened RecoveryRuns
  import opened RecoverySafety
  import opened RunResume

  // ---------------------------------------------------------------- queueing again

  /** No worker has the call or can pick it up. */
  predicate IsIdle(queue: seq<QueueItem>, c: Id) {
    forall i :: 0 <= i < |queue| && queue[i].call == c ==> queue[i].status != Queued && queue[i].status != LeasedItem
  }

  lemma IdleMeansNoActiveItem(queue: seq<QueueItem>, c: Id)
    ensures IsIdle(queue, c) <==> !HasActiveItem(queue, c)
  {
    if !IsIdle(queue, c) {
      var i :| 0 <= i < |queue| && queue[i].call == c && queue[i].status in {Queued, LeasedItem};
      assert IsActiveItem(queue[i], c);
    }
  }

  /** `done` are new queued items at the end of the queue, one for each. */
  ghost predicate AreQueued(before: seq<QueueItem>, after: seq<QueueItem>, done: seq<Id>) {
    && |after| == |before| + |done|
    && (forall i :: 0 <= i < |before| ==> after[i] == before[i])
    && (forall i :: 0 <= i < |done| ==> after[|before| + i] == QueueItem(done[i], Queued))
  }

  /** `done` are the idle ones of `q`, in its order. */
  ghost predicate AreTheIdle(queue: seq<QueueItem>, q: seq<Id>, done: seq<Id>, ranks: map<Id, Rank>) {
    && IsSorted(done, ranks)
    && forall c :: c in done <==> c in q && IsIdle(queue, c)
  }

  /** Exactly the calls in `done` are planned again. */
  ghost predicate ArePlanned(s: map<Id, Call>, t: map<Id, Call>, done: seq<Id>) {
    && t.Keys == s.Keys
    && forall c :: c in s ==>
         t[c] == if c in done then s[c].(status := Planned, recovery := ResumeRetrySameKey) else s[c]
  }

  lemma IdleBefore(before: seq<QueueItem>, after: seq<QueueItem>, done: seq<Id>, c: Id)
    requires AreQueued(before, after, done) && c !in done
    ensures IsIdle(before, c) <==> IsIdle(after, c)
  {
    assert forall i :: 0 <= i < |done| ==> done[i] in done;
    assert forall i :: |before| <= i < |after| ==> after[i] == QueueItem(done[i - |before|], Queued);
  }

  lemma SortedOneMore(q: seq<Id>, done: seq<Id>, ranks: map<Id, Rank>)
    requires q != [] && IsSorted(q, ranks) && IsSorted(done, ranks) && forall c :: c in done ==> c in q[..|q| - 1]
    ensures IsSorted(done + [q[|q| - 1]], ranks)
    ensures forall c :: c in q <==> c in q[..|q| - 1] || c == q[|q| - 1]
  {
    var front, last := q[..|q| - 1], q[|q| - 1];
    assert q == front + [last];
    forall c | c in front ensures c != last && Before(ranks[c], ranks[last]) {
      var i :| 0 <= i < |front| && front[i] == c;
      assert q[i] == c;
    }
    forall i | 0 <= i < |done| ensures done[i] != last && Before(ranks[done[i]], ranks[last]) {
      assert done[i] in done;
    }
  }

  lemma {:induction false} SchedulingPlans(s: Ledger, q: seq<Id>, ranks: map<Id, Rank>)
    requires IsSorted(q, ranks) && forall c :: c in q ==> c in s.calls
    ensures var p := ScheduleAll(s, q);
            && AreQueued(s.queue, p.ledger.queue, p.done) && AreTheIdle(s.queue, q, p.done, ranks)
            && ArePlanned(s.calls, p.ledger.calls, p.done)
  {
    if q != [] {
      var front, last := q[..|q| - 1], q[|q| - 1];
      var p := ScheduleAll(s, front);
      SchedulingPlans(s, front, ranks);
      LastIsNew(q, ranks);
      assert last !in p.done;
      IdleBefore(s.queue, p.ledger.queue, p.done, last);
      IdleMeansNoActiveItem(p.ledger.queue, last);
      SortedOneMore(q, p.done, ranks);
      OneIsPlanned(s, p, last);
    }
  }

  lemma LastIsNew(q: seq<Id>, ranks: map<Id, Rank>)
    requires q != [] && IsSorted(q, ranks)
    ensures q[|q| - 1] !in q[..|q| - 1] && IsSorted(q[..|q| - 1], ranks)
  {
  }

  lemma OneIsPlanned(s: Ledger, p: Progress, c: Id)
    requires AreQueued(s.queue, p.ledger.queue, p.done) && ArePlanned(s.calls, p.ledger.calls, p.done)
    requires c in s.calls && c !in p.done
    ensures AreQueued(s.queue, ScheduleOne(p, c).ledger.queue, ScheduleOne(p, c).done)
    ensures ArePlanned(s.calls, ScheduleOne(p, c).ledger.calls, ScheduleOne(p, c).done)
  {
    if !HasActiveItem(p.ledger.queue, c) {
      assert forall x :: x in p.done + [c] <==> x in p.done || x == c;
    }
  }
  // ---------------------------------------------------------------- executing

  predicate IsReady(call: Call) {
    call.approvalRequired && call.approved && call.status == Planned
  }

  /** The call is as the executor left it. */
  predicate HasOutcome(was: Call, call: Call, o: Outcome) {
    && call == was.(status := call.status, effect := o.effect, output := o.output, error := o.error)
    && match o.ending
       case EndsSucceeded => call.status == Succeeded
       case EndsFailed => call.status == Failed
       case EndsManual => call.status == ManualIntervention
       case EndsUncertain => call.status == Uncertain
  }

  /** Exactly the calls in `q` that are ready were executed. */
  ghost predicate AreExecuted(s: map<Id, Call>, t: map<Id, Call>, q: seq<Id>, outcomes: map<Id, Outcome>) {
    && t.Keys == s.Keys
    && forall c :: c in s ==>
         if c in q && IsReady(s[c]) then HasOutcome(s[c], t[c], OutcomeFor(outcomes, c)) else t[c] == s[c]
  }

  /** `done` are the calls of `q` that have succeeded, in its order. */
  ghost predicate AreTheSucceeded(t: map<Id, Call>, q: seq<Id>, done: seq<Id>, ranks: map<Id, Rank>) {
    && IsSorted(done, ranks)
    && forall c :: c in done <==> c in q && c in t && t[c].status == Succeeded
  }

  lemma OneOutcome(p: Progress, c: Id, outcomes: map<Id, Outcome>)
    requires c in p.ledger.calls
    ensures var s, t := p.ledger.calls, ExecuteOne(p, c, outcomes).ledger.calls;
            && t.Keys == s.Keys && (forall x :: x in s && x != c ==> t[x] == s[x])
            && if IsReady(s[c]) then HasOutcome(s[c], t[c], OutcomeFor(outcomes, c)) else t[c] == s[c]
  {
  }

  lemma OneIsExecuted(s: map<Id, Call>, t: map<Id, Call>, u: map<Id, Call>, q: seq<Id>, outcomes: map<Id, Outcome>)
    requires q != [] && q[|q| - 1] in s && q[|q| - 1] !in q[..|q| - 1]
    requires AreExecuted(s, t, q[..|q| - 1], outcomes)
    requires var c := q[|q| - 1];
             && u.Keys == t.Keys && (forall x :: x in t && x != c ==> u[x] == t[x])
             && if IsReady(t[c]) then HasOutcome(t[c], u[c], OutcomeFor(outcomes, c)) else u[c] == t[c]
    ensures AreExecuted(s, u, q, outcomes)
  {
    var front, last := q[..|q| - 1], q[|q| - 1];
    assert q == front + [last];
  }

  lemma DoneIfSucceeded(p: Progress, c: Id, outcomes: map<Id, Outcome>)
    requires c in p.ledger.calls
    ensures var u := ExecuteOne(p, c, outcomes);
            c in u.ledger.calls && u.done == if u.ledger.calls[c].status == Succeeded then p.done + [c] else p.done
  {
  }

  lemma SucceededOneMore(t: map<Id, Call>, u: map<Id, Call>, q: seq<Id>, done: seq<Id>, ranks: map<Id, Rank>)
    requires q != [] && IsSorted(q, ranks) && AreTheSucceeded(t, q[..|q| - 1], done, ranks)
    requires q[|q| - 1] in u && u.Keys == t.Keys && forall x :: x in t && x != q[|q| - 1] ==> u[x] == t[x]
    ensures AreTheSucceeded(u, q, if u[q[|q| - 1]].status == Succeeded then done + [q[|q| - 1]] else done, ranks)
  {
    LastIsNew(q, ranks);
    SortedOneMore(q, done, ranks);
  }

  lemma {:induction false} ExecutingExecutes(s: Ledger, q: seq<Id>, outcomes: map<Id, Outcome>, ranks: map<Id, Rank>)
    requires IsSorted(q, ranks) && forall c :: c in q ==> c in s.calls
    ensures var p := ExecuteAll(s, q, outcomes);
            AreExecuted(s.calls, p.ledger.calls, q, outcomes) && AreTheSucceeded(p.ledger.calls, q, p.done, ranks)
  {
    if q != [] {
      var front, last := q[..|q| - 1], q[|q| - 1];
      var p := ExecuteAll(s, front, outcomes);
      ExecutingExecutes(s, front, outcomes, ranks);
      LastIsNew(q, ranks);
      OneOutcome(p, last, outcomes);
      OneIsExecuted(s.calls, p.ledger.calls, ExecuteOne(p, last, outcomes).ledger.calls, q, outcomes);
      DoneIfSucceeded(p, last, outcomes);
      SucceededOneMore(p.ledger.calls, ExecuteOne(p, last, outcomes).ledger.calls, q, p.done, ranks);
    }
  }
  /** The newest waiting item of each executed call tells how that went; all other items are as they were. */
  ghost predicate ItemsFollow(s: Ledger, t: Ledger, q: seq<Id>) {
    && |t.queue| == |s.queue|
    && forall i :: 0 <= i < |s.queue| ==> t.queue[i] == ItemAfter(s, t.calls, q, i)
  }

  function ItemAfter(s: Ledger, after: map<Id, Call>, q: seq<Id>, i: nat): QueueItem
    requires i < |s.queue|
  {
    var c := s.queue[i].call;
    if c in q && c in s.calls && IsReady(s.calls[c]) && i == WaitingItem(s.queue, c)
    then QueueItem(c, if c in after && after[c].status == Succeeded then CompletedItem else FailedItem)
    else s.queue[i]
  }

  lemma {:induction false} SameWaitingItem(a: seq<QueueItem>, b: seq<QueueItem>, c: Id)
    requires |a| == |b|
    requires forall i :: 0 <= i < |a| ==> a[i].call == b[i].call && (a[i].call == c ==> a[i] == b[i])
    ensures WaitingItem(a, c) == WaitingItem(b, c)
  {
    if a != [] {
      SameWaitingItem(a[..|a| - 1], b[..|b| - 1], c);
    }
  }

  lemma OneItemMoves(p: Progress, c: Id, outcomes: map<Id, Outcome>)
    requires c in p.ledger.calls
    ensures var t, u, i := p.ledger, ExecuteOne(p, c, outcomes).ledger, WaitingItem(p.ledger.queue, c);
            && c in u.calls
            && u.queue == if !IsReady(t.calls[c]) || i < 0 then t.queue
                          else t.queue[i := QueueItem(c, if u.calls[c].status == Succeeded then CompletedItem else FailedItem)]
  {
  }

  lemma OneItemFollows(s: Ledger, p: Progress, q: seq<Id>, outcomes: map<Id, Outcome>)
    requires q != [] && q[|q| - 1] in s.calls && q[|q| - 1] !in q[..|q| - 1]
    requires AreExecuted(s.calls, p.ledger.calls, q[..|q| - 1], outcomes) && ItemsFollow(s, p.ledger, q[..|q| - 1])
    ensures ItemsFollow(s, ExecuteOne(p, q[|q| - 1], outcomes).ledger, q)
  {
    var front, last := q[..|q| - 1], q[|q| - 1];
    var t, u := p.ledger, ExecuteOne(p, last, outcomes).ledger;
    forall i | 0 <= i < |s.queue|
      ensures s.queue[i].call == t.queue[i].call && (s.queue[i].call == last ==> s.queue[i] == t.queue[i])
    {
      assert t.queue[i] == ItemAfter(s, t.calls, front, i);
    }
    SameWaitingItem(s.queue, t.queue, last);
    OneOutcome(p, last, outcomes);
    OneItemMoves(p, last, outcomes);
    forall i | 0 <= i < |s.queue| ensures u.queue[i] == ItemAfter(s, u.calls, q, i) {
      assert t.queue[i] == ItemAfter(s, t.calls, front, i);
      ItemAfterOneMore(s, t.calls, u.calls, q, i);
    }
  }

  lemma ItemAfterOneMore(s: Ledger, t: map<Id, Call>, u: map<Id, Call>, q: seq<Id>, i: nat)
    requires i < |s.queue| && q != [] && q[|q| - 1] in s.calls && q[|q| - 1] in t && q[|q| - 1] !in q[..|q| - 1]
    requires u.Keys == t.Keys && forall x :: x in t && x != q[|q| - 1] ==> u[x] == t[x]
    ensures var c := q[|q| - 1];
            ItemAfter(s, u, q, i) ==
            if s.queue[i].call == c && IsReady(s.calls[c]) && i == WaitingItem(s.queue, c)
            then QueueItem(c, if u[c].status == Succeeded then CompletedItem else FailedItem)
            else ItemAfter(s, t, q[..|q| - 1], i)
  {
    var front, last := q[..|q| - 1], q[|q| - 1];
    assert q == front + [last];
  }

  lemma {:induction false} ItemsOfExecutedFollow(s: Ledger, q: seq<Id>, outcomes: map<Id, Outcome>, ranks: map<Id, Rank>)
    requires IsSorted(q, ranks) && forall c :: c in q ==> c in s.calls
    ensures ItemsFollow(s, ExecuteAll(s, q, outcomes).ledger, q)
  {
    if q != [] {
      var front, last := q[..|q| - 1], q[|q| - 1];
      LastIsNew(q, ranks);
      assert last in q;
      ItemsOfExecutedFollow(s, front, outcomes, ranks);
      ExecutingExecutes(s, front, outcomes, ranks);
      OneItemFollows(s, ExecuteAll(s, front, outcomes), q, outcomes);
    }
  }
  // ---------------------------------------------------------------- a resume that goes ahead

  ghost predicate IsResume(s: Ledger, t: Ledger, f: Facts, blocking: seq<Id>, retryable: seq<Id>, outcomes: map<Id, Outcome>) {
    && RefusalOf(s, f) == None && AreResumeListings(s, blocking, retryable, outcomes)
    && t == AfterResume(s, f, blocking, retryable, outcomes)
  }

  /** The two lists a resume reports, in its answer and in the event it leaves. */
  ghost predicate Reports(s: Ledger, t: Ledger, f: Facts, blocking: seq<Id>, retryable: seq<Id>, outcomes: map<Id, Outcome>,
                          scheduled: seq<Id>, executed: seq<Id>)
  {
    && IsAnswer(s, t, f, blocking, retryable, outcomes, Resumed(scheduled, executed, t.run.blocking))
    && t.events != [] && t.events[|t.events| - 1] == RunResumed(scheduled, executed)
  }

  /** The ledger between executing and queueing again. */
  function Midway(s: Ledger, blocking: seq<Id>, outcomes: map<Id, Outcome>): Ledger {
    ExecuteAll(Checked(s, Continue), blocking, outcomes).ledger
  }

  lemma MidwayExecutes(s: Ledger, blocking: seq<Id>, outcomes: map<Id, Outcome>)
    ensures OnlyExecutes(s, Midway(s, blocking, outcomes))
  {
    var start := Checked(s, Continue);
    ExecutingKeeps(start, blocking, outcomes);
    assert OnlyExecutes(s, start);
    ExecutionsCompose(s, start, Midway(s, blocking, outcomes));
  }

  lemma MidwayIsExecuted(s: Ledger, blocking: seq<Id>, outcomes: map<Id, Outcome>) returns (executed: seq<Id>)
    requires IsListing(blocking, BlockingRanks(s))
    ensures executed == ExecuteAll(Checked(s, Continue), blocking, outcomes).done
    ensures AreExecuted(s.calls, Midway(s, blocking, outcomes).calls, blocking, outcomes)
    ensures AreTheSucceeded(Midway(s, blocking, outcomes).calls, blocking, executed, BlockingRanks(s))
  {
    executed := ExecuteAll(Checked(s, Continue), blocking, outcomes).done;
    ExecutingExecutes(Checked(s, Continue), blocking, outcomes, BlockingRanks(s));
  }

  lemma MidwayItems(s: Ledger, blocking: seq<Id>, outcomes: map<Id, Outcome>)
    requires IsListing(blocking, BlockingRanks(s))
    ensures ItemsFollow(s, Midway(s, blocking, outcomes), blocking)
  {
    var start, mid := Checked(s, Continue), Midway(s, blocking, outcomes);
    ItemsOfExecutedFollow(start, blocking, outcomes, BlockingRanks(s));
    forall i | 0 <= i < |s.queue| ensures mid.queue[i] == ItemAfter(s, mid.calls, blocking, i) {
      assert mid.queue[i] == ItemAfter(start, mid.calls, blocking, i);
    }
  }

  lemma ThenQueuedAgain(s: Ledger, t: Ledger, f: Facts, blocking: seq<Id>, retryable: seq<Id>, outcomes: map<Id, Outcome>)
    returns (scheduled: seq<Id>, executed: seq<Id>)
    requires IsResume(s, t, f, blocking, retryable, outcomes)
    ensures Reports(s, t, f, blocking, retryable, outcomes, scheduled, executed)
    ensures executed == ExecuteAll(Checked(s, Continue), blocking, outcomes).done
    ensures var mid := Midway(s, blocking, outcomes);
            && AreQueued(mid.queue, t.queue, scheduled) && ArePlanned(mid.calls, t.calls, scheduled)
            && AreTheIdle(mid.queue, retryable, scheduled, RetryableRanks(mid))
  {
    var mid := Midway(s, blocking, outcomes);
    executed := ExecuteAll(Checked(s, Continue), blocking, outcomes).done;
    scheduled := ScheduleAll(mid, retryable).done;
    SchedulingPlans(mid, retryable, RetryableRanks(mid));
  }

  /** By step and attempt. */
  function AllRanks(calls: map<Id, Call>): map<Id, Rank> {
    map c | c in calls :: (calls[c].step, calls[c].attempt)
  }

  lemma RanksStay(calls: map<Id, Call>, ranks: map<Id, Rank>, q: seq<Id>)
    requires IsSorted(q, ranks)
    requires forall c :: c in ranks ==> c in calls && ranks[c] == (calls[c].step, calls[c].attempt)
    ensures IsSorted(q, AllRanks(calls))
  {
    var all := AllRanks(calls);
    forall i, j | 0 <= i < j < |q| ensures q[i] != q[j] && Before(all[q[i]], all[q[j]]) {
      assert Before(ranks[q[i]], ranks[q[j]]);
    }
  }

  predicate IsRetryable(calls: map<Id, Call>, c: Id) {
    c in calls && calls[c].status == FailedRetryable
  }

  /** Executing approved calls leaves those that wait to be retried, and their items, alone. */
  lemma RetryableStay(s: Ledger, mid: Ledger, c: Id)
    requires OnlyExecutes(s, mid)
    ensures IsRetryable(s.calls, c) <==> IsRetryable(mid.calls, c)
    ensures IsRetryable(s.calls, c) ==> mid.calls[c] == s.calls[c] && (IsIdle(s.queue, c) <==> IsIdle(mid.queue, c))
  {
    if c in s.calls {
      assert IsOutcome(s.calls[c], mid.calls[c]);
    }
  }

  /** What is scheduled are the retryable calls that no worker has or can pick up. */
  ghost predicate AreTheWaiting(s: Ledger, scheduled: seq<Id>) {
    forall c :: c in scheduled <==> IsRetryable(s.calls, c) && IsIdle(s.queue, c)
  }

  lemma WaitingAreScheduled(s: Ledger, mid: Ledger, retryable: seq<Id>, scheduled: seq<Id>)
    requires OnlyExecutes(s, mid) && IsListing(retryable, RetryableRanks(mid))
    requires AreTheIdle(mid.queue, retryable, scheduled, RetryableRanks(mid))
    ensures AreTheWaiting(s, scheduled)
  {
    forall c ensures c in scheduled <==> IsRetryable(s.calls, c) && IsIdle(s.queue, c) {
      RetryableStay(s, mid, c);
      assert c in retryable <==> c in RetryableRanks(mid);
    }
  }

  lemma ScheduledInOrder(s: Ledger, mid: Ledger, scheduled: seq<Id>)
    requires OnlyExecutes(s, mid) && IsSorted(scheduled, RetryableRanks(mid))
    ensures IsSorted(scheduled, AllRanks(s.calls))
  {
    forall c | c in RetryableRanks(mid)
      ensures c in s.calls && RetryableRanks(mid)[c] == (s.calls[c].step, s.calls[c].attempt)
    {
      assert IsOutcome(s.calls[c], mid.calls[c]);
    }
    RanksStay(s.calls, RetryableRanks(mid), scheduled);
  }

  /** Someone has the retryable call or can pick it up, and if nobody could it is planned again. */
  ghost predicate IsServed(s: Ledger, t: Ledger, c: Id)
    requires c in s.calls
  {
    && c in t.calls && !IsIdle(t.queue, c)
    && t.calls[c] == if IsIdle(s.queue, c) then s.calls[c].(status := Planned, recovery := ResumeRetrySameKey) else s.calls[c]
  }

  lemma OneIsServed(s: Ledger, mid: Ledger, t: Ledger, scheduled: seq<Id>, c: Id)
    requires OnlyExecutes(s, mid) && AreQueued(mid.queue, t.queue, scheduled) && ArePlanned(mid.calls, t.calls, scheduled)
    requires AreTheWaiting(s, scheduled) && IsRetryable(s.calls, c)
    ensures IsServed(s, t, c)
  {
    RetryableStay(s, mid, c);
    if c in scheduled {
      var i :| 0 <= i < |scheduled| && scheduled[i] == c;
      assert t.queue[|mid.queue| + i] == QueueItem(c, Queued);
    } else {
      IdleBefore(mid.queue, t.queue, scheduled, c);
    }
  }

  /** New queued items at the end of the queue, one for each of `scheduled` in order. */
  ghost predicate AreAppended(before: seq<QueueItem>, after: seq<QueueItem>, scheduled: seq<Id>) {
    && |after| == |before| + |scheduled|
    && forall i :: 0 <= i < |scheduled| ==> after[|before| + i] == QueueItem(scheduled[i], Queued)
  }

  lemma AppendedTo(before: seq<QueueItem>, mid: seq<QueueItem>, after: seq<QueueItem>, scheduled: seq<Id>)
    requires |mid| == |before| && AreQueued(mid, after, scheduled)
    ensures AreAppended(before, after, scheduled)
  {
  }

  /**
   A resume that goes ahead leaves no retryable call behind.  It reports exactly those no worker has or can pick
   up, by step and attempt, and puts one queued item for each at the end of the queue, in that order.
   */
  lemma EveryRetryableCallIsQueued(s: Ledger, t: Ledger, f: Facts, blocking: seq<Id>, retryable: seq<Id>, outcomes: map<Id, Outcome>)
    returns (scheduled: seq<Id>, executed: seq<Id>)
    requires IsResume(s, t, f, blocking, retryable, outcomes)
    ensures Reports(s, t, f, blocking, retryable, outcomes, scheduled, executed)
    ensures AreTheWaiting(s, scheduled) && IsSorted(scheduled, AllRanks(s.calls)) && AreAppended(s.queue, t.queue, scheduled)
    ensures forall c :: IsRetryable(s.calls, c) ==> IsServed(s, t, c)
  {
    var mid := Midway(s, blocking, outcomes);
    scheduled, executed := ThenQueuedAgain(s, t, f, blocking, retryable, outcomes);
    MidwayExecutes(s, blocking, outcomes);
    WaitingAreScheduled(s, mid, retryable, scheduled);
    ScheduledInOrder(s, mid, scheduled);
    AppendedTo(s.queue, mid.queue, t.queue, scheduled);
    forall c | IsRetryable(s.calls, c) ensures IsServed(s, t, c) {
      OneIsServed(s, mid, t, scheduled, c);
    }
  }

  /** The call is as the executor left it if it was blocking and ready, and as it was otherwise. */
  ghost predicate IsExecutedIfReady(s: Ledger, t: Ledger, outcomes: map<Id, Outcome>, c: Id)
    requires c in s.calls
  {
    && c in t.calls
    && if c in s.run.blocking && IsReady(s.calls[c]) then HasOutcome(s.calls[c], t.calls[c], OutcomeFor(outcomes, c))
       else t.calls[c] == s.calls[c]
  }

  lemma OneIsExecutedIfReady(s: Ledger, mid: Ledger, t: Ledger, blocking: seq<Id>, scheduled: seq<Id>, outcomes: map<Id, Outcome>, c: Id)
    requires AreExecuted(s.calls, mid.calls, blocking, outcomes) && ArePlanned(mid.calls, t.calls, scheduled)
    requires IsListing(blocking, BlockingRanks(s)) && AreTheWaiting(s, scheduled)
    requires c in s.calls && !IsRetryable(s.calls, c)
    ensures IsExecutedIfReady(s, t, outcomes, c) && t.calls[c] == mid.calls[c]
  {
    assert c in blocking <==> c in BlockingRanks(s);
  }

  /** What is reported as executed are the blocking calls that have succeeded by then. */
  ghost predicate AreTheDone(s: Ledger, t: Ledger, executed: seq<Id>) {
    forall c :: c in executed <==> c in s.run.blocking && c in t.calls && t.calls[c].status == Succeeded
  }

  lemma DoneAreReported(s: Ledger, mid: Ledger, t: Ledger, blocking: seq<Id>, scheduled: seq<Id>, executed: seq<Id>)
    requires AreTheSucceeded(mid.calls, blocking, executed, BlockingRanks(s)) && ArePlanned(mid.calls, t.calls, scheduled)
    requires IsListing(blocking, BlockingRanks(s)) && mid.calls.Keys == s.calls.Keys
    requires forall c :: c in scheduled ==> IsRetryable(mid.calls, c)
    ensures AreTheDone(s, t, executed)
  {
    forall c ensures c in executed <==> c in s.run.blocking && c in t.calls && t.calls[c].status == Succeeded {
      assert c in blocking <==> c in BlockingRanks(s);
    }
  }

  lemma ItemsStay(s: Ledger, mid: Ledger, t: Ledger, blocking: seq<Id>, scheduled: seq<Id>, i: nat)
    requires ItemsFollow(s, mid, blocking) && AreQueued(mid.queue, t.queue, scheduled) && i < |s.queue|
    requires IsListing(blocking, BlockingRanks(s))
    requires var c := s.queue[i].call; c in s.calls && IsReady(s.calls[c]) ==> c in mid.calls && c in t.calls && t.calls[c] == mid.calls[c]
    ensures i < |t.queue| && t.queue[i] == ItemAfter(s, t.calls, s.run.blocking, i)
  {
    var c := s.queue[i].call;
    assert mid.queue[i] == ItemAfter(s, mid.calls, blocking, i);
    assert c in blocking <==> c in BlockingRanks(s);
  }

  /**
   A resume that goes ahead executes every blocking call that is ready, and leaves all others that are not retryable
   alone.  It reports exactly the blocking calls that have succeeded by then, by step and attempt.  The newest
   waiting item of each executed call tells how that went; no other item of the queue is touched.
   */
  lemma EveryApprovedCallIsExecuted(s: Ledger, t: Ledger, f: Facts, blocking: seq<Id>, retryable: seq<Id>, outcomes: map<Id, Outcome>)
    returns (scheduled: seq<Id>, executed: seq<Id>)
    requires IsResume(s, t, f, blocking, retryable, outcomes)
    ensures Reports(s, t, f, blocking, retryable, outcomes, scheduled, executed)
    ensures AreTheDone(s, t, executed) && IsSorted(executed, AllRanks(s.calls))
    ensures forall c :: c in s.calls && !IsRetryable(s.calls, c) ==> IsExecutedIfReady(s, t, outcomes, c)
    ensures |s.queue| <= |t.queue|
    ensures forall i :: 0 <= i < |s.queue| ==> t.queue[i] == ItemAfter(s, t.calls, s.run.blocking, i)
  {
    var mid := Midway(s, blocking, outcomes);
    scheduled, executed := ThenQueuedAgain(s, t, f, blocking, retryable, outcomes);
    MidwayExecutes(s, blocking, outcomes);
    var done := MidwayIsExecuted(s, blocking, outcomes);
    MidwayItems(s, blocking, outcomes);
    WaitingAreScheduled(s, mid, retryable, scheduled);
    forall c | c in scheduled ensures IsRetryable(mid.calls, c) {
      RetryableStay(s, mid, c);
    }
    DoneAreReported(s, mid, t, blocking, scheduled, executed);
    RanksStay(s.calls, BlockingRanks(s), executed);
    forall c | c in s.calls && !IsRetryable(s.calls, c) ensures IsExecutedIfReady(s, t, outcomes, c) && t.calls[c] == mid.calls[c] {
      OneIsExecutedIfReady(s, mid, t, blocking, scheduled, outcomes, c);
    }
    forall i | 0 <= i < |s.queue| ensures t.queue[i] == ItemAfter(s, t.calls, s.run.blocking, i) {
      ItemsStay(s, mid, t, blocking, scheduled, i);
    }
  }
  // ---------------------------------------------------------------- the run's progress

  /** The call was executed and succeeded. */
  predicate Succeeds(s: map<Id, Call>, t: map<Id, Call>, q: seq<Id>, c: Id) {
    c in q && c in s && IsReady(s[c]) && c in t && t[c].status == Succeeded
  }

  /** The step index is past every call that was executed and succeeded, and no further than that takes. */
  ghost predicate IsPast(before: int, after: int, s: map<Id, Call>, t: map<Id, Call>, q: seq<Id>) {
    && before <= after && (forall c :: Succeeds(s, t, q, c) ==> s[c].step < after)
    && (after == before || exists c :: Succeeds(s, t, q, c) && after == s[c].step + 1)
  }

  lemma OneAdvances(p: Progress, c: Id, outcomes: map<Id, Outcome>)
    requires c in p.ledger.calls
    ensures var s, t, done := p.ledger, ExecuteOne(p, c, outcomes).ledger, ExecuteOne(p, c, outcomes).done;
            && c in t.calls
            && t.run.stepIndex == (if IsReady(s.calls[c]) && t.calls[c].status == Succeeded && s.run.stepIndex < s.calls[c].step + 1
                                   then s.calls[c].step + 1 else s.run.stepIndex)
            && t.run.iteration - |done| == s.run.iteration - |p.done| - (if s.calls[c].status == Succeeded then 1 else 0)
  {
  }

  lemma {:induction false} ExecutingAdvances(s: Ledger, q: seq<Id>, outcomes: map<Id, Outcome>, ranks: map<Id, Rank>)
    requires IsSorted(q, ranks) && forall c :: c in q ==> c in s.calls
    ensures var p := ExecuteAll(s, q, outcomes);
            && IsPast(s.run.stepIndex, p.ledger.run.stepIndex, s.calls, p.ledger.calls, q)
            && p.ledger.run.iteration == s.run.iteration + |p.done| - CountIn(s.calls, q, {Succeeded})
  {
    if q != [] {
      var front, last := q[..|q| - 1], q[|q| - 1];
      var p := ExecuteAll(s, front, outcomes);
      LastIsNew(q, ranks);
      assert last in q;
      ExecutingAdvances(s, front, outcomes, ranks);
      ExecutingExecutes(s, front, outcomes, ranks);
      OneAdvances(p, last, outcomes);
      OneOutcome(p, last, outcomes);
      PastOneMore(s.run.stepIndex, p.ledger.run.stepIndex, ExecuteOne(p, last, outcomes).ledger.run.stepIndex,
                  s.calls, p.ledger.calls, ExecuteOne(p, last, outcomes).ledger.calls, q);
    }
  }

  lemma PastOneMore(before: int, mid: int, after: int, s: map<Id, Call>, t: map<Id, Call>, u: map<Id, Call>, q: seq<Id>)
    requires q != [] && q[|q| - 1] in s && q[|q| - 1] in u && q[|q| - 1] !in q[..|q| - 1]
    requires IsPast(before, mid, s, t, q[..|q| - 1])
    requires u.Keys == t.Keys && forall x :: x in t && x != q[|q| - 1] ==> u[x] == t[x]
    requires var c := q[|q| - 1];
             after == if IsReady(s[c]) && u[c].status == Succeeded && mid < s[c].step + 1 then s[c].step + 1 else mid
    ensures IsPast(before, after, s, u, q)
  {
    var front, last := q[..|q| - 1], q[|q| - 1];
    assert q == front + [last];
    forall c ensures Succeeds(s, u, q, c) <==> Succeeds(s, t, front, c) || (c == last && IsReady(s[last]) && u[last].status == Succeeded) {
    }
    if after == mid && mid != before {
      var c :| Succeeds(s, t, front, c) && mid == s[c].step + 1;
      assert Succeeds(s, u, q, c);
    } else if after != mid {
      assert Succeeds(s, u, q, last);
    }
  }

  lemma {:induction false} SchedulingKeepsTheRun(s: Ledger, q: seq<Id>)
    ensures ScheduleAll(s, q).ledger.run == s.run
  {
    if q != [] {
      SchedulingKeepsTheRun(s, q[..|q| - 1]);
    }
  }

  lemma AdvancedMidway(s: Ledger, t: Ledger, f: Facts, blocking: seq<Id>, retryable: seq<Id>, outcomes: map<Id, Outcome>)
    requires IsResume(s, t, f, blocking, retryable, outcomes)
    ensures t.run.iteration ==
            s.run.iteration + |ExecuteAll(Checked(s, Continue), blocking, outcomes).done| - CountIn(s.calls, blocking, {Succeeded})
    ensures IsPast(s.run.stepIndex, t.run.stepIndex, s.calls, Midway(s, blocking, outcomes).calls, blocking)
  {
    ExecutingAdvances(Checked(s, Continue), blocking, outcomes, BlockingRanks(s));
    SchedulingKeepsTheRun(Midway(s, blocking, outcomes), retryable);
  }

  lemma SameSuccesses(s: Ledger, mid: Ledger, t: Ledger, blocking: seq<Id>, scheduled: seq<Id>, outcomes: map<Id, Outcome>, c: Id)
    requires AreExecuted(s.calls, mid.calls, blocking, outcomes) && ArePlanned(mid.calls, t.calls, scheduled)
    requires IsListing(blocking, BlockingRanks(s)) && AreTheWaiting(s, scheduled)
    ensures Succeeds(s.calls, t.calls, blocking, c) <==> Succeeds(s.calls, mid.calls, blocking, c)
  {
    if c in s.calls && IsReady(s.calls[c]) {
      OneIsExecutedIfReady(s, mid, t, blocking, scheduled, outcomes, c);
    }
  }

  lemma PastAlike(before: int, after: int, s: map<Id, Call>, t: map<Id, Call>, u: map<Id, Call>, q: seq<Id>)
    requires IsPast(before, after, s, t, q) && forall c :: Succeeds(s, u, q, c) <==> Succeeds(s, t, q, c)
    ensures IsPast(before, after, s, u, q)
  {
  }

  /** A resume that goes ahead counts one iteration, and moves past one step, for each call it executed that succeeded. */
  lemma ExecutedCallsAreCounted(s: Ledger, t: Ledger, f: Facts, blocking: seq<Id>, retryable: seq<Id>, outcomes: map<Id, Outcome>)
    returns (scheduled: seq<Id>, executed: seq<Id>)
    requires IsResume(s, t, f, blocking, retryable, outcomes)
    ensures Reports(s, t, f, blocking, retryable, outcomes, scheduled, executed)
    ensures t.run.iteration == s.run.iteration + |executed| - CountIn(s.calls, blocking, {Succeeded})
    ensures IsPast(s.run.stepIndex, t.run.stepIndex, s.calls, t.calls, blocking)
  {
    var mid := Midway(s, blocking, outcomes);
    scheduled, executed := ThenQueuedAgain(s, t, f, blocking, retryable, outcomes);
    AdvancedMidway(s, t, f, blocking, retryable, outcomes);
    MidwayExecutes(s, blocking, outcomes);
    var done := MidwayIsExecuted(s, blocking, outcomes);
    WaitingAreScheduled(s, mid, retryable, scheduled);
    forall c ensures Succeeds(s.calls, t.calls, blocking, c) <==> Succeeds(s.calls, mid.calls, blocking, c) {
      SameSuccesses(s, mid, t, blocking, scheduled, outcomes, c);
    }
    PastAlike(s.run.stepIndex, t.run.stepIndex, s.calls, mid.calls, t.calls, blocking);
  }

  // ---------------------------------------------------------------- when a resume is refused

  /** A resume goes ahead exactly when the run has not ended, no block is open and every check of the gate passes. */
  lemma ResumeGoesAheadExactlyWhen(s: Ledger, f: Facts)
    ensures RefusalOf(s, f) == None <==>
              && s.run.status !in {Completed, FailedRun, Cancelled}
              && (forall i :: 0 <= i < |s.blocks| ==> s.blocks[i].status != Open)
              && (forall r :: Passes(r, s, f))
  {
    SomeBlockIsOpen(s.blocks);
    TheFirstFailureDecides(s, f);
  }

  /** A refused resume changes nothing, except that a run that rests on something stale is paused and told why. */
  lemma RefusedResumesOnlyPause(s: Ledger, f: Facts, blocking: seq<Id>, retryable: seq<Id>, outcomes: map<Id, Outcome>)
    requires RefusalOf(s, f).Some?
    ensures var t := AfterResume(s, f, blocking, retryable, outcomes);
            if s.run.status in {Completed, FailedRun, Cancelled} || exists i :: 0 <= i < |s.blocks| && s.blocks[i].status == Open
            then t == s
            else
              && t == s.(run := s.run.(status := Paused, error := t.run.error), events := t.events)
              && t.run.error == Some(if ActionOf(Verdict(s, f)) == Replan then StaleCheckpoint else ActionNeeded(ActionOf(Verdict(s, f))))
  {
    SomeBlockIsOpen(s.blocks);
  }
}
