/** Resuming a run that was paused. */
module RunResume {
  import opened Wrappers
  import opened ToolCalls
  import opened Listings
  import opened ReconcileModel
  import opened Freshness
  import opened RecoveryModel
  import opened RunLedger

  /** What the caller is told. */
  datatype ResumeAnswer =
    | NotResumed(refusal: Refusal)
    | Resumed(scheduled: seq<Id>, executed: seq<Id>, remaining: seq<Id>)

  ghost predicate IsAnswer(s: Ledger, t: Ledger, f: Facts, blocking: seq<Id>, retryable: seq<Id>, outcomes: map<Id, Outcome>,
                           answer: ResumeAnswer)
  {
    match RefusalOf(s, f)
    case Some(refusal) => answer == NotResumed(refusal)
    case None =>
      var executed := ExecuteAll(Checked(s, Continue), blocking, outcomes);
      answer == Resumed(ScheduleAll(executed.ledger, retryable).done, executed.done, t.run.blocking)
  }

  class AgentRunResumeService {
    const ledger: AgentRunLedger

    constructor (ledger: AgentRunLedger)
      ensures this.ledger == ledger
    {
      this.ledger := ledger;
    }

    method ResumeRun(f: Facts, outcomes: map<Id, Outcome>) returns (answer: ResumeAnswer)
      modifies ledger
      ensures exists blocking, retryable ::
                && (RefusalOf(old(ledger.State()), f) == None ==> AreResumeListings(old(ledger.State()), blocking, retryable, outcomes))
                && ledger.State() == AfterResume(old(ledger.State()), f, blocking, retryable, outcomes)
                && IsAnswer(old(ledger.State()), ledger.State(), f, blocking, retryable, outcomes, answer)
    {
      ghost var s := ledger.State();
      var refusal := MayResume(f);
      if refusal.Some? {
        answer := NotResumed(refusal.value);
        assert IsAnswer(s, ledger.State(), f, [], [], outcomes, answer);
        return;
      }
      ledger.AppendEvent(FreshnessChecked(Continue));
      var blocking, executed := ExecuteApprovedBlockingToolCalls(outcomes);
      var retryable, scheduled := ScheduleRetryableToolCalls();
      var remaining := RemainingBlockingToolCallIds();
      Finish(remaining, scheduled, executed);
      answer := Resumed(scheduled, executed, remaining);
      assert AreResumeListings(s, blocking, retryable, outcomes);
      assert IsAnswer(s, ledger.State(), f, blocking, retryable, outcomes, answer);
    }

    method MayResume(f: Facts) returns (refusal: Option<Refusal>)
      modifies ledger`run, ledger`events
      ensures refusal == RefusalOf(old(ledger.State()), f)
      ensures ledger.State() == if refusal.Some? then AfterRefusal(old(ledger.State()), refusal.value) else old(ledger.State())
    {
      if IsTerminal(ledger.run.status) {
        return Some(Ended);
      }
      if OpenIds(ledger.blocks) != [] {
        return Some(HasBlocks);
      }
      var reason := Evaluate(ledger.State(), f);
      var action := ActionOf(reason);
      if action == Continue {
        return None;
      }
      ledger.AppendEvent(FreshnessChecked(action));
      ledger.run := ledger.run.(status := Paused);
      ledger.run := ledger.run.(error := Some(if action == Replan then StaleCheckpoint else ActionNeeded(action)));
      ledger.AppendEvent(RunPaused(action));
      assert ledger.events == old(ledger.events) + [FreshnessChecked(action), RunPaused(action)];
      return Some(IsStale(reason));
    }

    method ExecuteApprovedBlockingToolCalls(outcomes: map<Id, Outcome>) returns (ghost q: seq<Id>, executed: seq<Id>)
      modifies ledger
      ensures IsListing(q, BlockingRanks(old(ledger.State())))
      ensures Progress(ledger.State(), executed) == ExecuteAll(old(ledger.State()), q, outcomes)
    {
      var calls := Listing(BlockingRanks(ledger.State()));
      executed := [];
      for i := 0 to |calls|
        invariant Progress(ledger.State(), executed) == ExecuteAll(old(ledger.State()), calls[..i], outcomes)
      {
        assert calls[..i + 1][..i] == calls[..i];
        var done := ExecuteBlocking(calls[i], outcomes, executed);
        if done {
          executed := executed + [calls[i]];
        }
      }
      assert calls[..|calls|] == calls;
      q := calls;
    }

    /** Whether the call's result can be used: it had succeeded, or does so now. */
    method ExecuteBlocking(c: Id, outcomes: map<Id, Outcome>, ghost executed: seq<Id>) returns (done: bool)
      modifies ledger
      ensures Progress(ledger.State(), if done then executed + [c] else executed) ==
                ExecuteOne(Progress(old(ledger.State()), executed), c, outcomes)
    {
      if c !in ledger.calls {
        return false;
      }
      if ledger.calls[c].status == Succeeded {
        return true;
      }
      if !ledger.calls[c].approvalRequired || !ledger.calls[c].approved || ledger.calls[c].status != Planned {
        return false;
      }
      ExecuteToolCall(c, outcomes);
      if ledger.calls[c].status == Succeeded {
        var step := ledger.calls[c].step + 1;
        ledger.run := ledger.run.(iteration := ledger.run.iteration + 1);
        ledger.run := ledger.run.(stepIndex := if ledger.run.stepIndex < step then step else ledger.run.stepIndex);
        ledger.AppendEvent(ResultObserved(c));
        return true;
      }
      return false;
    }

    /** The executor: what becomes of the call is decided outside. */
    method ExecuteToolCall(c: Id, outcomes: map<Id, Outcome>)
      requires c in ledger.calls
      modifies ledger`calls, ledger`queue
      ensures ledger.State() == Executed(old(ledger.State()), c, OutcomeFor(outcomes, c))
    {
      var o := OutcomeFor(outcomes, c);
      var item := WaitingItem(ledger.queue, c);
      ledger.calls := ledger.calls[c :=
        ledger.calls[c].(status := StatusOf(o.ending), effect := o.effect, output := o.output, error := o.error)];
      if item >= 0 {
        ledger.queue := ledger.queue[item := QueueItem(c, if o.ending == EndsSucceeded then CompletedItem else FailedItem)];
      }
    }

    method ScheduleRetryableToolCalls() returns (ghost q: seq<Id>, scheduled: seq<Id>)
      modifies ledger`calls, ledger`queue
      ensures IsListing(q, RetryableRanks(old(ledger.State())))
      ensures Progress(ledger.State(), scheduled) == ScheduleAll(old(ledger.State()), q)
    {
      var calls := Listing(RetryableRanks(ledger.State()));
      scheduled := [];
      for i := 0 to |calls|
        invariant Progress(ledger.State(), scheduled) == ScheduleAll(old(ledger.State()), calls[..i])
        invariant forall c :: c in old(ledger.calls) <==> c in ledger.calls
      {
        assert calls[..i + 1][..i] == calls[..i];
        var c := calls[i];
        if i :| 0 <= i < |ledger.queue| && ledger.queue[i].call == c && ledger.queue[i].status in {Queued, LeasedItem} {
          assert IsActiveItem(ledger.queue[i], c);
          continue;
        }
        assert !HasActiveItem(ledger.queue, c);
        var call := ledger.calls[c];
        call := call.(status := Planned);
        call := call.(recovery := ResumeRetrySameKey);
        ledger.calls := ledger.calls[c := call];
        ledger.Enqueue(c);
        scheduled := scheduled + [c];
      }
      assert calls[..|calls|] == calls;
      q := calls;
    }

    method RemainingBlockingToolCallIds() returns (remaining: seq<Id>)
      ensures remaining == Remaining(ledger.calls, ledger.run.blocking)
    {
      var ids := ledger.run.blocking;
      remaining := [];
      for i := 0 to |ids|
        invariant remaining == Remaining(ledger.calls, ids[..i])
      {
        assert ids[..i + 1][..i] == ids[..i];
        if ids[i] !in ledger.calls || ledger.calls[ids[i]].status != Succeeded {
          remaining := remaining + [ids[i]];
        }
      }
      assert ids[..|ids|] == ids;
    }

    method Finish(remaining: seq<Id>, scheduled: seq<Id>, executed: seq<Id>)
      requires remaining == Remaining(ledger.calls, ledger.run.blocking)
      modifies ledger`run, ledger`events
      ensures ledger.State() == Settled(Progress(old(ledger.State()), scheduled), executed)
      ensures ledger.run.blocking == remaining
    {
      ledger.run := ledger.run.(blocking := remaining);
      ledger.run := ledger.run.(status := if remaining == [] then Running else NeedsHuman);
      ledger.run := ledger.run.(error := None);
      ledger.AppendEvent(RunResumed(scheduled, executed));
    }
  }
}
