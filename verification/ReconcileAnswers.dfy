/** What reconciling makes of a call, read off the attempt it leaves on record. */
module ReconcileAnswers {
  import opened Wrappers
  import opened ToolCalls
  import opened Listings
  import opened ReconcileModel
  import opened RecoveryRuns
  import opened RecoverySafety

  /** A pass takes up a call that is open and whose last attempt does not ask to wait longer, unless the run has ended. */
  predicate TakesUp(s: Ledger, c: Id) {
    && !IsTerminal(s.run.status) && c in s.calls && s.calls[c].status in {Uncertain, Reconciling}
    && var rows := Rows(s, c);
       rows != [] && rows[|rows| - 1].nextRetry.Some? ==> rows[|rows| - 1].nextRetry.value <= s.now
  }

  /** A backend that leaves no receipt is not asked about a call that may have done harm. */
  predicate IsLegacy(call: Call) {
    call.capability == LegacyNoReceipt && !call.safe
  }

  /** The result of the attempt made between two states, if one was made. */
  function Found(s: Ledger, t: Ledger, c: Id): Option<ReplyStatus> {
    if |Rows(s, c)| < |Rows(t, c)| then Some(Rows(t, c)[|Rows(t, c)| - 1].result) else None
  }

  // ---------------------------------------------------------------- one call

  function AttemptOn(call: Call, c: Id, b: Backends): Option<ReplyStatus> {
    if IsLegacy(call) then None
    else if !HasContract(call, b) then Some(UnsupportedVersion)
    else Some(ReplyFor(b, c).status)
  }

  function Outcome(call: Call, c: Id, b: Backends): Call {
    if IsLegacy(call) then call.(status := ManualIntervention, recovery := LegacyManual, error := Some(ReconcileNotSupported))
    else if !HasContract(call, b) then
      call.(status := NeedsMigration, recovery := MigrationRequired, error := Some(ContractUnsupported))
    else Answered(call, ReplyFor(b, c))
  }

  /** The call and its attempts are as one look at its backend leaves them. */
  ghost predicate IsReconciled(s: Ledger, t: Ledger, c: Id, b: Backends) {
    && c in s.calls && c in t.calls && t.calls[c] == Outcome(s.calls[c], c, b)
    && |Rows(t, c)| == |Rows(s, c)| + (if AttemptOn(s.calls[c], c, b).Some? then 1 else 0)
    && Found(s, t, c) == AttemptOn(s.calls[c], c, b)
  }

  lemma OneIsReconciled(s: Ledger, c: Id, b: Backends)
    requires c in s.calls && IsEligible(s.calls[c].status)
    ensures IsReconciled(s, Reconciled(s, c, b), c, b)
  {
    var call := s.calls[c];
    if IsLegacy(call) {
      BookedTouches(s, c, Outcome(call, c, b));
    } else if !HasContract(call, b) {
      var t := Recorded(s, c, UnsupportedVersion, None);
      OneIsBooked(s, t, c, b, Attempt(MaxNumber(Rows(s, c)) + 1, UnsupportedVersion, s.now, None));
    } else {
      var made := AskedRecords(s, c, b);
      assert made == [made[0]];
      OneIsBooked(s, Asked(s, c, b), c, b, made[0]);
    }
  }

  lemma OneIsBooked(s: Ledger, t: Ledger, c: Id, b: Backends, made: Attempt)
    requires c in s.calls && t.calls == s.calls && t.attempts == s.attempts[c := Rows(s, c) + [made]]
    requires AttemptOn(s.calls[c], c, b) == Some(made.result)
    ensures IsReconciled(s, Booked(t, c, Outcome(s.calls[c], c, b)), c, b)
  {
    BookedTouches(t, c, Outcome(s.calls[c], c, b));
  }

  // ---------------------------------------------------------------- a pass

  lemma {:induction false} PassReconciles(s: Ledger, q: seq<Id>, b: Backends, c: Id)
    requires c in s.calls && IsEligible(s.calls[c].status) && c in q
    requires forall i, j :: 0 <= i < j < |q| ==> q[i] != q[j]
    ensures IsReconciled(s, ReconcileAll(s, q, b), c, b)
  {
    var front, last := q[..|q| - 1], q[|q| - 1];
    var t := ReconcileAll(s, front, b);
    PassTouches(s, front, b);
    assert last !in front;
    ReconciledTouches(t, last, b);
    if c == last {
      OneIsReconciled(t, c, b);
      OthersDoNotMatter(s, t, Reconciled(t, c, b), Reconciled(t, c, b), c, b);
    } else {
      PassReconciles(s, front, b, c);
      OthersDoNotMatter(s, s, t, Reconciled(t, last, b), c, b);
    }
  }

  /** Only the call itself and its attempts matter. */
  lemma OthersDoNotMatter(s: Ledger, s': Ledger, t: Ledger, t': Ledger, c: Id, b: Backends)
    requires c in s.calls && c in s'.calls && s.calls[c] == s'.calls[c] && Rows(s, c) == Rows(s', c)
    requires c in t.calls && c in t'.calls && t.calls[c] == t'.calls[c] && Rows(t, c) == Rows(t', c)
    ensures IsReconciled(s, t, c, b) || IsReconciled(s', t, c, b) ==> IsReconciled(s, t', c, b)
  {
  }

  lemma LastIsLatest(s: Ledger, c: Id)
    requires AreHistories(s.attempts, s.now)
    ensures var rows := Rows(s, c);
            IsThrottled(s, c, s.now) <==>
              rows != [] && rows[|rows| - 1].nextRetry.Some? && rows[|rows| - 1].nextRetry.value > s.now
  {
    if c in s.attempts {
      assert IsHistory(s.attempts[c], s.now);
    }
    NumberedRows(Rows(s, c));
  }

  lemma PassTakesUp(s: Ledger, eligible: seq<Id>, b: Backends, c: Id)
    requires AreHistories(s.attempts, s.now) && c in s.calls && IsListing(eligible, Ranks(s.calls, {Uncertain, Reconciling}))
    ensures var t := AfterReconcileRun(s, eligible, b);
            if TakesUp(s, c) then IsReconciled(s, t, c, b)
            else c in t.calls && t.calls[c] == s.calls[c] && Rows(t, c) == Rows(s, c)
  {
    if !IsTerminal(s.run.status) {
      var q := DueCalls(s, eligible, s.now);
      DueCallsAreDue(s, eligible, s.now);
      LastIsLatest(s, c);
      PassTouches(s, q, b);
      if TakesUp(s, c) {
        assert c in Ranks(s.calls, {Uncertain, Reconciling});
        PassReconciles(s, q, b, c);
      }
    }
  }
  lemma StepTakesUp(states: seq<Ledger>, steps: seq<Step>, n: nat, c: Id)
    requires IsRun(states, steps) && n < |steps| && steps[n].Reconcile? && c in states[n].calls
    ensures var s, t := states[n], states[n + 1];
            if TakesUp(s, c) then IsReconciled(s, t, c, steps[n].backends)
            else c in t.calls && t.calls[c] == s.calls[c] && Rows(t, c) == Rows(s, c)
  {
    RunKeeps(states, steps, n);
    assert IsStepOf(states, steps, n);
    PassTakesUp(states[n], steps[n].eligible, steps[n].backends, c);
  }

  // ---------------------------------------------------------------- over every history

  /**
   A pass records exactly one attempt for each call it takes up, unless the call is legacy, with the result its
   backend gave, or as an unsupported version if the contract or the adapter is missing.  All other calls stay.
   */
  lemma AttemptsRecordTheReplies(states: seq<Ledger>, steps: seq<Step>, n: nat, c: Id)
    requires IsRun(states, steps) && n < |steps| && steps[n].Reconcile? && c in states[n].calls
    ensures var s, t, b := states[n], states[n + 1], steps[n].backends;
            && c in t.calls
            && |Rows(t, c)| == |Rows(s, c)| + (if TakesUp(s, c) && !IsLegacy(s.calls[c]) then 1 else 0)
            && (!TakesUp(s, c) ==> t.calls[c] == s.calls[c])
            && (Found(s, t, c).Some? ==>
                  Found(s, t, c).value == if HasContract(s.calls[c], b) && c in b.replies then b.replies[c].status else UnsupportedVersion)
  {
    StepTakesUp(states, steps, n, c);
  }

  /** What was sent may still be on its way to a backend that keeps track of what it gets. */
  predicate MayArrive(call: Call) {
    call.effect == TransportSentObserved && call.capability in {ReceiptFirst, IdempotencyIndexOnly}
  }

  lemma OutcomeTells(was: Call, c: Id, b: Backends)
    ensures var status, found := Outcome(was, c, b).status, AttemptOn(was, c, b);
            && (status == Succeeded <==> found == Some(FoundSucceeded))
            && (status == Failed <==> found == Some(FoundFailed))
            && (status == Reconciling <==> found == Some(FoundRunning))
            && (status == NeedsMigration <==> found == Some(UnsupportedVersion))
            && (status == FailedRetryable <==> found == Some(NotFound) && was.effect == SendIntentRecorded)
            && (status == Uncertain <==> found == Some(NotFound) && MayArrive(was))
            && (status == ManualIntervention <==>
                  || found == None || found == Some(FoundConflict)
                  || (found == Some(NotFound) && was.effect != SendIntentRecorded && !MayArrive(was)))
  {
    if !IsLegacy(was) && HasContract(was, b) {
      var reply := ReplyFor(b, c);
      if reply.status == NotFound {
        NotFoundTells(was, reply);
      } else {
        AnswerTells(was, reply);
      }
    }
  }

  lemma AnswerTells(was: Call, reply: Reply)
    requires reply.status != NotFound
    ensures Answered(was, reply).status ==
            match reply.status
            case FoundSucceeded => Succeeded
            case FoundRunning => Reconciling
            case FoundFailed => Failed
            case UnsupportedVersion => NeedsMigration
            case _ => ManualIntervention
  {
  }

  lemma NotFoundTells(was: Call, reply: Reply)
    requires reply.status == NotFound
    ensures Answered(was, reply).status ==
            if was.effect == SendIntentRecorded then FailedRetryable
            else if MayArrive(was) then Uncertain
            else ManualIntervention
  {
  }

  /** Apart from a success only status, decision and error are written. */
  predicate IsDecided(was: Call, call: Call) {
    call == was.(status := call.status, recovery := call.recovery, error := call.error)
  }

  lemma AnswerDecides(was: Call, reply: Reply)
    requires reply.status != FoundSucceeded
    ensures IsDecided(was, Answered(was, reply))
  {
    if reply.status == NotFound {
      NotFoundDecides(was, reply);
    }
  }

  lemma NotFoundDecides(was: Call, reply: Reply)
    requires reply.status == NotFound
    ensures IsDecided(was, Answered(was, reply))
  {
  }

  lemma OutcomeKeeps(was: Call, c: Id, b: Backends)
    ensures var call := Outcome(was, c, b);
            if AttemptOn(was, c, b) == Some(FoundSucceeded)
            then c in b.replies && call == was.(status := Succeeded, effect := EffectCommitted, output := Some(b.replies[c].output),
                                                recovery := MarkSucceeded, error := None)
            else IsDecided(was, call)
  {
    if HasContract(was, b) && !IsLegacy(was) && ReplyFor(b, c).status != FoundSucceeded {
      AnswerDecides(was, ReplyFor(b, c));
    }
  }

  /** Over every history the status a pass gives a call it takes up tells the result of the attempt, and the result the status. */
  lemma StatusTellsTheResult(states: seq<Ledger>, steps: seq<Step>, n: nat, c: Id)
    requires IsRun(states, steps) && n < |steps| && steps[n].Reconcile? && TakesUp(states[n], c)
    ensures c in states[n + 1].calls
    ensures var was, status, found := states[n].calls[c], states[n + 1].calls[c].status, Found(states[n], states[n + 1], c);
            && (status == Succeeded <==> found == Some(FoundSucceeded))
            && (status == Failed <==> found == Some(FoundFailed))
            && (status == Reconciling <==> found == Some(FoundRunning))
            && (status == NeedsMigration <==> found == Some(UnsupportedVersion))
            && (status == FailedRetryable <==> found == Some(NotFound) && was.effect == SendIntentRecorded)
            && (status == Uncertain <==> found == Some(NotFound) && MayArrive(was))
            && (status == ManualIntervention <==>
                  || found == None || found == Some(FoundConflict)
                  || (found == Some(NotFound) && was.effect != SendIntentRecorded && !MayArrive(was)))
  {
    StepTakesUp(states, steps, n, c);
    OutcomeTells(states[n].calls[c], c, steps[n].backends);
  }

  predicate Leaves(call: Call, recovery: Recovery, error: Option<CallError>) {
    call.recovery == recovery && call.error == error
  }

  function ErrorOf(reply: Reply, default: CallError): Option<CallError> {
    if reply.error.Some? then reply.error else Some(default)
  }

  /** Over every history each result, and each reason to hand a call to a person, leaves its own decision and error. */
  lemma EveryCauseLeavesItsTrace(states: seq<Ledger>, steps: seq<Step>, n: nat, c: Id)
    requires IsRun(states, steps) && n < |steps| && steps[n].Reconcile? && TakesUp(states[n], c)
    ensures c in states[n + 1].calls
    ensures var was, call, b := states[n].calls[c], states[n + 1].calls[c], steps[n].backends;
            match Found(states[n], states[n + 1], c)
            case None => IsLegacy(was) && Leaves(call, LegacyManual, Some(ReconcileNotSupported))
            case Some(FoundSucceeded) => c in b.replies && Leaves(call, MarkSucceeded, None)
            case Some(FoundRunning) => Leaves(call, StillRunning, was.error)
            case Some(FoundFailed) => c in b.replies && Leaves(call, MarkFailed, ErrorOf(b.replies[c], BackendFailed))
            case Some(FoundConflict) => c in b.replies && Leaves(call, IdempotencyConflict, ErrorOf(b.replies[c], Conflict))
            case Some(UnsupportedVersion) =>
              Leaves(call, MigrationRequired,
                     if !HasContract(was, b) then Some(ContractUnsupported)
                     else if c !in b.replies then Some(AdapterMissing)
                     else ErrorOf(b.replies[c], UnsupportedSchema))
            case Some(NotFound) =>
              match was.effect
              case SendIntentRecorded => Leaves(call, SafeRetrySameKey, was.error)
              case BackendAccepted => Leaves(call, AcceptedNotFound, Some(NotFoundAfterCommit))
              case EffectCommitted => Leaves(call, CommittedNotFound, Some(NotFoundAfterCommit))
              case _ =>
                if MayArrive(was) then Leaves(call, ReconcileBackoff, was.error)
                else Leaves(call, NotFoundManual, Some(ReconcileNotFound))
  {
    StepTakesUp(states, steps, n, c);
  }

  /** A success brings the backend's output and commits the effect; nothing else touches either, or any other part of the call. */
  lemma OnlySuccessBringsOutput(states: seq<Ledger>, steps: seq<Step>, n: nat, c: Id)
    requires IsRun(states, steps) && n < |steps| && steps[n].Reconcile? && TakesUp(states[n], c)
    ensures c in states[n + 1].calls
    ensures var was, call, b := states[n].calls[c], states[n + 1].calls[c], steps[n].backends;
            if Found(states[n], states[n + 1], c) == Some(FoundSucceeded)
            then c in b.replies && call == was.(status := Succeeded, effect := EffectCommitted, output := Some(b.replies[c].output),
                                                recovery := MarkSucceeded, error := None)
            else call == was.(status := call.status, recovery := call.recovery, error := call.error)
  {
    StepTakesUp(states, steps, n, c);
    OutcomeKeeps(states[n].calls[c], c, steps[n].backends);
  }

  // ---------------------------------------------------------------- what is announced

  predicate IsAbout(e: Event, c: Id) {
    e in {ToolFailed(c), ToolReconciled(c), ToolUncertain(c), ToolRetryable(c), ToolNeedsMigration(c), RunBlocked(c)}
  }

  /** What is said of the call in `news` is what its status asks for, or nothing. */
  ghost predicate TellsOf(news: seq<Event>, c: Id, status: Option<CallStatus>) {
    forall e :: IsAbout(e, c) ==> (e in news <==> status.Some? && e in EventsOf(c, status.value))
  }

  ghost predicate Announces(s: Ledger, t: Ledger, c: Id, status: Option<CallStatus>) {
    s.events <= t.events && TellsOf(t.events[|s.events|..], c, status)
  }

  lemma BookingIsAnnounced(s: Ledger, x: Id, call: Call, c: Id)
    ensures Announces(s, Booked(s, x, call), c, if c == x then Some(call.status) else None)
  {
    var t := Booked(s, x, call);
    assert t.events == s.events + EventsOf(x, call.status);
    assert t.events[|s.events|..] == EventsOf(x, call.status);
  }

  lemma OneIsAnnounced(s: Ledger, x: Id, b: Backends, c: Id)
    requires x in s.calls && IsEligible(s.calls[x].status)
    ensures x in Reconciled(s, x, b).calls
    ensures Announces(s, Reconciled(s, x, b), c, if c == x then Some(Reconciled(s, x, b).calls[x].status) else None)
  {
    var t, call, made := ReconciledInStages(s, x, b);
    BookedTouches(t, x, call);
    BookingIsAnnounced(t, x, call, c);
  }

  lemma AnnouncementsAdd(s: Ledger, t: Ledger, u: Ledger, c: Id, first: Option<CallStatus>, second: Option<CallStatus>)
    requires Announces(s, t, c, first) && Announces(t, u, c, second) && (first == None || second == None)
    ensures Announces(s, u, c, if first.Some? then first else second)
  {
    assert u.events[|s.events|..] == t.events[|s.events|..] + u.events[|t.events|..];
  }

  lemma OneMoreIsAnnounced(s: Ledger, t: Ledger, x: Id, b: Backends, c: Id, before: Option<CallStatus>)
    requires Announces(s, t, c, before) && x in t.calls && IsEligible(t.calls[x].status) && (c == x ==> before == None)
    ensures x in Reconciled(t, x, b).calls
    ensures Announces(s, Reconciled(t, x, b), c, if c == x then Some(Reconciled(t, x, b).calls[x].status) else before)
  {
    OneIsAnnounced(t, x, b, c);
    AnnouncementsAdd(s, t, Reconciled(t, x, b), c, before, if c == x then Some(Reconciled(t, x, b).calls[x].status) else None);
  }

  lemma CallIsLeft(s: Ledger, x: Id, b: Backends, c: Id)
    requires c in s.calls
    ensures c in Reconciled(s, x, b).calls && (c != x ==> Reconciled(s, x, b).calls[c] == s.calls[c])
  {
    ReconciledTouches(s, x, b);
  }

  lemma {:induction false} PassLeaves(s: Ledger, q: seq<Id>, b: Backends, c: Id)
    requires c in s.calls
    ensures c in ReconcileAll(s, q, b).calls && (c !in q ==> ReconcileAll(s, q, b).calls[c] == s.calls[c])
  {
    if q != [] {
      PassLeaves(s, q[..|q| - 1], b, c);
      CallIsLeft(ReconcileAll(s, q[..|q| - 1], b), q[|q| - 1], b, c);
    }
  }

  lemma {:induction false} PassAnnounces(s: Ledger, q: seq<Id>, b: Backends, c: Id)
    requires forall i :: 0 <= i < |q| ==> q[i] in s.calls && IsEligible(s.calls[q[i]].status)
    requires forall i, j :: 0 <= i < j < |q| ==> q[i] != q[j]
    requires c in s.calls
    ensures c in ReconcileAll(s, q, b).calls
    ensures Announces(s, ReconcileAll(s, q, b), c, if c in q then Some(ReconcileAll(s, q, b).calls[c].status) else None)
  {
    if q != [] {
      var front, last := q[..|q| - 1], q[|q| - 1];
      var t := ReconcileAll(s, front, b);
      PassAnnounces(s, front, b, c);
      assert last !in front;
      PassLeaves(s, front, b, last);
      CallIsLeft(t, last, b, c);
      OneMoreIsAnnounced(s, t, last, b, c, if c in front then Some(t.calls[c].status) else None);
    }
  }

  lemma PassIsAnnounced(s: Ledger, eligible: seq<Id>, b: Backends, c: Id)
    requires AreHistories(s.attempts, s.now) && c in s.calls && IsListing(eligible, Ranks(s.calls, {Uncertain, Reconciling}))
    ensures var t := AfterReconcileRun(s, eligible, b);
            c in t.calls && Announces(s, t, c, if TakesUp(s, c) then Some(t.calls[c].status) else None)
  {
    if IsTerminal(s.run.status) {
      assert s.events[|s.events|..] == [];
    } else {
      var q := DueCalls(s, eligible, s.now);
      DueCallsAreDue(s, eligible, s.now);
      LastIsLatest(s, c);
      forall i | 0 <= i < |q| ensures q[i] in s.calls && IsEligible(s.calls[q[i]].status) {
        assert q[i] in eligible;
      }
      assert TakesUp(s, c) ==> c in Ranks(s.calls, {Uncertain, Reconciling});
      assert c in q <==> TakesUp(s, c);
      PassAnnounces(s, q, b, c);
    }
  }

  lemma NewsIsLater(s: Ledger, t: Ledger, e: Event)
    requires s.events <= t.events
    ensures IsNews(s, t, e) <==> e in t.events[|s.events|..]
  {
    var later := t.events[|s.events|..];
    if IsNews(s, t, e) {
      var i :| |s.events| <= i < |t.events| && t.events[i] == e;
      assert later[i - |s.events|] == e;
    }
    if e in later {
      var i :| 0 <= i < |later| && later[i] == e;
      assert t.events[|s.events| + i] == e;
    }
  }

  /** Some event after those of `s` is `e`. */
  predicate IsNews(s: Ledger, t: Ledger, e: Event) {
    exists i :: |s.events| <= i < |t.events| && t.events[i] == e
  }

  lemma AnnouncedExactly(s: Ledger, t: Ledger, c: Id, status: Option<CallStatus>, e: Event)
    requires Announces(s, t, c, status) && IsAbout(e, c)
    ensures IsNews(s, t, e) <==> status.Some? && e in EventsOf(c, status.value)
  {
    NewsIsLater(s, t, e);
  }

  predicate IsOutcomeStatus(status: CallStatus) {
    status in {Succeeded, Failed, Reconciling, NeedsMigration, FailedRetryable, Uncertain, ManualIntervention}
  }

  lemma OutcomeIsOneOfSeven(call: Call, c: Id, b: Backends)
    ensures IsOutcomeStatus(Outcome(call, c, b).status)
  {
  }

  lemma EventsTell(c: Id, status: CallStatus)
    requires IsOutcomeStatus(status)
    ensures ToolReconciled(c) in EventsOf(c, status) <==> status == Succeeded
    ensures ToolFailed(c) in EventsOf(c, status) <==> status in {Failed, ManualIntervention}
    ensures ToolUncertain(c) in EventsOf(c, status) <==> status in {Uncertain, Reconciling}
    ensures ToolRetryable(c) in EventsOf(c, status) <==> status == FailedRetryable
    ensures ToolNeedsMigration(c) in EventsOf(c, status) <==> status == NeedsMigration
    ensures RunBlocked(c) in EventsOf(c, status) <==> status == NeedsMigration
  {
  }

  lemma StepIsAnnounced(states: seq<Ledger>, steps: seq<Step>, n: nat, c: Id)
    requires IsRun(states, steps) && n < |steps| && steps[n].Reconcile? && c in states[n].calls
    ensures c in states[n + 1].calls
    ensures Announces(states[n], states[n + 1], c, if TakesUp(states[n], c) then Some(states[n + 1].calls[c].status) else None)
  {
    RunKeeps(states, steps, n);
    assert IsStepOf(states, steps, n);
    PassIsAnnounced(states[n], steps[n].eligible, steps[n].backends, c);
  }

  /** Over every history a pass announces of each call it takes up what became of it, and nothing of other calls. */
  lemma OutcomesAreAnnounced(states: seq<Ledger>, steps: seq<Step>, n: nat, c: Id)
    requires IsRun(states, steps) && n < |steps| && steps[n].Reconcile? && c in states[n].calls
    ensures c in states[n + 1].calls
    ensures var s, t, up := states[n], states[n + 1], TakesUp(states[n], c);
            var status := t.calls[c].status;
            && (IsNews(s, t, ToolReconciled(c)) <==> up && status == Succeeded)
            && (IsNews(s, t, ToolFailed(c)) <==> up && status in {Failed, ManualIntervention})
            && (IsNews(s, t, ToolUncertain(c)) <==> up && status in {Uncertain, Reconciling})
            && (IsNews(s, t, ToolRetryable(c)) <==> up && status == FailedRetryable)
            && (IsNews(s, t, ToolNeedsMigration(c)) <==> up && status == NeedsMigration)
            && (IsNews(s, t, RunBlocked(c)) <==> up && status == NeedsMigration)
  {
    var s, t := states[n], states[n + 1];
    StepIsAnnounced(states, steps, n, c);
    var told := if TakesUp(s, c) then Some(t.calls[c].status) else None;
    if told.Some? {
      StepTakesUp(states, steps, n, c);
      OutcomeIsOneOfSeven(s.calls[c], c, steps[n].backends);
      EventsTell(c, told.value);
    }
    AnnouncedExactly(s, t, c, told, ToolReconciled(c));
    AnnouncedExactly(s, t, c, told, ToolFailed(c));
    AnnouncedExactly(s, t, c, told, ToolUncertain(c));
    AnnouncedExactly(s, t, c, told, ToolRetryable(c));
    AnnouncedExactly(s, t, c, told, ToolNeedsMigration(c));
    AnnouncedExactly(s, t, c, told, RunBlocked(c));
  }
}
