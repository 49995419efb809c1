/** What the books of the project memories are good for: scores, counts, and how a memory comes to be trusted. */
module MemoryTrust {
  import opened Wrappers
  import opened Listings
  import opened MemoryModel
  import opened MemoryRuns

  /**
   Whatever happened, the counters of a memory are the numbers of its recorded events, its scores are in
   range, and what the code calls recent is everything there ever was.
   */
  lemma CountersTellTheEvents(states: seq<Db>, steps: seq<Step>, n: nat, id: Id)
    requires IsRun(states, steps) && n <= |steps| && id in states[n].memories
    ensures var m, events := states[n].memories[id], states[n].events;
            && m.validations == |set i | 0 <= i < |events| && IsValidationOf(events[i], id)|
            && m.contradictions == |set i | 0 <= i < |events| && IsContradictionOf(events[i], id)|
            && m.recentValidations == m.validations && m.recentContradictions == m.contradictions
            && 0 <= m.confidence <= 95 && 0 <= m.stale <= 100
  {
    RunKeeps(states, steps, n);
    ValidationsAreCounted(states[n].events, id);
    ContradictionsAreCounted(states[n].events, id);
  }

  lemma {:induction false} ValidationsAreCounted(events: seq<Event>, id: Id)
    ensures CountValidations(events, id) == |set i | 0 <= i < |events| && IsValidationOf(events[i], id)|
  {
    if events != [] {
      var front, n := events[..|events| - 1], |events| - 1;
      ValidationsAreCounted(front, id);
      var before, all := set i | 0 <= i < |front| && IsValidationOf(front[i], id), set i | 0 <= i < |events| && IsValidationOf(events[i], id);
      assert forall i :: i in all <==> i in before || (i == n && IsValidationOf(events[n], id));
      assert all == if IsValidationOf(events[n], id) then before + {n} else before;
    }
  }

  lemma {:induction false} ContradictionsAreCounted(events: seq<Event>, id: Id)
    ensures CountContradictions(events, id) == |set i | 0 <= i < |events| && IsContradictionOf(events[i], id)|
  {
    if events != [] {
      var front, n := events[..|events| - 1], |events| - 1;
      ContradictionsAreCounted(front, id);
      var before, all := set i | 0 <= i < |front| && IsContradictionOf(front[i], id), set i | 0 <= i < |events| && IsContradictionOf(events[i], id);
      assert forall i :: i in all <==> i in before || (i == n && IsContradictionOf(events[n], id));
      assert all == if IsContradictionOf(events[n], id) then before + {n} else before;
    }
  }

  /** A use of a memory is behind one validation or contradiction if that was the decision on it, and behind none otherwise. */
  lemma EachUseCountsOnce(states: seq<Db>, steps: seq<Step>, n: nat, u: Id)
    requires IsRun(states, steps) && n <= |steps| && u in states[n].usages
    ensures |set i | 0 <= i < |states[n].events| && UsageOf(states[n].events[i]) == Some(u)| ==
            if states[n].usages[u].decision in {Some(MemoryValidated), Some(ContradictionRecorded)} then 1 else 0
  {
    RunKeeps(states, steps, n);
    var events := states[n].events;
    var from := set i | 0 <= i < |events| && UsageOf(events[i]) == Some(u);
    if LeftItsMark(states[n].usages[u]) {
      assert IsRecorded(events, u);
      var i :| 0 <= i < |events| && UsageOf(events[i]) == Some(u);
      assert from == {i};
    } else {
      assert !IsRecorded(events, u);
      assert from == {};
    }
  }

  // ---------------------------------------------------------------- decisions stand

  ghost predicate DecisionsKept(db: Db, after: Db) {
    forall u :: u in db.usages ==> u in after.usages && (db.usages[u].decision.Some? ==> after.usages[u] == db.usages[u])
  }

  lemma {:induction false} BatchKeepsDecisions(db: Db, q: seq<Id>)
    requires AreDue(db, q) && Inv(db)
    ensures DecisionsKept(db, ProcessAll(db, q))
  {
    BatchKeeps(db, q);
    forall u | u in db.usages && db.usages[u].decision.Some? ensures u !in q {
    }
  }

  lemma {:induction false} RecordingKeepsDecisions(db: Db, links: seq<Link>, record: Id, supports: bool, details: Details, now: int)
    requires Inv(db)
    ensures DecisionsKept(db, RecordAll(db, links, record, supports, details, now))
  {
    if links != [] {
      var front := links[..|links| - 1];
      RecordingKeepsDecisions(db, front, record, supports, details, now);
      RecordingKeeps(db, front, record, supports, details, now);
    }
  }

  lemma StepKeepsDecisions(db: Db, step: Step)
    requires Inv(db) && MayFollow(db, step)
    ensures DecisionsKept(db, Next(db, step))
  {
    match step
    case ChangeEvidence(evidence, reason) => StalingKeepsUses(db, db.links, evidence, reason);
    case ExpireTtl(q) => ExpiringTouchesMemories(db, q);
    case ProcessDue(listing, limit) =>
      BatchesAreDue(db, listing, limit);
      BatchKeepsDecisions(db, Take(listing, limit));
    case RecordExecution(record, supports, details, now) => RecordingKeepsDecisions(db, db.links, record, supports, details, now);
    case _ =>
  }

  /** Feedback on a use is decided once, whatever is sent in later. */
  lemma {:induction false} DecidedOnce(states: seq<Db>, steps: seq<Step>, m: nat, n: nat, u: Id)
    requires IsRun(states, steps) && m <= n <= |steps| && u in states[m].usages && states[m].usages[u].decision.Some?
    ensures u in states[n].usages && states[n].usages[u] == states[m].usages[u]
  {
    if m < n {
      DecidedOnce(states, steps, m, n - 1, u);
      RunKeeps(states, steps, n - 1);
      assert IsStepOf(states, steps, n - 1);
      StepKeepsDecisions(states[n - 1], steps[n - 1]);
    }
  }

  // ---------------------------------------------------------------- becoming active

  predicate IsPositive(u: Usage) {
    u.outcome == Some(Validated) || u.outcome == Some(OtherPositive)
  }

  predicate IsOpenToValidation(s: MemoryStatus) {
    s == NeedsReview || s == NeedsRevalidation || s == Suspect
  }

  /** Feedback that makes a memory active which was not. */
  predicate FeedbackSuffices(db: Db, usage: Id, outcome: Outcome, changedInput: Option<bool>, id: Id) {
    && id in db.memories && usage in db.usages && db.usages[usage].memory == id && db.usages[usage].decision == None
    && var m, u := db.memories[id], db.usages[usage];
       var changed := if changedInput.Some? then changedInput.value else u.changedInput;
       || (outcome == Validated && IsOpenToValidation(m.status))
       || (outcome == OtherPositive && m.status == NeedsRevalidation && m.stale <= 58
           && m.confidence + (if u.forPolicy || changed then 5 else 3) >= m.initialConfidence)
  }

  /** An execution record that makes a memory active which was not. */
  predicate ExecutionSuffices(db: Db, record: Id, supports: bool, id: Id) {
    id in db.memories && supports && Link(id, record) in db.links && IsOpenToValidation(db.memories[id].status)
  }

  /**
   A user's feedback on a use activates an inactive memory exactly when the use is of that memory and
   undecided, and either the outcome is `validated` and the memory is neither archived nor rejected, or it is
   otherwise positive, the memory waits for revalidation and its scores have come back far enough.
   */
  lemma FeedbackActivatesExactlyWhen(db: Db, usage: Id, outcome: Outcome, changedInput: Option<bool>, details: Details, id: Id)
    requires Inv(db) && id in db.memories && db.memories[id].status != Active
    ensures AfterFeedback(db, usage, outcome, changedInput, details).memories[id].status == Active <==>
              FeedbackSuffices(db, usage, outcome, changedInput, id)
  {
    assert InRange(db.memories[id]);
  }

  /** An execution record activates one exactly when it supports it, the memory rests on it and is not archived or rejected. */
  lemma ExecutionActivatesExactlyWhen(db: Db, record: Id, supports: bool, details: Details, now: int, id: Id)
    requires id in db.memories && db.memories[id].status != Active
    ensures id in RecordAll(db, db.links, record, supports, details, now).memories
    ensures RecordAll(db, db.links, record, supports, details, now).memories[id].status == Active <==>
              ExecutionSuffices(db, record, supports, id)
  {
    RecordingActivates(db, db.links, record, supports, details, now, id);
  }

  lemma {:induction false} RecordingActivates(db: Db, links: seq<Link>, record: Id, supports: bool, details: Details, now: int, id: Id)
    requires id in db.memories && db.memories[id].status != Active
    ensures var m, after := db.memories[id], RecordAll(db, links, record, supports, details, now).memories;
            && id in after
            && (after[id].status == Active <==> supports && Link(id, record) in links && IsOpenToValidation(m.status))
            && (!IsOpenToValidation(m.status) && supports ==> after[id].status == m.status)
            && (Link(id, record) !in links ==> after[id] == m)
            && (m.status == MemoryStatus.Rejected ==> after[id] == m)
  {
    if links != [] {
      var front, last := links[..|links| - 1], links[|links| - 1];
      RecordingActivates(db, front, record, supports, details, now, id);
      RecordOneActivates(RecordAll(db, front, record, supports, details, now), last, record, supports, details, now, id);
      assert links == front + [last];
    }
  }

  lemma RecordOneActivates(db: Db, link: Link, record: Id, supports: bool, details: Details, now: int, id: Id)
    requires id in db.memories
    ensures var m, after := db.memories[id], RecordUse(db, link, record, supports, details, now).memories;
            && id in after
            && (link != Link(id, record) ==> after[id] == m)
            && (link == Link(id, record) && supports ==>
                  after[id].status == if IsOpenToValidation(m.status) then Active else m.status)
            && (link == Link(id, record) && !supports && m.status != Active ==> after[id].status != Active)
            && (m.status == MemoryStatus.Rejected ==> after[id] == m)
  {
  }

  /** Nothing but feedback and executions activates a memory that an agent inferred. */
  lemma OtherStepsActivateNoInferred(db: Db, step: Step, id: Id)
    requires !step.GiveFeedback? && !step.ProcessDue? && !step.RecordExecution?
    requires id in db.memories && db.memories[id].source == RepairInferred && db.memories[id].status != Active
    ensures id in Next(db, step).memories && Next(db, step).memories[id].status != Active
  {
    match step
    case ChangeEvidence(evidence, reason) =>
      StalingKeepsMemories(db, db.links, evidence, reason);
      StalingActivatesNothing(db, db.links, evidence, reason);
    case ExpireTtl(q) =>
      ExpiringKeepsMemories(db, q);
      ExpiringActivatesNothing(db, q);
    case _ =>
  }

  lemma {:induction false} StalingKeepsMemories(db: Db, links: seq<Link>, evidence: Id, reason: StaleReason)
    ensures StaleAll(db, links, evidence, reason).memories.Keys == db.memories.Keys
  {
    if links != [] {
      StalingKeepsMemories(db, links[..|links| - 1], evidence, reason);
    }
  }

  lemma {:induction false} ExpiringKeepsMemories(db: Db, q: seq<Id>)
    ensures ExpireAll(db, q).memories.Keys == db.memories.Keys
  {
    if q != [] {
      ExpiringKeepsMemories(db, q[..|q| - 1]);
    }
  }

  // Feedback is processed as it comes in, so between steps nothing is due.

  ghost predicate NothingIsDue(db: Db) {
    forall u :: u in db.usages ==> !IsDue(db.usages[u])
  }

  lemma {:induction false} RecordingLeavesNothingDue(db: Db, links: seq<Link>, record: Id, supports: bool, details: Details, now: int)
    requires NothingIsDue(db)
    ensures NothingIsDue(RecordAll(db, links, record, supports, details, now))
  {
    if links != [] {
      RecordingLeavesNothingDue(db, links[..|links| - 1], record, supports, details, now);
    }
  }

  /** A batch finds nothing to do: feedback was processed when it was given. */
  lemma BatchOfNothing(db: Db, listing: seq<Id>, limit: nat)
    requires NothingIsDue(db) && IsListing(listing, DueRanks(db))
    ensures ProcessAll(db, Take(listing, limit)) == db
  {
    ListingHasEveryKey(listing, DueRanks(db));
    assert DueRanks(db).Keys == {};
  }

  lemma {:induction false} NothingIsLeftDue(states: seq<Db>, steps: seq<Step>, n: nat)
    requires IsRun(states, steps) && n <= |steps|
    ensures NothingIsDue(states[n])
  {
    if n > 0 {
      var db, step := states[n - 1], steps[n - 1];
      NothingIsLeftDue(states, steps, n - 1);
      assert IsStepOf(states, steps, n - 1);
      match step
      case ChangeEvidence(evidence, reason) => StalingKeepsUsages(db, db.links, evidence, reason);
      case ExpireTtl(q) => ExpiringTouchesMemories(db, q);
      case ProcessDue(listing, limit) => BatchOfNothing(db, listing, limit);
      case RecordExecution(record, supports, details, now) => RecordingLeavesNothingDue(db, db.links, record, supports, details, now);
      case _ =>
    }
  }

  lemma {:induction false} StalingKeepsUsages(db: Db, links: seq<Link>, evidence: Id, reason: StaleReason)
    ensures StaleAll(db, links, evidence, reason).usages == db.usages
  {
    if links != [] {
      StalingKeepsUsages(db, links[..|links| - 1], evidence, reason);
    }
  }

  /**
   A memory that an agent inferred is meant to become active only when an execution supports it.  Over every
   history it becomes active in exactly two ways: by such an execution, or by feedback that suffices.
   */
  lemma InferredBecomesActiveExactlyWhen(states: seq<Db>, steps: seq<Step>, n: nat, id: Id)
    requires IsRun(states, steps) && n < |steps|
    requires id in states[n].memories && states[n].memories[id].source == RepairInferred && states[n].memories[id].status != Active
    ensures id in states[n + 1].memories
    ensures states[n + 1].memories[id].status == Active <==>
              match steps[n]
              case RecordExecution(record, supports, _, _) => ExecutionSuffices(states[n], record, supports, id)
              case GiveFeedback(usage, outcome, changedInput, _) => FeedbackSuffices(states[n], usage, outcome, changedInput, id)
              case _ => false
  {
    var db := states[n];
    RunKeeps(states, steps, n);
    assert IsStepOf(states, steps, n);
    match steps[n]
    case RecordExecution(record, supports, details, now) => ExecutionActivatesExactlyWhen(db, record, supports, details, now, id);
    case GiveFeedback(usage, outcome, changedInput, details) =>
      FeedbackActivatesExactlyWhen(db, usage, outcome, changedInput, details, id);
    case ProcessDue(listing, limit) =>
      NothingIsLeftDue(states, steps, n);
      BatchOfNothing(db, listing, limit);
    case _ => OtherStepsActivateNoInferred(db, steps[n], id);
  }

  /** The second way needs no execution: by positive feedback after the evidence changed. */
  lemma InferredMemoryActivatedUnvalidated(feedback: Details) returns (states: seq<Db>, steps: seq<Step>)
    ensures IsRun(states, steps) && steps == [Create(1, RepairInferred, 40, None, [7]), ChangeEvidence(7, EnvironmentUpdated),
                                              Use(1, 0, false), GiveFeedback(0, OtherPositive, None, feedback)]
    ensures 1 in states[4].memories && states[4].memories[1].source == RepairInferred
    ensures states[4].memories[1].status == Active && states[4].memories[1].validations == 0
  {
    steps := [Create(1, RepairInferred, 40, None, [7]), ChangeEvidence(7, EnvironmentUpdated), Use(1, 0, false),
              GiveFeedback(0, OtherPositive, None, feedback)];
    var created := Created(RepairInferred, 40, None);
    var s1 := Next(EMPTY, steps[0]);
    assert s1.links == [Link(1, 7)];
    assert s1.memories == map[1 := created];
    var s2 := Next(s1, steps[1]);
    StaleSingle(s1, Link(1, 7), EnvironmentUpdated);
    assert s2.memories == map[1 := Staled(created, EnvironmentUpdated)];
    var s3 := Next(s2, steps[2]);
    states := [EMPTY, s1, s2, s3, Next(s3, steps[3])];
    assert IsStepOf(states, steps, 0) && IsStepOf(states, steps, 1) && IsStepOf(states, steps, 2) && IsStepOf(states, steps, 3);
  }

  /** Or, from the start, by feedback that calls it validated. */
  lemma InferredMemoryActivatedOnItsUsersWord(feedback: Details) returns (states: seq<Db>, steps: seq<Step>)
    ensures IsRun(states, steps)
    ensures steps == [Create(1, RepairInferred, 40, None, []), Use(1, 0, false), GiveFeedback(0, Validated, None, feedback)]
    ensures 1 in states[3].memories && states[3].memories[1].source == RepairInferred && states[3].memories[1].status == Active
  {
    steps := [Create(1, RepairInferred, 40, None, []), Use(1, 0, false), GiveFeedback(0, Validated, None, feedback)];
    var s1 := Next(EMPTY, steps[0]);
    assert s1.memories == map[1 := Created(RepairInferred, 40, None)];
    var s2 := Next(s1, steps[1]);
    states := [EMPTY, s1, s2, Next(s2, steps[2])];
    assert IsStepOf(states, steps, 0) && IsStepOf(states, steps, 1) && IsStepOf(states, steps, 2);
  }

  lemma StaleSingle(db: Db, link: Link, reason: StaleReason)
    ensures StaleAll(db, [link], link.evidence, reason) == StaleOne(db, link, link.evidence, reason)
  {
    assert [link][..0] == [];
  }

  /** Some use of the memory turned out well. */
  predicate WasOfUse(usages: map<Id, Usage>, id: Id) {
    exists u :: u in usages && usages[u].memory == id && usages[u].decision in {Some(MemoryValidated), Some(ConfidenceAdjusted)}
  }

  predicate IsEarned(m: Memory, id: Id, usages: map<Id, Usage>) {
    m.status == Active ==> IsTrusted(m.source) || (m.source != RepairInferred && m.validations > 0) || WasOfUse(usages, id)
  }

  ghost predicate AllEarned(db: Db) {
    forall id :: id in db.memories ==> IsEarned(db.memories[id], id, db.usages)
  }

  /** A step that activates nothing, forgets no validation and takes back no decision. */
  ghost predicate ActivatesNothing(db: Db, after: Db) {
    && (forall id :: id in after.memories ==>
          if id in db.memories then
            && after.memories[id].source == db.memories[id].source && after.memories[id].validations >= db.memories[id].validations
            && (after.memories[id].status == Active ==> db.memories[id].status == Active || IsTrusted(after.memories[id].source))
          else after.memories[id].status == Active ==> IsTrusted(after.memories[id].source))
    && DecisionsKept(db, after)
  }

  lemma EarnedWithoutActivation(db: Db, after: Db)
    requires AllEarned(db) && ActivatesNothing(db, after)
    ensures AllEarned(after)
  {
    forall id | id in after.memories ensures IsEarned(after.memories[id], id, after.usages) {
      if id in db.memories {
        assert IsEarned(db.memories[id], id, db.usages);
        UsefulnessStays(db, after, id);
      }
    }
  }

  lemma UsefulnessStays(db: Db, after: Db, id: Id)
    requires DecisionsKept(db, after)
    ensures WasOfUse(db.usages, id) ==> WasOfUse(after.usages, id)
  {
    if WasOfUse(db.usages, id) {
      var u :| u in db.usages && db.usages[u].memory == id && db.usages[u].decision in {Some(MemoryValidated), Some(ConfidenceAdjusted)};
      assert after.usages[u] == db.usages[u];
    }
  }

  lemma {:induction false} StalingActivatesNothing(db: Db, links: seq<Link>, evidence: Id, reason: StaleReason)
    ensures ActivatesNothing(db, StaleAll(db, links, evidence, reason))
  {
    if links != [] {
      StalingActivatesNothing(db, links[..|links| - 1], evidence, reason);
    }
  }

  lemma {:induction false} ExpiringActivatesNothing(db: Db, q: seq<Id>)
    ensures ActivatesNothing(db, ExpireAll(db, q))
  {
    if q != [] {
      ExpiringActivatesNothing(db, q[..|q| - 1]);
    }
  }

  lemma ProcessingEarns(db: Db, id: Id)
    requires AllEarned(db) && id in db.usages && db.usages[id].decision == None
    ensures AllEarned(ProcessUsage(db, id))
  {
    var after, u := ProcessUsage(db, id), db.usages[id];
    forall x | x in after.memories ensures IsEarned(after.memories[x], x, after.usages) {
      assert IsEarned(db.memories[x], x, db.usages);
      UsefulnessStays(db, after, x);
      if x == u.memory && IsPositive(u) && DecisionOn(db, u) != MissingOrRejected {
        assert after.usages[id].memory == x;
        assert WasOfUse(after.usages, x);
      }
    }
  }

  lemma {:induction false} BatchEarns(db: Db, q: seq<Id>)
    requires AllEarned(db) && Inv(db) && AreDue(db, q)
    ensures AllEarned(ProcessAll(db, q))
  {
    if q != [] {
      var front := q[..|q| - 1];
      BatchEarns(db, front);
      BatchKeeps(db, front);
      assert q[|q| - 1] !in front;
      ProcessingEarns(ProcessAll(db, front), q[|q| - 1]);
    }
  }

  lemma {:induction false} RecordingEarns(db: Db, links: seq<Link>, record: Id, supports: bool, details: Details, now: int)
    requires AllEarned(db) && Inv(db)
    ensures AllEarned(RecordAll(db, links, record, supports, details, now))
  {
    if links != [] {
      var front := links[..|links| - 1];
      var before := RecordAll(db, front, record, supports, details, now);
      RecordingEarns(db, front, record, supports, details, now);
      RecordingKeeps(db, front, record, supports, details, now);
      if RecordUse(before, links[|links| - 1], record, supports, details, now) != before {
        var u := Usage(links[|links| - 1].memory, now, true, !supports, Some(if supports then Validated else Contradicting), details, None);
        var with := before.(usages := before.usages[before.nextUsage := u], nextUsage := before.nextUsage + 1);
        EarnedWithoutActivation(before, with);
        ProcessingEarns(with, before.nextUsage);
      }
    }
  }

  lemma FeedbackEarns(db: Db, id: Id, outcome: Outcome, changedInput: Option<bool>, details: Details)
    requires AllEarned(db) && Inv(db)
    ensures AllEarned(AfterFeedback(db, id, outcome, changedInput, details))
  {
    if id in db.usages && db.usages[id].memory in db.memories && db.usages[id].decision == None {
      var u := db.usages[id];
      var changed := if changedInput.Some? then changedInput.value else u.changedInput;
      var with := db.(usages := db.usages[id := u.(outcome := Some(outcome), changedInput := changed, details := details)]);
      EarnedWithoutActivation(db, with);
      ProcessingEarns(with, id);
    }
  }

  lemma ValidatingEarns(db: Db, id: Id)
    requires AllEarned(db)
    ensures AllEarned(AfterValidate(db, id))
  {
    forall x | x in AfterValidate(db, id).memories ensures IsEarned(AfterValidate(db, id).memories[x], x, db.usages) {
      assert IsEarned(db.memories[x], x, db.usages);
    }
  }

  lemma StepEarns(db: Db, step: Step)
    requires AllEarned(db) && Inv(db) && MayFollow(db, step)
    ensures AllEarned(Next(db, step))
  {
    match step
    case Validate(id) => ValidatingEarns(db, id);
    case ChangeEvidence(evidence, reason) =>
      StalingActivatesNothing(db, db.links, evidence, reason);
      EarnedWithoutActivation(db, Next(db, step));
    case ExpireTtl(q) =>
      ExpiringActivatesNothing(db, q);
      EarnedWithoutActivation(db, Next(db, step));
    case GiveFeedback(usage, outcome, changedInput, details) => FeedbackEarns(db, usage, outcome, changedInput, details);
    case ProcessDue(listing, limit) =>
      BatchesAreDue(db, listing, limit);
      BatchEarns(db, Take(listing, limit));
    case RecordExecution(record, supports, details, now) => RecordingEarns(db, db.links, record, supports, details, now);
    case _ => EarnedWithoutActivation(db, Next(db, step));
  }

  /**
   Trust is earned: an active memory that neither a user nor a document vouched for was validated, or
   some use of it turned out well; one that an agent inferred has had such a use.
   */
  lemma {:induction false} TrustIsEarned(states: seq<Db>, steps: seq<Step>, n: nat)
    requires IsRun(states, steps) && n <= |steps|
    ensures AllEarned(states[n])
  {
    if n > 0 {
      TrustIsEarned(states, steps, n - 1);
      RunKeeps(states, steps, n - 1);
      assert IsStepOf(states, steps, n - 1);
      StepEarns(states[n - 1], steps[n - 1]);
    }
  }
}
