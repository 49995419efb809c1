/** What every history of the project memories keeps. */
module MemoryRuns {
  import opened Wrappers
  import opened Listings
  import opened MemoryModel

  datatype Step =
    | Create(id: Id, source: Source, initialConfidence: int, expiresAt: Option<int>, evidence: seq<Id>)
    | Update(id: Id, status: Option<MemoryStatus>, otherChange: bool)
    | Validate(id: Id)
    | Reject(id: Id)
    | Contradict(id: Id, severity: Severity, failure: Option<Id>)
    | Use(id: Id, now: int, forPolicy: bool)
    | ChangeEvidence(evidenceId: Id, reason: StaleReason)
    | ExpireTtl(expired: seq<Id>)
    | GiveFeedback(usage: Id, outcome: Outcome, changedInput: Option<bool>, details: Details)
    | ProcessDue(listing: seq<Id>, limit: nat)
    | RecordExecution(record: Id, supports: bool, details: Details, now: int)

  /** Source profiles are in range, and a batch takes the due uses as its query lists them. */
  ghost predicate MayFollow(db: Db, step: Step) {
    match step
    case Create(_, _, initialConfidence, _, _) => 0 <= initialConfidence <= 95
    case ProcessDue(listing, _) => IsListing(listing, DueRanks(db))
    case _ => true
  }

  ghost predicate AreDue(db: Db, q: seq<Id>) {
    && (forall i :: 0 <= i < |q| ==> q[i] in db.usages && IsDue(db.usages[q[i]]))
    && (forall i, j :: 0 <= i < j < |q| ==> q[i] != q[j])
  }

  function Next(db: Db, step: Step): Db {
    match step
    case Create(id, source, initialConfidence, expiresAt, evidence) => AfterCreate(db, id, source, initialConfidence, expiresAt, evidence)
    case Update(id, status, otherChange) => AfterUpdate(db, id, status, otherChange)
    case Validate(id) => AfterValidate(db, id)
    case Reject(id) => AfterReject(db, id)
    case Contradict(id, severity, failure) => AfterContradiction(db, id, severity, failure)
    case Use(id, now, forPolicy) => AfterUse(db, id, now, forPolicy)
    case ChangeEvidence(evidence, reason) => AfterEvidenceChange(db, evidence, reason)
    case ExpireTtl(q) => ExpireAll(db, q)
    case GiveFeedback(usage, outcome, changedInput, details) => AfterFeedback(db, usage, outcome, changedInput, details)
    case ProcessDue(listing, limit) => ProcessAll(db, Take(listing, limit))
    case RecordExecution(record, supports, details, now) => RecordAll(db, db.links, record, supports, details, now)
  }

  const EMPTY := Db(map[], map[], 0, [], [])

  ghost predicate IsRun(states: seq<Db>, steps: seq<Step>) {
    && |states| == |steps| + 1 && states[0] == EMPTY
    && forall i :: 0 <= i < |steps| ==> IsStepOf(states, steps, i)
  }

  ghost predicate IsStepOf(states: seq<Db>, steps: seq<Step>, i: nat)
    requires i < |steps| && |states| == |steps| + 1
  {
    MayFollow(states[i], steps[i]) && states[i + 1] == Next(states[i], steps[i])
  }

  /** A batch takes uses that are due, each once. */
  lemma BatchesAreDue(db: Db, q: seq<Id>, limit: nat)
    requires IsListing(q, DueRanks(db))
    ensures AreDue(db, Take(q, limit))
  {
    forall i | 0 <= i < |Take(q, limit)| ensures Take(q, limit)[i] in db.usages && IsDue(db.usages[Take(q, limit)[i]]) {
      assert q[i] in DueRanks(db);
    }
  }

  // ---------------------------------------------------------------- counters and scores

  function CountValidations(events: seq<Event>, id: Id): nat {
    if events == [] then 0
    else CountValidations(events[..|events| - 1], id) + if IsValidationOf(events[|events| - 1], id) then 1 else 0
  }

  function CountContradictions(events: seq<Event>, id: Id): nat {
    if events == [] then 0
    else CountContradictions(events[..|events| - 1], id) + if IsContradictionOf(events[|events| - 1], id) then 1 else 0
  }

  predicate IsValidationOf(e: Event, id: Id) {
    e.Validation? && e.memory == id
  }

  predicate IsContradictionOf(e: Event, id: Id) {
    e.Contradiction? && e.memory == id
  }

  predicate InRange(m: Memory) {
    0 <= m.confidence <= 95 && 0 <= m.stale <= 100 && 0 <= m.initialConfidence <= 95
  }

  predicate Tells(m: Memory, validations: nat, contradictions: nat) {
    m.validations == m.recentValidations == validations && m.contradictions == m.recentContradictions == contradictions
  }

  ghost predicate BooksAgree(memories: map<Id, Memory>, events: seq<Event>) {
    && (forall id :: id in memories ==>
          InRange(memories[id]) && Tells(memories[id], CountValidations(events, id), CountContradictions(events, id)))
    && (forall i :: 0 <= i < |events| ==> events[i].memory in memories)
  }

  lemma {:induction false} NeverMentioned(events: seq<Event>, id: Id)
    requires forall i :: 0 <= i < |events| ==> events[i].memory != id
    ensures CountValidations(events, id) == CountContradictions(events, id) == 0
  {
    if events != [] {
      NeverMentioned(events[..|events| - 1], id);
    }
  }

  /** A memory is rewritten, and what it counts goes up with what is recorded. */
  lemma BooksWrite(memories: map<Id, Memory>, events: seq<Event>, id: Id, m: Memory, es: seq<Event>)
    requires BooksAgree(memories, events) && id in memories && InRange(m)
    requires es == [] || (|es| == 1 && es[0].memory == id)
    requires var v, c := if es != [] && es[0].Validation? then 1 else 0, if es != [] && es[0].Contradiction? then 1 else 0;
             Tells(m, memories[id].validations + v, memories[id].contradictions + c)
    ensures BooksAgree(memories[id := m], events + es)
  {
    if es == [] {
      assert events + es == events;
    } else {
      assert events + es == events + [es[0]];
      assert (events + [es[0]])[..|events|] == events;
    }
  }

  lemma {:induction false} StalingKeepsBooks(db: Db, links: seq<Link>, evidence: Id, reason: StaleReason)
    requires BooksAgree(db.memories, db.events)
    ensures var t := StaleAll(db, links, evidence, reason); BooksAgree(t.memories, t.events)
  {
    if links != [] {
      var before, link := StaleAll(db, links[..|links| - 1], evidence, reason), links[|links| - 1];
      StalingKeepsBooks(db, links[..|links| - 1], evidence, reason);
      if StaleOne(before, link, evidence, reason) != before {
        var m := Staled(before.memories[link.memory], reason);
        BooksWrite(before.memories, before.events, link.memory, m,
                   [Staleness(link.memory, before.memories[link.memory].stale, m.stale)]);
      }
    }
  }

  lemma {:induction false} ExpiringKeepsBooks(db: Db, q: seq<Id>)
    requires BooksAgree(db.memories, db.events)
    ensures BooksAgree(ExpireAll(db, q).memories, ExpireAll(db, q).events)
  {
    if q != [] {
      var before, id := ExpireAll(db, q[..|q| - 1]), q[|q| - 1];
      ExpiringKeepsBooks(db, q[..|q| - 1]);
      if id in before.memories {
        BooksWrite(before.memories, before.events, id, PastItsTime(before.memories[id]), []);
        assert before.events + [] == before.events;
      }
    }
  }

  lemma ProcessingKeepsBooks(db: Db, id: Id)
    requires BooksAgree(db.memories, db.events) && id in db.usages
    ensures BooksAgree(ProcessUsage(db, id).memories, ProcessUsage(db, id).events)
  {
    var u := db.usages[id];
    var decision := DecisionOn(db, u);
    if decision == MissingOrRejected {
      assert db.events + [] == db.events;
    } else {
      assert InRange(db.memories[u.memory]);
      BooksWrite(db.memories, db.events, u.memory, MemoryAfter(db.memories[u.memory], u, decision), EventsAfter(u, id, decision));
    }
  }

  // ---------------------------------------------------------------- which use an event comes from

  function UsageOf(e: Event): Option<Id> {
    match e case Validation(_, u) => u case Contradiction(_, u, _) => u case Staleness(_, _, _) => None
  }

  /** The use led to an entry in the books. */
  predicate LeftItsMark(u: Usage) {
    u.decision == Some(MemoryValidated) || u.decision == Some(ContradictionRecorded)
  }

  predicate IsRecorded(events: seq<Event>, u: Id) {
    exists i :: 0 <= i < |events| && UsageOf(events[i]) == Some(u)
  }

  ghost predicate UsesAgree(usages: map<Id, Usage>, next: nat, events: seq<Event>) {
    && (forall u :: u in usages ==> 0 <= u < next && (LeftItsMark(usages[u]) <==> IsRecorded(events, u)))
    && (forall i :: 0 <= i < |events| && UsageOf(events[i]).Some? ==> UsageOf(events[i]).value in usages)
    && (forall i, j :: 0 <= i < j < |events| && UsageOf(events[i]).Some? ==> UsageOf(events[i]) != UsageOf(events[j]))
  }

  lemma ProcessingKeepsUses(db: Db, id: Id)
    requires UsesAgree(db.usages, db.nextUsage, db.events) && id in db.usages && db.usages[id].decision == None
    ensures UsesAgree(ProcessUsage(db, id).usages, db.nextUsage, ProcessUsage(db, id).events)
  {
    var t := ProcessUsage(db, id);
    assert !IsRecorded(db.events, id);
    forall u ensures IsRecorded(t.events, u) <==> IsRecorded(db.events, u) || (u == id && LeftItsMark(t.usages[id])) {
      if i :| 0 <= i < |db.events| && UsageOf(db.events[i]) == Some(u) {
        assert t.events[i] == db.events[i];
      }
      if u == id && LeftItsMark(t.usages[id]) {
        assert UsageOf(t.events[|db.events|]) == Some(id);
      }
    }
    forall i, j | 0 <= i < j < |t.events| && UsageOf(t.events[i]).Some? ensures UsageOf(t.events[i]) != UsageOf(t.events[j]) {
      if j >= |db.events| {
        assert !IsRecorded(db.events, id);
        assert UsageOf(db.events[i]) != Some(id);
      }
    }
  }

  /** Entries that come from no use do not matter here. */
  lemma OtherEventsKeepUses(usages: map<Id, Usage>, next: nat, events: seq<Event>, e: Event)
    requires UsesAgree(usages, next, events) && UsageOf(e) == None
    ensures UsesAgree(usages, next, events + [e])
  {
    forall u ensures IsRecorded(events + [e], u) <==> IsRecorded(events, u) {
      if i :| 0 <= i < |events| && UsageOf(events[i]) == Some(u) {
        assert (events + [e])[i] == events[i];
      }
    }
  }

  lemma {:induction false} StalingKeepsUses(db: Db, links: seq<Link>, evidence: Id, reason: StaleReason)
    requires UsesAgree(db.usages, db.nextUsage, db.events)
    ensures var t := StaleAll(db, links, evidence, reason);
            t.usages == db.usages && t.nextUsage == db.nextUsage && UsesAgree(t.usages, t.nextUsage, t.events)
  {
    if links != [] {
      var before, link := StaleAll(db, links[..|links| - 1], evidence, reason), links[|links| - 1];
      StalingKeepsUses(db, links[..|links| - 1], evidence, reason);
      if StaleOne(before, link, evidence, reason) != before {
        OtherEventsKeepUses(before.usages, before.nextUsage, before.events,
                            Staleness(link.memory, before.memories[link.memory].stale, Staled(before.memories[link.memory], reason).stale));
      }
    }
  }

  lemma {:induction false} ExpiringTouchesMemories(db: Db, q: seq<Id>)
    ensures ExpireAll(db, q) == db.(memories := ExpireAll(db, q).memories)
  {
    if q != [] {
      ExpiringTouchesMemories(db, q[..|q| - 1]);
    }
  }

  // ---------------------------------------------------------------- the invariant

  ghost predicate Inv(db: Db) {
    BooksAgree(db.memories, db.events) && UsesAgree(db.usages, db.nextUsage, db.events)
  }

  lemma ProcessingKeeps(db: Db, id: Id)
    requires Inv(db) && id in db.usages && db.usages[id].decision == None
    ensures Inv(ProcessUsage(db, id))
  {
    ProcessingKeepsBooks(db, id);
    ProcessingKeepsUses(db, id);
  }

  lemma {:induction false} BatchKeeps(db: Db, q: seq<Id>)
    requires Inv(db) && AreDue(db, q)
    ensures Inv(ProcessAll(db, q))
    ensures ProcessAll(db, q).usages.Keys == db.usages.Keys
    ensures forall u :: u in db.usages && u !in q ==> ProcessAll(db, q).usages[u] == db.usages[u]
  {
    if q != [] {
      var front, last := q[..|q| - 1], q[|q| - 1];
      BatchKeeps(db, front);
      assert last !in front;
      ProcessingKeeps(ProcessAll(db, front), last);
      assert forall u :: u in q <==> u in front || u == last;
    }
  }

  /** A fresh use, and what is processed of it. */
  lemma UsingKeeps(db: Db, u: Usage)
    requires Inv(db) && u.decision == None
    ensures Inv(WithUse(db, u))
  {
    assert db.nextUsage !in db.usages;
    assert !IsRecorded(db.events, db.nextUsage);
  }

  lemma RecordUseKeeps(db: Db, link: Link, record: Id, supports: bool, details: Details, now: int)
    requires Inv(db)
    ensures Inv(RecordUse(db, link, record, supports, details, now))
  {
    var u := RecordedUse(link.memory, supports, details, now);
    UsingKeeps(db, u);
    ProcessingKeeps(WithUse(db, u), db.nextUsage);
    if RecordUse(db, link, record, supports, details, now) != db {
      assert RecordUse(db, link, record, supports, details, now) == ProcessUsage(WithUse(db, u), db.nextUsage);
    }
  }

  lemma {:induction false} RecordingKeeps(db: Db, links: seq<Link>, record: Id, supports: bool, details: Details, now: int)
    requires Inv(db)
    ensures Inv(RecordAll(db, links, record, supports, details, now))
  {
    if links != [] {
      RecordingKeeps(db, links[..|links| - 1], record, supports, details, now);
      RecordUseKeeps(RecordAll(db, links[..|links| - 1], record, supports, details, now), links[|links| - 1],
                     record, supports, details, now);
    }
  }

  lemma CreatingKeeps(db: Db, id: Id, source: Source, initialConfidence: int, expiresAt: Option<int>, evidence: seq<Id>)
    requires Inv(db) && 0 <= initialConfidence <= 95
    ensures Inv(AfterCreate(db, id, source, initialConfidence, expiresAt, evidence))
  {
    if id !in db.memories {
      NeverMentioned(db.events, id);
    }
  }

  /** Users' own steps write one memory and at most one entry that comes from no use. */
  lemma WritingKeeps(db: Db, id: Id, m: Memory, es: seq<Event>)
    requires Inv(db) && id in db.memories && InRange(m)
    requires es == [] || (|es| == 1 && es[0].memory == id && UsageOf(es[0]) == None)
    requires var v, c := if es != [] && es[0].Validation? then 1 else 0, if es != [] && es[0].Contradiction? then 1 else 0;
             Tells(m, db.memories[id].validations + v, db.memories[id].contradictions + c)
    ensures Inv(db.(memories := db.memories[id := m], events := db.events + es))
  {
    BooksWrite(db.memories, db.events, id, m, es);
    if es == [] {
      assert db.events + es == db.events;
    } else {
      assert es == [es[0]];
      OtherEventsKeepUses(db.usages, db.nextUsage, db.events, es[0]);
    }
  }

  lemma FeedbackKeeps(db: Db, id: Id, outcome: Outcome, changedInput: Option<bool>, details: Details)
    requires Inv(db)
    ensures Inv(AfterFeedback(db, id, outcome, changedInput, details))
  {
    if id in db.usages && db.usages[id].memory in db.memories && db.usages[id].decision == None {
      var u := db.usages[id];
      var changed := if changedInput.Some? then changedInput.value else u.changedInput;
      var with := db.(usages := db.usages[id := u.(outcome := Some(outcome), changedInput := changed, details := details)]);
      assert UsesAgree(with.usages, with.nextUsage, with.events);
      ProcessingKeeps(with, id);
    }
  }

  lemma UserStepKeeps(db: Db, step: Step)
    requires Inv(db) && (step.Update? || step.Validate? || step.Reject? || step.Contradict?)
    ensures Inv(Next(db, step))
  {
    if step.id in db.memories && Next(db, step) != db {
      var id, m := step.id, db.memories[step.id];
      assert InRange(m) && Tells(m, m.validations, m.contradictions);
      assert db.events + [] == db.events;
      match step
      case Update(_, _, _) => WritingKeeps(db, id, Next(db, step).memories[id], []);
      case Validate(_) => WritingKeeps(db, id, ValidatedByUser(m), [Validation(id, None)]);
      case Reject(_) => WritingKeeps(db, id, RejectedByUser(m), []);
      case Contradict(_, severity, failure) => WritingKeeps(db, id, Contradicted(m, severity, failure, false), [Contradiction(id, None, severity)]);
    }
  }

  lemma StepKeeps(db: Db, step: Step)
    requires Inv(db) && MayFollow(db, step)
    ensures Inv(Next(db, step))
  {
    match step
    case Create(id, source, initialConfidence, expiresAt, evidence) => CreatingKeeps(db, id, source, initialConfidence, expiresAt, evidence);
    case Use(id, now, forPolicy) => UsingKeeps(db, Usage(id, now, forPolicy, false, None, Details(None, NotGiven), None));
    case ChangeEvidence(evidence, reason) =>
      StalingKeepsBooks(db, db.links, evidence, reason);
      StalingKeepsUses(db, db.links, evidence, reason);
    case ExpireTtl(q) =>
      ExpiringKeepsBooks(db, q);
      ExpiringTouchesMemories(db, q);
    case GiveFeedback(usage, outcome, changedInput, details) => FeedbackKeeps(db, usage, outcome, changedInput, details);
    case ProcessDue(listing, limit) =>
      BatchesAreDue(db, listing, limit);
      BatchKeeps(db, Take(listing, limit));
    case RecordExecution(record, supports, details, now) => RecordingKeeps(db, db.links, record, supports, details, now);
    case _ => UserStepKeeps(db, step);
  }

  lemma {:induction false} RunKeeps(states: seq<Db>, steps: seq<Step>, n: nat)
    requires IsRun(states, steps) && n <= |steps|
    ensures Inv(states[n])
  {
    if n > 0 {
      RunKeeps(states, steps, n - 1);
      assert IsStepOf(states, steps, n - 1);
      StepKeeps(states[n - 1], steps[n - 1]);
    }
  }
}
