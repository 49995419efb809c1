/**
 Project memories, the uses made of them, and what validations, contradictions, staleness and feedback
 make of their scores.  Scores are in hundredths.
 */
module MemoryModel {
  import opened Wrappers
  import opened Listings

  type Id = int

  datatype Source =
    | UserConfirmed | ExecutionLearned | DocumentImported | AgentSummarized | RepairInferred | ExternalImported | OtherSource

  datatype MemoryStatus = Active | NeedsReview | NeedsRevalidation | Suspect | Rejected | Archived

  datatype Severity = Low | Medium | High | Critical

  datatype Memory = Memory(
    source: Source, confidence: int, initialConfidence: int, stale: int, status: MemoryStatus, version: nat,
    validations: nat, recentValidations: nat, contradictions: nat, recentContradictions: nat,
    lastFailure: Option<Id>, maxSeverity: Option<Severity>, expiresAt: Option<int>)

  /** How a use of a memory turned out. */
  datatype Outcome = Validated | OtherPositive | Neutral | FoundStale | Contradicting | UnknownOutcome

  /** What was made of the feedback on a use. */
  datatype Decision =
    | MissingOrRejected | MemoryValidated | ConfidenceAdjusted | MarkedStale | ContradictionRecorded | NeutralOutcome | Ignored

  /** What came along with the feedback.  An unknown severity counts as medium. */
  datatype Details = Details(failure: Option<Id>, severity: GivenSeverity)
  datatype GivenSeverity = NotGiven | Given(severity: Severity) | Unknown

  /** A use is processed once it has a decision. */
  datatype Usage = Usage(
    memory: Id, createdAt: int, forPolicy: bool, changedInput: bool, outcome: Option<Outcome>, details: Details,
    decision: Option<Decision>)

  /** A memory rests on a piece of evidence. */
  datatype Link = Link(memory: Id, evidence: Id)

  datatype Event =
    | Validation(memory: Id, usage: Option<Id>)
    | Contradiction(memory: Id, usage: Option<Id>, severity: Severity)
    | Staleness(memory: Id, before: int, after: int)

  datatype Db = Db(memories: map<Id, Memory>, usages: map<Id, Usage>, nextUsage: nat, links: seq<Link>, events: seq<Event>)

  datatype StaleReason = EnvironmentUpdated | ManifestChanged | DocumentUpdated | OtherChange | NotAChange

  function Clamp(value: int, low: int, high: int): int {
    var capped := if high < value then high else value;
    if low > capped then low else capped
  }

  // ---------------------------------------------------------------- one memory

  function Created(source: Source, initialConfidence: int, expiresAt: Option<int>): Memory {
    Memory(source, initialConfidence, initialConfidence, 0, if IsTrusted(source) then Active else NeedsReview, 1,
           0, 0, 0, 0, None, None, expiresAt)
  }

  predicate IsTrusted(s: Source) {
    s == UserConfirmed || s == DocumentImported
  }

  function WithValidation(m: Memory): Memory {
    m.(validations := m.validations + 1, recentValidations := m.recentValidations + 1, version := m.version + 1)
  }

  function ValidatedByUser(m: Memory): Memory {
    WithValidation(m).(status := Active, confidence := Clamp(m.confidence + 10, 0, 95), stale := Clamp(m.stale - 25, 0, 100))
  }

  function RejectedByUser(m: Memory): Memory {
    m.(status := MemoryStatus.Rejected, confidence := if m.confidence < 10 then m.confidence else 10, stale := 100,
       version := m.version + 1)
  }

  function SeverityRank(s: Severity): nat {
    match s case Low => 1 case Medium => 2 case High => 3 case Critical => 4
  }

  function MaxSeverity(current: Option<Severity>, s: Severity): Severity {
    if current == None || SeverityRank(s) > SeverityRank(current.value) then s else current.value
  }

  /** `decisive`: the memory is what a policy decision rested on. */
  function Contradicted(m: Memory, severity: Severity, failure: Option<Id>, decisive: bool): Memory {
    var repeated := failure.Some? && m.lastFailure == failure;
    m.(contradictions := m.contradictions + 1, recentContradictions := m.recentContradictions + 1, lastFailure := failure,
       maxSeverity := Some(MaxSeverity(m.maxSeverity, severity)),
       confidence := Clamp(m.confidence - 15, 0, 95), stale := Clamp(m.stale + 25, 0, 100),
       status := if severity == Critical || decisive then NeedsRevalidation
                 else if severity == High || repeated then Suspect
                 else m.status)
  }

  function StaleDelta(reason: StaleReason): int {
    match reason case EnvironmentUpdated => 30 case ManifestChanged => 25 case DocumentUpdated => 25 case _ => 20
  }

  function Staled(m: Memory, reason: StaleReason): Memory {
    var stale := Clamp(m.stale + StaleDelta(reason), 0, 100);
    m.(stale := stale,
       status := if reason == ManifestChanged || reason == EnvironmentUpdated || stale >= 80 then NeedsRevalidation else m.status)
  }

  function PastItsTime(m: Memory): Memory {
    var stale := Clamp(m.stale + 10, 0, 100);
    m.(stale := stale, status := if stale >= 80 then NeedsRevalidation else m.status)
  }

  function Confirmed(m: Memory, u: Usage, validated: bool): Memory {
    var adjusted := m.(confidence := Clamp(m.confidence + (if u.forPolicy || u.changedInput then 5 else 3), 0, 95),
                       stale := Clamp(m.stale - (if validated then 10 else 8), 0, 100));
    var counted := if validated then WithValidation(adjusted) else adjusted;
    counted.(status := if Recovers(m, counted) || (validated && m.status in {NeedsReview, NeedsRevalidation, Suspect}) then Active
                       else m.status)
  }

  /** Enough trust has come back to use the memory again. */
  predicate Recovers(before: Memory, adjusted: Memory) {
    before.status == NeedsRevalidation && adjusted.stale <= 50 && adjusted.confidence >= adjusted.initialConfidence
  }

  function FoundOutdated(m: Memory, u: Usage): Memory {
    var stale := Clamp(m.stale + (if u.forPolicy then 30 else 20), 0, 100);
    m.(stale := stale, status := if u.forPolicy || stale >= 80 then NeedsRevalidation else m.status)
  }

  function SeverityOf(u: Usage): Severity {
    match u.details.severity
    case NotGiven => if u.changedInput then High else Medium
    case Given(s) => s
    case Unknown => Medium
  }

  // ---------------------------------------------------------------- single steps

  function AfterCreate(db: Db, id: Id, source: Source, initialConfidence: int, expiresAt: Option<int>, evidence: seq<Id>): Db {
    if id in db.memories then db
    else
      db.(memories := db.memories[id := Created(source, initialConfidence, expiresAt)],
          links := db.links + seq(|evidence|, i requires 0 <= i < |evidence| => Link(id, evidence[i])))
  }

  /** `update_memory`: contents are not looked at here, only whether they change. */
  function AfterUpdate(db: Db, id: Id, status: Option<MemoryStatus>, otherChange: bool): Db {
    if id !in db.memories then db
    else
      var m := db.memories[id];
      if status == Some(Active) && !IsTrusted(m.source) then db
      else
        var changed := otherChange || (status.Some? && status.value != m.status);
        db.(memories := db.memories[id := m.(status := if status.Some? then status.value else m.status,
                                             version := if changed then m.version + 1 else m.version)])
  }

  function AfterValidate(db: Db, id: Id): Db {
    if id !in db.memories || db.memories[id].source == RepairInferred then db
    else db.(memories := db.memories[id := ValidatedByUser(db.memories[id])], events := db.events + [Validation(id, None)])
  }

  function AfterReject(db: Db, id: Id): Db {
    if id !in db.memories then db else db.(memories := db.memories[id := RejectedByUser(db.memories[id])])
  }

  function AfterContradiction(db: Db, id: Id, severity: Severity, failure: Option<Id>): Db {
    if id !in db.memories then db
    else
      db.(memories := db.memories[id := Contradicted(db.memories[id], severity, failure, false)],
          events := db.events + [Contradiction(id, None, severity)])
  }

  function AfterUse(db: Db, id: Id, now: int, forPolicy: bool): Db {
    if id !in db.memories then db
    else
      WithUse(db, Usage(id, now, forPolicy, false, None, Details(None, NotGiven), None))
  }

  function WithUse(db: Db, u: Usage): Db {
    db.(usages := db.usages[db.nextUsage := u], nextUsage := db.nextUsage + 1)
  }

  // ---------------------------------------------------------------- staleness

  function StaleOne(db: Db, link: Link, evidence: Id, reason: StaleReason): Db {
    if link.evidence != evidence || link.memory !in db.memories || db.memories[link.memory].status == MemoryStatus.Rejected then db
    else
      var m := Staled(db.memories[link.memory], reason);
      db.(memories := db.memories[link.memory := m],
          events := db.events + [Staleness(link.memory, db.memories[link.memory].stale, m.stale)])
  }

  function StaleAll(db: Db, links: seq<Link>, evidence: Id, reason: StaleReason): Db {
    if links == [] then db else StaleOne(StaleAll(db, links[..|links| - 1], evidence, reason), links[|links| - 1], evidence, reason)
  }

  /** `mark_memories_stale_for_ref`. */
  function AfterEvidenceChange(db: Db, evidence: Id, reason: StaleReason): Db {
    if reason == NotAChange then db else StaleAll(db, db.links, evidence, reason)
  }

  predicate IsPastItsTime(m: Memory, now: int) {
    m.expiresAt.Some? && m.expiresAt.value <= now && m.validations == 0 && m.status !in {MemoryStatus.Rejected, Archived}
  }

  /** `order by expires_at, id`. */
  function ExpiryRanks(db: Db, now: int): map<Id, Rank> {
    map id | id in db.memories && IsPastItsTime(db.memories[id], now) :: (db.memories[id].expiresAt.value, id)
  }

  function ExpireAll(db: Db, q: seq<Id>): Db {
    if q == [] then db
    else
      var before := ExpireAll(db, q[..|q| - 1]);
      var id := q[|q| - 1];
      if id in before.memories then before.(memories := before.memories[id := PastItsTime(before.memories[id])]) else before
  }

  function Take(q: seq<Id>, limit: nat): seq<Id> {
    if |q| <= limit then q else q[..limit]
  }

  // ---------------------------------------------------------------- feedback

  function DecisionOn(db: Db, u: Usage): Decision {
    if u.memory !in db.memories || db.memories[u.memory].status == MemoryStatus.Rejected then MissingOrRejected
    else
      match u.outcome
      case None => Ignored
      case Some(Validated) => MemoryValidated
      case Some(OtherPositive) => ConfidenceAdjusted
      case Some(FoundStale) => MarkedStale
      case Some(Contradicting) => ContradictionRecorded
      case Some(Neutral) => NeutralOutcome
      case Some(UnknownOutcome) => Ignored
  }

  function MemoryAfter(m: Memory, u: Usage, decision: Decision): Memory {
    match decision
    case MemoryValidated => Confirmed(m, u, true)
    case ConfidenceAdjusted => Confirmed(m, u, false)
    case MarkedStale => FoundOutdated(m, u)
    case ContradictionRecorded => Contradicted(m, SeverityOf(u), u.details.failure, u.forPolicy)
    case _ => m
  }

  function EventsAfter(u: Usage, id: Id, decision: Decision): seq<Event> {
    match decision
    case MemoryValidated => [Validation(u.memory, Some(id))]
    case ContradictionRecorded => [Contradiction(u.memory, Some(id), SeverityOf(u))]
    case _ => []
  }

  /** `_process_usage_event`. */
  function ProcessUsage(db: Db, id: Id): Db
    requires id in db.usages
  {
    var u := db.usages[id];
    var decision := DecisionOn(db, u);
    db.(memories := if decision == MissingOrRejected then db.memories
                    else db.memories[u.memory := MemoryAfter(db.memories[u.memory], u, decision)],
        usages := db.usages[id := u.(decision := Some(decision))],
        events := db.events + EventsAfter(u, id, decision))
  }

  predicate IsDue(u: Usage) {
    u.outcome.Some? && u.decision == None
  }

  /** `order by created_at, id`. */
  function DueRanks(db: Db): map<Id, Rank> {
    map id | id in db.usages && IsDue(db.usages[id]) :: (db.usages[id].createdAt, id)
  }

  function ProcessAll(db: Db, q: seq<Id>): Db {
    if q == [] then db
    else
      var before := ProcessAll(db, q[..|q| - 1]);
      if q[|q| - 1] in before.usages then ProcessUsage(before, q[|q| - 1]) else before
  }

  /** `record_usage_feedback`. */
  function AfterFeedback(db: Db, id: Id, outcome: Outcome, changedInput: Option<bool>, details: Details): Db {
    if id !in db.usages || db.usages[id].memory !in db.memories || db.usages[id].decision.Some? then db
    else
      var u := db.usages[id];
      var changed := if changedInput.Some? then changedInput.value else u.changedInput;
      ProcessUsage(db.(usages := db.usages[id := u.(outcome := Some(outcome), changedInput := changed, details := details)]), id)
  }

  function RecordedUse(memory: Id, supports: bool, details: Details, now: int): Usage {
    Usage(memory, now, true, !supports, Some(if supports then Validated else Contradicting), details, None)
  }

  /** What an execution record says about a memory that rests on it: `validated` or not. */
  function RecordUse(db: Db, link: Link, record: Id, supports: bool, details: Details, now: int): Db {
    if link.evidence != record || link.memory !in db.memories || db.memories[link.memory].status == MemoryStatus.Rejected then db
    else
      ProcessUsage(WithUse(db, RecordedUse(link.memory, supports, details, now)), db.nextUsage)
  }

  /** `process_execution_record_created`. */
  function RecordAll(db: Db, links: seq<Link>, record: Id, supports: bool, details: Details, now: int): Db {
    if links == [] then db
    else RecordUse(RecordAll(db, links[..|links| - 1], record, supports, details, now), links[|links| - 1], record, supports, details, now)
  }

  /** How many of the uses got the decision. */
  function CountDecided(db: Db, q: seq<Id>, decision: Decision): nat {
    if q == [] then 0
    else
      CountDecided(db, q[..|q| - 1], decision)
      + if q[|q| - 1] in db.usages && db.usages[q[|q| - 1]].decision == Some(decision) then 1 else 0
  }
}
