/** The memory tables as mutable state, and the services that keep their books. */
module MemoryStore {
  import opened Wrappers
  import opened Listings
  import opened MemoryModel

  /** What a feedback batch reports. */
  datatype Report = Report(attempted: nat, processed: nat, skipped: nat, contradictions: nat, validations: nat)

  class ProjectMemoryStore {
    var memories: map<Id, Memory>
    var usages: map<Id, Usage>
    var nextUsage: nat
    var links: seq<Link>
    var events: seq<Event>

    constructor ()
      ensures State() == Db(map[], map[], 0, [], [])
    {
      memories, usages, nextUsage, links, events := map[], map[], 0, [], [];
    }

    function State(): Db
      reads this
    {
      Db(memories, usages, nextUsage, links, events)
    }

    // -------------------------------------------------------------- MemoryManager

    method CreateMemory(id: Id, source: Source, initialConfidence: int, expiresAt: Option<int>, evidence: seq<Id>)
      modifies this
      ensures State() == AfterCreate(old(State()), id, source, initialConfidence, expiresAt, evidence)
    {
      if id in memories {
        return;
      }
      memories := memories[id := Created(source, initialConfidence, expiresAt)];
      var before := links;
      for i := 0 to |evidence|
        invariant links == before + seq(i, j requires 0 <= j < i => Link(id, evidence[j]))
        invariant State() == old(State()).(memories := memories, links := links)
        invariant memories == old(memories)[id := Created(source, initialConfidence, expiresAt)]
      {
        links := links + [Link(id, evidence[i])];
      }
    }

    method UpdateMemory(id: Id, status: Option<MemoryStatus>, otherChange: bool)
      modifies this`memories
      ensures State() == AfterUpdate(old(State()), id, status, otherChange)
    {
      if id !in memories || (status == Some(Active) && !IsTrusted(memories[id].source)) {
        return;
      }
      var memory, changed := memories[id], otherChange;
      if status.Some? && memory.status != status.value {
        memory := memory.(status := status.value);
        changed := true;
      }
      if changed {
        memory := memory.(version := memory.version + 1);
      }
      memories := memories[id := memory];
    }

    method ValidateMemory(id: Id)
      modifies this`memories, this`events
      ensures State() == AfterValidate(old(State()), id)
    {
      if id !in memories || memories[id].source == RepairInferred {
        return;
      }
      var memory := memories[id];
      memory := memory.(status := Active);
      memory := memory.(validations := memory.validations + 1);
      memory := memory.(recentValidations := memory.recentValidations + 1);
      memory := memory.(confidence := Clamp(memory.confidence + 10, 0, 95));
      memory := memory.(stale := Clamp(memory.stale - 25, 0, 100));
      memory := memory.(version := memory.version + 1);
      memories := memories[id := memory];
      events := events + [Validation(id, None)];
    }

    method RejectMemory(id: Id)
      modifies this`memories
      ensures State() == AfterReject(old(State()), id)
    {
      if id !in memories {
        return;
      }
      var memory := memories[id];
      memory := memory.(status := MemoryStatus.Rejected);
      memory := memory.(confidence := if memory.confidence < 10 then memory.confidence else 10);
      memory := memory.(stale := 100);
      memory := memory.(version := memory.version + 1);
      memories := memories[id := memory];
    }

    method RecordContradiction(id: Id, severity: Severity, failure: Option<Id>)
      modifies this`memories, this`events
      ensures State() == AfterContradiction(old(State()), id, severity, failure)
    {
      if id !in memories {
        return;
      }
      events := events + [Contradiction(id, None, severity)];
      Contradict(id, severity, failure, false);
    }

    method Contradict(id: Id, severity: Severity, failure: Option<Id>, decisive: bool)
      requires id in memories
      modifies this`memories
      ensures memories == old(memories)[id := Contradicted(old(memories)[id], severity, failure, decisive)]
    {
      var memory := memories[id];
      var repeated := failure.Some? && memory.lastFailure == failure;
      memory := memory.(contradictions := memory.contradictions + 1);
      memory := memory.(recentContradictions := memory.recentContradictions + 1);
      memory := memory.(lastFailure := failure);
      memory := memory.(maxSeverity := Some(MaxSeverity(memory.maxSeverity, severity)));
      memory := memory.(confidence := Clamp(memory.confidence - 15, 0, 95));
      memory := memory.(stale := Clamp(memory.stale + 25, 0, 100));
      if severity == Critical || decisive {
        memory := memory.(status := NeedsRevalidation);
      } else if severity == High || repeated {
        memory := memory.(status := Suspect);
      }
      memories := memories[id := memory];
    }

    /** A memory was retrieved. */
    method RecordUsage(id: Id, now: int, forPolicy: bool)
      modifies this`usages, this`nextUsage
      ensures State() == AfterUse(old(State()), id, now, forPolicy)
    {
      if id !in memories {
        return;
      }
      usages := usages[nextUsage := Usage(id, now, forPolicy, false, None, Details(None, NotGiven), None)];
      nextUsage := nextUsage + 1;
    }

    // -------------------------------------------------------------- MemoryStalenessWorker

    method MarkMemoriesStaleForRef(evidence: Id, reason: StaleReason) returns (touched: nat)
      modifies this`memories, this`events
      ensures State() == AfterEvidenceChange(old(State()), evidence, reason)
      ensures |events| == |old(events)| + touched
    {
      touched := 0;
      if reason == NotAChange {
        return;
      }
      for i := 0 to |links|
        invariant State() == StaleAll(old(State()), links[..i], evidence, reason)
        invariant |events| == |old(events)| + touched && links == old(links)
      {
        assert links[..i + 1][..i] == links[..i];
        var id := links[i].memory;
        if links[i].evidence != evidence || id !in memories || memories[id].status == MemoryStatus.Rejected {
          continue;
        }
        var memory, before := memories[id], memories[id].stale;
        memory := memory.(stale := Clamp(memory.stale + StaleDelta(reason), 0, 100));
        if reason == ManifestChanged || reason == EnvironmentUpdated || memory.stale >= 80 {
          memory := memory.(status := NeedsRevalidation);
        }
        memories := memories[id := memory];
        events := events + [Staleness(id, before, memory.stale)];
        touched := touched + 1;
      }
      assert links[..|links|] == links;
    }

    // -------------------------------------------------------------- MemoryMaintenanceWorker

    method ProcessExpiredTtl(now: int, limit: nat) returns (attempted: nat)
      modifies this`memories
      ensures exists q :: IsListing(q, ExpiryRanks(old(State()), now))
                          && State() == ExpireAll(old(State()), Take(q, limit)) && attempted == |Take(q, limit)|
    {
      var q := Listing(ExpiryRanks(State(), now));
      forall i | 0 <= i < |Take(q, limit)| ensures Take(q, limit)[i] in memories {
        assert q[i] in ExpiryRanks(State(), now);
      }
      ExpireEach(Take(q, limit));
      attempted := |Take(q, limit)|;
    }

    method ExpireEach(expired: seq<Id>)
      requires forall i :: 0 <= i < |expired| ==> expired[i] in memories
      modifies this`memories
      ensures State() == ExpireAll(old(State()), expired)
    {
      for i := 0 to |expired|
        invariant State() == ExpireAll(old(State()), expired[..i])
        invariant memories.Keys == old(memories).Keys
      {
        assert expired[..i + 1][..i] == expired[..i];
        var memory := memories[expired[i]];
        memory := memory.(stale := Clamp(memory.stale + 10, 0, 100));
        if memory.stale >= 80 {
          memory := memory.(status := NeedsRevalidation);
        }
        memories := memories[expired[i] := memory];
      }
      assert expired[..|expired|] == expired;
    }

    // -------------------------------------------------------------- MemoryFeedbackWorker

    method ProcessUsageEvent(id: Id) returns (decision: Decision)
      requires id in usages
      modifies this`memories, this`usages, this`events
      ensures State() == ProcessUsage(old(State()), id)
      ensures decision == DecisionOn(old(State()), old(usages)[id])
    {
      var u := usages[id];
      if u.memory !in memories || memories[u.memory].status == MemoryStatus.Rejected {
        usages := usages[id := u.(decision := Some(MissingOrRejected))];
        return MissingOrRejected;
      }
      decision := Ignored;
      match u.outcome {
        case Some(Validated) =>
          decision := MemoryValidated;
          Confirm(u, true);
          events := events + [Validation(u.memory, Some(id))];
        case Some(OtherPositive) =>
          decision := ConfidenceAdjusted;
          Confirm(u, false);
        case Some(FoundStale) =>
          decision := MarkedStale;
          var memory := memories[u.memory];
          memory := memory.(stale := Clamp(memory.stale + (if u.forPolicy then 30 else 20), 0, 100));
          if u.forPolicy || memory.stale >= 80 {
            memory := memory.(status := NeedsRevalidation);
          }
          memories := memories[u.memory := memory];
        case Some(Contradicting) =>
          decision := ContradictionRecorded;
          var severity := SeverityOf(u);
          events := events + [Contradiction(u.memory, Some(id), severity)];
          Contradict(u.memory, severity, u.details.failure, u.forPolicy);
        case Some(Neutral) =>
          decision := NeutralOutcome;
        case _ =>
      }
      usages := usages[id := u.(decision := Some(decision))];
      assert memories == old(memories)[u.memory := MemoryAfter(old(memories)[u.memory], u, decision)];
    }

    method Confirm(u: Usage, validated: bool)
      requires u.memory in memories
      modifies this`memories
      ensures memories == old(memories)[u.memory := Confirmed(old(memories)[u.memory], u, validated)]
    {
      var memory := memories[u.memory];
      var delta := if u.forPolicy || u.changedInput then 5 else 3;
      var staleDelta := if validated then 10 else 8;
      memory := memory.(confidence := Clamp(memory.confidence + delta, 0, 95));
      memory := memory.(stale := Clamp(memory.stale - staleDelta, 0, 100));
      if validated {
        memory := memory.(validations := memory.validations + 1);
        memory := memory.(recentValidations := memory.recentValidations + 1);
        memory := memory.(version := memory.version + 1);
      }
      if (memory.status == NeedsRevalidation && memory.stale <= 50 && memory.confidence >= memory.initialConfidence)
         || (validated && memory.status in {NeedsReview, NeedsRevalidation, Suspect}) {
        memory := memory.(status := Active);
      }
      memories := memories[u.memory := memory];
    }

    method RecordUsageFeedback(id: Id, outcome: Outcome, changedInput: Option<bool>, details: Details)
      modifies this`memories, this`usages, this`events
      ensures State() == AfterFeedback(old(State()), id, outcome, changedInput, details)
    {
      if id !in usages || usages[id].memory !in memories || usages[id].decision.Some? {
        return;
      }
      var u := usages[id];
      u := u.(outcome := Some(outcome));
      if changedInput.Some? {
        u := u.(changedInput := changedInput.value);
      }
      u := u.(details := details);
      usages := usages[id := u];
      var decision := ProcessUsageEvent(id);
    }

    method ProcessDue(limit: nat) returns (report: Report)
      modifies this`memories, this`usages, this`events
      ensures exists q :: IsListing(q, DueRanks(old(State()))) && State() == ProcessAll(old(State()), Take(q, limit))
                          && IsReport(State(), Take(q, limit), report)
    {
      var q := Listing(DueRanks(State()));
      BatchIsDue(State(), q, limit);
      report := ProcessEach(Take(q, limit));
    }

    method ProcessEach(due: seq<Id>) returns (report: Report)
      requires forall i :: 0 <= i < |due| ==> due[i] in usages
      requires forall i, j :: 0 <= i < j < |due| ==> due[i] != due[j]
      modifies this`memories, this`usages, this`events
      ensures State() == ProcessAll(old(State()), due)
      ensures IsReport(State(), due, report)
    {
      var skipped, contradictions, validations := 0, 0, 0;
      for i := 0 to |due|
        invariant State() == ProcessAll(old(State()), due[..i])
        invariant usages.Keys == old(usages).Keys
        invariant IsTally(State(), due[..i], skipped, contradictions, validations)
      {
        ProcessStep(old(State()), due, i);
        TallyStep(State(), due, i, skipped, contradictions, validations);
        var decision := ProcessUsageEvent(due[i]);
        if decision == ContradictionRecorded {
          contradictions := contradictions + 1;
        }
        if decision == MemoryValidated {
          validations := validations + 1;
        }
        if decision == MissingOrRejected || decision == Ignored {
          skipped := skipped + 1;
        }
      }
      assert due[..|due|] == due;
      report := Report(|due|, |due| - skipped, skipped, contradictions, validations);
    }

    method RecordUseOf(link: Link, record: Id, supports: bool, details: Details, now: int) returns (decision: Decision)
      requires link.evidence == record
      modifies this`memories, this`usages, this`nextUsage, this`events
      ensures State() == RecordUse(old(State()), link, record, supports, details, now)
      ensures decision == MissingOrRejected || decision == if supports then MemoryValidated else ContradictionRecorded
    {
      if link.memory !in memories || memories[link.memory].status == MemoryStatus.Rejected {
        return MissingOrRejected;
      }
      var outcome := if supports then Validated else Contradicting;
      usages := usages[nextUsage := Usage(link.memory, now, true, !supports, Some(outcome), details, None)];
      nextUsage := nextUsage + 1;
      decision := ProcessUsageEvent(nextUsage - 1);
    }

    method ProcessExecutionRecordCreated(record: Id, supports: bool, details: Details, now: int) returns (decisions: seq<Decision>)
      modifies this`memories, this`usages, this`nextUsage, this`events
      ensures State() == RecordAll(old(State()), links, record, supports, details, now)
      ensures forall i :: 0 <= i < |decisions| ==>
                decisions[i] == MissingOrRejected || decisions[i] == if supports then MemoryValidated else ContradictionRecorded
    {
      decisions := [];
      for i := 0 to |links|
        invariant State() == RecordAll(old(State()), links[..i], record, supports, details, now) && links == old(links)
        invariant forall j :: 0 <= j < |decisions| ==>
                    decisions[j] == MissingOrRejected || decisions[j] == if supports then MemoryValidated else ContradictionRecorded
      {
        assert links[..i + 1][..i] == links[..i];
        if links[i].evidence != record {
          continue;
        }
        var decision := RecordUseOf(links[i], record, supports, details, now);
        decisions := decisions + [decision];
      }
      assert links[..|links|] == links;
    }
  }

  ghost predicate IsReport(db: Db, q: seq<Id>, r: Report) {
    && r.attempted == |q| && r.processed + r.skipped == r.attempted
    && r.skipped == CountDecided(db, q, MissingOrRejected) + CountDecided(db, q, Ignored)
    && r.contradictions == CountDecided(db, q, ContradictionRecorded)
    && r.validations == CountDecided(db, q, MemoryValidated)
  }

  lemma BatchIsDue(db: Db, q: seq<Id>, limit: nat)
    requires IsListing(q, DueRanks(db))
    ensures forall i :: 0 <= i < |Take(q, limit)| ==> Take(q, limit)[i] in db.usages
    ensures forall i, j :: 0 <= i < j < |Take(q, limit)| ==> Take(q, limit)[i] != Take(q, limit)[j]
  {
    assert forall i :: 0 <= i < |Take(q, limit)| ==> Take(q, limit)[i] == q[i];
  }

  ghost predicate IsTally(db: Db, q: seq<Id>, skipped: nat, contradictions: nat, validations: nat) {
    && skipped == CountDecided(db, q, MissingOrRejected) + CountDecided(db, q, Ignored) <= |q|
    && contradictions == CountDecided(db, q, ContradictionRecorded)
    && validations == CountDecided(db, q, MemoryValidated)
  }

  lemma ProcessStep(db: Db, due: seq<Id>, i: nat)
    requires i < |due| && due[i] in ProcessAll(db, due[..i]).usages
    ensures ProcessAll(db, due[..i + 1]) == ProcessUsage(ProcessAll(db, due[..i]), due[i])
  {
    assert due[..i + 1][..i] == due[..i];
  }

  lemma TallyStep(db: Db, due: seq<Id>, i: nat, skipped: nat, contradictions: nat, validations: nat)
    requires i < |due| && due[i] in db.usages && due[i] !in due[..i]
    requires IsTally(db, due[..i], skipped, contradictions, validations)
    ensures var d := DecisionOn(db, db.usages[due[i]]);
            IsTally(ProcessUsage(db, due[i]), due[..i + 1],
                    skipped + (if d == MissingOrRejected || d == Ignored then 1 else 0),
                    contradictions + (if d == ContradictionRecorded then 1 else 0),
                    validations + (if d == MemoryValidated then 1 else 0))
  {
    CountsStay(db, due[..i], due[i]);
    assert due[..i + 1][..i] == due[..i];
  }

  /** Processing another use does not change how the others were decided. */
  lemma {:induction false} CountsStay(db: Db, q: seq<Id>, id: Id)
    requires id in db.usages && id !in q
    ensures forall d :: CountDecided(ProcessUsage(db, id), q, d) == CountDecided(db, q, d)
  {
    if q != [] {
      CountsStay(db, q[..|q| - 1], id);
    }
  }
}
