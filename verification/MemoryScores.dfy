/** How far contradictions, validations, changes of evidence and uses move the scores of a memory. */
module MemoryScores {
  import opened Wrappers
  import opened MemoryModel
  import opened MemoryRuns

  /** What may happen to a memory. */
  datatype Cause =
    | UserValidates
    | IsContradicted(severity: Severity, failure: Option<Id>, decisive: bool)
    | EvidenceChanges(reason: StaleReason)
    | TimeRunsOut
    | UseConfirms(usage: Usage, validated: bool)
    | UseFindsOutdated(usage: Usage)

  function Moved(m: Memory, cause: Cause): Memory {
    match cause
    case UserValidates => ValidatedByUser(m)
    case IsContradicted(severity, failure, decisive) => Contradicted(m, severity, failure, decisive)
    case EvidenceChanges(reason) => Staled(m, reason)
    case TimeRunsOut => PastItsTime(m)
    case UseConfirms(u, validated) => Confirmed(m, u, validated)
    case UseFindsOutdated(u) => FoundOutdated(m, u)
  }

  /** How much confidence, and how much staleness, each cause adds, in hundredths. */
  function Shift(cause: Cause): (int, int) {
    match cause
    case UserValidates => (10, -25)
    case IsContradicted(_, _, _) => (-15, 25)
    case EvidenceChanges(reason) =>
      (0, if reason == EnvironmentUpdated then 30 else if reason in {ManifestChanged, DocumentUpdated} then 25 else 20)
    case TimeRunsOut => (0, 10)
    case UseConfirms(u, validated) => (if u.forPolicy || u.changedInput then 5 else 3, if validated then -10 else -8)
    case UseFindsOutdated(u) => (0, if u.forPolicy then 30 else 20)
  }

  /** The nearest score from 0 to `top`. */
  function Within(x: int, top: nat): nat {
    if x < 0 then 0 else if x > top then top else x
  }

  ghost predicate AreMoves(ms: seq<Memory>, causes: seq<Cause>) {
    |ms| == |causes| + 1 && InRange(ms[0]) && forall i :: 0 <= i < |causes| ==> ms[i + 1] == Moved(ms[i], causes[i])
  }

  lemma OneShift(m: Memory, cause: Cause)
    requires InRange(m)
    ensures InRange(Moved(m, cause))
    ensures Moved(m, cause).confidence == Within(m.confidence + Shift(cause).0, 95)
    ensures Moved(m, cause).stale == Within(m.stale + Shift(cause).1, 100)
  {
  }

  /** Whatever happens to a memory, its scores stay in range. */
  lemma {:induction false} ScoresStayInRange(ms: seq<Memory>, causes: seq<Cause>, n: nat)
    requires AreMoves(ms, causes) && n <= |causes|
    ensures InRange(ms[n])
  {
    if n > 0 {
      ScoresStayInRange(ms, causes, n - 1);
      OneShift(ms[n - 1], causes[n - 1]);
    }
  }

  /** After n causes of one strength the scores have moved n times as far, as long as there was room. */
  lemma {:induction false} ScoresMoveSteadily(ms: seq<Memory>, causes: seq<Cause>, shift: (int, int), n: nat)
    requires AreMoves(ms, causes) && n <= |causes| && forall i :: 0 <= i < |causes| ==> Shift(causes[i]) == shift
    ensures ms[n].confidence == Within(ms[0].confidence + n * shift.0, 95)
    ensures ms[n].stale == Within(ms[0].stale + n * shift.1, 100)
  {
    if n > 0 {
      ScoresMoveSteadily(ms, causes, shift, n - 1);
      ScoresStayInRange(ms, causes, n - 1);
      OneShift(ms[n - 1], causes[n - 1]);
      OneStepFurther(ms[0].confidence, shift.0, n, 95);
      OneStepFurther(ms[0].stale, shift.1, n, 100);
    }
  }

  lemma OneStepFurther(x: int, d: int, n: nat, top: nat)
    requires 0 <= x <= top && n > 0
    ensures Within(Within(x + (n - 1) * d, top) + d, top) == Within(x + n * d, top)
  {
    var far := (n - 1) * d;
    assert n * d == far + d;
    if d >= 0 {
      assert far >= 0;
    } else {
      assert far <= 0;
    }
  }

  // ---------------------------------------------------------------- which memories a change of evidence reaches

  function LinksTo(links: seq<Link>, id: Id, evidence: Id): nat {
    if links == [] then 0
    else LinksTo(links[..|links| - 1], id, evidence) + if links[|links| - 1] == Link(id, evidence) then 1 else 0
  }

  function StaledTimes(m: Memory, reason: StaleReason, n: nat): Memory {
    if n == 0 then m else Staled(StaledTimes(m, reason, n - 1), reason)
  }

  lemma {:induction false} StalingNeverRejects(m: Memory, reason: StaleReason, n: nat)
    requires m.status != MemoryStatus.Rejected
    ensures StaledTimes(m, reason, n).status != MemoryStatus.Rejected
  {
    if n > 0 {
      StalingNeverRejects(m, reason, n - 1);
    }
  }

  lemma {:induction false} StalingReaches(db: Db, links: seq<Link>, evidence: Id, reason: StaleReason, id: Id)
    requires id in db.memories
    ensures var after := StaleAll(db, links, evidence, reason);
            && id in after.memories
            && after.memories[id] == if db.memories[id].status == MemoryStatus.Rejected then db.memories[id]
                                     else StaledTimes(db.memories[id], reason, LinksTo(links, id, evidence))
  {
    if links != [] {
      var front := links[..|links| - 1];
      StalingReaches(db, front, evidence, reason, id);
      if db.memories[id].status != MemoryStatus.Rejected {
        StalingNeverRejects(db.memories[id], reason, LinksTo(front, id, evidence));
      }
    }
  }

  /** A change of evidence makes each memory staler once for each of its links to it; rejected memories are left alone. */
  lemma ChangesReachExactlyTheLinked(db: Db, evidence: Id, reason: StaleReason, id: Id)
    requires id in db.memories
    ensures var after := AfterEvidenceChange(db, evidence, reason);
            && id in after.memories
            && after.memories[id] ==
                 if reason == NotAChange || db.memories[id].status == MemoryStatus.Rejected then db.memories[id]
                 else StaledTimes(db.memories[id], reason, LinksTo(db.links, id, evidence))
  {
    StalingReaches(db, db.links, evidence, reason, id);
  }

  // ---------------------------------------------------------------- what a contradiction does to the status

  predicate Demotes(ms: seq<Memory>, causes: seq<Cause>, i: nat)
    requires i < |causes| && |ms| == |causes| + 1
  {
    var cause := causes[i];
    && cause.IsContradicted?
    && (cause.severity in {High, Critical} || cause.decisive || (cause.failure.Some? && cause.failure == ms[i].lastFailure))
  }

  /**
   Over any contradictions the last one that is high, critical, decisive or repeats the failure before it decides the
   status: one that is critical or decisive asks for revalidation, any other makes the memory suspect, even one that
   had to be revalidated before.
   */
  lemma {:induction false} TheLastDemotionDecides(ms: seq<Memory>, causes: seq<Cause>, i: nat, n: nat)
    requires AreMoves(ms, causes) && i < n <= |causes| && Demotes(ms, causes, i)
    requires forall j :: i <= j < n ==> causes[j].IsContradicted?
    requires forall j :: i < j < n ==> !Demotes(ms, causes, j)
    ensures ms[n].status == if causes[i].severity == Critical || causes[i].decisive then NeedsRevalidation else Suspect
  {
    assert ms[n - 1 + 1] == Moved(ms[n - 1], causes[n - 1]);
    if i < n - 1 {
      TheLastDemotionDecides(ms, causes, i, n - 1);
      assert !Demotes(ms, causes, n - 1);
    }
  }
}
