/** The scanner that expires overdue approvals in batches, and the audit it reports. */
module ApprovalExpiry {
  import opened Wrappers
  import opened Listings
  import opened ApprovalModel
  import opened ApprovalStore
  import opened ApprovalRuns
  import opened ApprovalSafety

  /** What is looked for: the approvals of one project, or of all. */
  datatype Scope = Scope(project: Option<Id>, now: int)

  predicate Wanted(a: Approval, scope: Scope) {
    IsDue(a, scope.now) && (scope.project == None || a.project == scope.project.value)
  }

  function Due(db: Db, scope: Scope): set<Key> {
    set k | k in db.approvals && Wanted(db.approvals[k], scope)
  }

  function Expiry(a: Approval): int {
    if a.expiresAt.Some? then a.expiresAt.value else 0
  }

  /** `order by approval_lineage_id, expires_at`. */
  function Ranks(db: Db, scope: Scope): map<Key, Rank> {
    map k | k in db.approvals && Wanted(db.approvals[k], scope) :: (k.lineage, Expiry(db.approvals[k]))
  }

  ghost predicate IsDueListing(db: Db, scope: Scope, q: seq<Key>) {
    IsListing(q, Ranks(db, scope))
  }

  // ---------------------------------------------------------------- the audit

  datatype AuditReport = AuditReport(
    dueCount: nat, lineageCount: nat, oldestLag: nat, hotspots: set<Id>, batchSafe: bool)

  function Lineages(s: set<Key>): set<Id> {
    set k | k in s :: k.lineage
  }

  /** The lineages with more than one overdue approval. */
  ghost predicate IsHotspot(s: set<Key>, l: Id) {
    exists j, k :: j in s && k in s && j != k && j.lineage == k.lineage == l
  }

  ghost predicate NoHotspot(s: set<Key>) {
    forall l :: !IsHotspot(s, l)
  }

  /** How long the approval that fell due first has waited. */
  ghost predicate IsOldestLag(db: Db, scope: Scope, lag: nat) {
    var due := Due(db, scope);
    if due == {} then lag == 0
    else
      && (exists k :: k in due && lag == scope.now - Expiry(db.approvals[k]))
      && (forall k :: k in due ==> scope.now - Expiry(db.approvals[k]) <= lag)
  }

  ghost predicate IsAudit(db: Db, scope: Scope, report: AuditReport) {
    var due := Due(db, scope);
    && report.dueCount == |due| && report.lineageCount == |Lineages(due)|
    && IsOldestLag(db, scope, report.oldestLag)
    && (forall l :: l in report.hotspots <==> IsHotspot(due, l))
    && (report.batchSafe <==> NoHotspot(due))
  }

  // ---------------------------------------------------------------- one batch

  datatype Summary = Summary(
    attempted: nat, expired: nat, skipped: nat, skippedDuplicates: nat, processed: seq<Id>,
    dueBefore: nat, dueAfter: nat, lagBefore: nat, lagAfter: nat, batchSafe: bool)

  function Take(q: seq<Key>, limit: nat): seq<Key> {
    if |q| <= limit then q else q[..limit]
  }

  /** The first key of each lineage. */
  function Firsts(q: seq<Key>): seq<Key> {
    if q == [] then []
    else
      var front, last := Firsts(q[..|q| - 1]), q[|q| - 1];
      if Seen(q, |q| - 1, last.lineage) then front else front + [last]
  }

  /** One of the first `n` keys belongs to the lineage. */
  predicate Seen(q: seq<Key>, n: nat, l: Id)
    requires n <= |q|
  {
    l in SeenLineages(q, n)
  }

  function SeenLineages(q: seq<Key>, n: nat): set<Id>
    requires n <= |q|
  {
    set i | 0 <= i < n :: q[i].lineage
  }

  ghost predicate SeenTwice(q: seq<Key>, n: nat, l: Id)
    requires n <= |q|
  {
    exists i, j :: 0 <= i < j < n && q[i].lineage == q[j].lineage == l
  }

  function ExpireAll(db: Db, q: seq<Key>, now: int): Db {
    if q == [] then db else AfterExpire(ExpireAll(db, q[..|q| - 1], now), q[|q| - 1], now)
  }

  /** How many were expired right after their turn. */
  function CountExpired(db: Db, q: seq<Key>, now: int): nat {
    if q == [] then 0
    else
      CountExpired(db, q[..|q| - 1], now)
      + (if StatusOf(ExpireAll(db, q, now).approvals, q[|q| - 1]) == Some(Expired) then 1 else 0)
  }

  /** `after` is what one batch leaves. */
  ghost predicate IsBatch(db: Db, after: Db, scope: Scope, limit: nat) {
    exists q :: IsDueListing(db, scope, q) && after == ExpireAll(db, Firsts(Take(q, limit)), scope.now)
  }

  ghost predicate IsSummary(db: Db, after: Db, scope: Scope, limit: nat, q: seq<Key>, s: Summary) {
    var taken := Take(q, limit);
    && IsDueListing(db, scope, q)
    && after == ExpireAll(db, Firsts(taken), scope.now)
    && s.attempted == |Firsts(taken)| && s.expired == CountExpired(db, Firsts(taken), scope.now)
    && s.skippedDuplicates == |taken| - s.attempted && s.skipped == |taken| - s.expired
    && |s.processed| == s.attempted && (forall i :: 0 <= i < s.attempted ==> s.processed[i] == Firsts(taken)[i].lineage)
    && s.dueBefore == |Due(db, scope)| && s.dueAfter == |Due(after, scope)|
    && IsOldestLag(db, scope, s.lagBefore) && IsOldestLag(after, scope, s.lagAfter)
    && (s.batchSafe <==> NoHotspot(Due(db, scope)) && NoHotspot(Due(after, scope)))
  }

  class ApprovalExpireScanner {
    const guard: Store

    constructor (guard: Store)
      ensures this.guard == guard
    {
      this.guard := guard;
    }

    method Audit(scope: Scope) returns (report: AuditReport)
      ensures IsAudit(guard.State(), scope, report)
    {
      var q := Listing(Ranks(guard.State(), scope));
      var lineages, hotspots := CountLineages(q);
      ListedAreDue(guard.State(), scope, q);
      var lag := OldestLag(guard.State(), scope, q);
      LineagesOf(q, Due(guard.State(), scope), lineages, hotspots);
      report := AuditReport(|q|, |lineages|, lag, hotspots, hotspots == {});
    }

    method CountLineages(q: seq<Key>) returns (lineages: set<Id>, hotspots: set<Id>)
      ensures lineages == SeenLineages(q, |q|)
      ensures forall l :: l in hotspots <==> SeenTwice(q, |q|, l)
    {
      lineages, hotspots := {}, {};
      for i := 0 to |q|
        invariant lineages == SeenLineages(q, i)
        invariant forall l :: l in hotspots <==> SeenTwice(q, i, l)
      {
        SeenStep(q, i);
        SeenTwiceStep(q, i);
        if q[i].lineage in lineages {
          hotspots := hotspots + {q[i].lineage};
        }
        lineages := lineages + {q[i].lineage};
      }
    }

    method OldestLag(db: Db, scope: Scope, q: seq<Key>) returns (lag: nat)
      requires forall i :: 0 <= i < |q| ==> q[i] in Due(db, scope)
      requires forall k :: k in Due(db, scope) ==> k in q
      ensures IsOldestLag(db, scope, lag)
    {
      lag := 0;
      for i := 0 to |q|
        invariant forall j :: 0 <= j < i ==> scope.now - Expiry(db.approvals[q[j]]) <= lag
        invariant i == 0 ==> lag == 0
        invariant i > 0 ==> exists j :: 0 <= j < i && lag == scope.now - Expiry(db.approvals[q[j]])
      {
        var waited := scope.now - Expiry(db.approvals[q[i]]);
        lag := if i == 0 || waited > lag then waited else lag;
      }
      if q != [] {
        var j :| 0 <= j < |q| && lag == scope.now - Expiry(db.approvals[q[j]]);
        assert q[j] in Due(db, scope);
      }
    }

    method ExpireDueSummary(scope: Scope, limit: nat) returns (s: Summary)
      modifies guard
      ensures exists q :: IsSummary(old(guard.State()), guard.State(), scope, limit, q, s)
      ensures IsBatch(old(guard.State()), guard.State(), scope, limit)
    {
      ghost var db := guard.State();
      var before := Audit(scope);
      var q := Listing(Ranks(guard.State(), scope));
      var tally, duplicates := ExpireEach(Take(q, limit), scope.now);
      var after := Audit(scope);
      s := Summary(tally.attempted, tally.expired, (tally.attempted - tally.expired) + duplicates, duplicates, tally.processed,
                   before.dueCount, after.dueCount, before.oldestLag, after.oldestLag, before.batchSafe && after.batchSafe);
      assert IsSummary(db, guard.State(), scope, limit, q, s);
    }

    method ExpireNext(ghost db: Db, ghost done: seq<Key>, approval: Key, now: int, tally: Tally) returns (next: Tally)
      requires IsProgress(db, done, now, guard.State(), tally)
      modifies guard
      ensures IsProgress(db, done + [approval], now, guard.State(), next) && next.attempted == tally.attempted + 1
    {
      ExpireStep(db, done, approval, now);
      next := tally.(attempted := tally.attempted + 1, processed := tally.processed + [approval.lineage]);
      var status := guard.ExpireApproval(approval, now);
      if status == Some(Expired) {
        next := next.(expired := next.expired + 1);
      }
    }

    /** One short transaction per lineage. */
    method ExpireEach(approvals: seq<Key>, now: int) returns (tally: Tally, duplicates: nat)
      modifies guard
      ensures IsProgress(old(guard.State()), Firsts(approvals), now, guard.State(), tally)
      ensures duplicates == |approvals| - tally.attempted
    {
      tally, duplicates := Tally(0, 0, []), 0;
      var seen := {};
      for i := 0 to |approvals|
        invariant seen == SeenLineages(approvals, i)
        invariant IsProgress(old(guard.State()), Firsts(approvals[..i]), now, guard.State(), tally)
        invariant duplicates == i - tally.attempted
      {
        var approval := approvals[i];
        SeenStep(approvals, i);
        FirstsStep(approvals, i);
        if approval.lineage in seen {
          duplicates := duplicates + 1;
          continue;
        }
        seen := seen + {approval.lineage};
        tally := ExpireNext(old(guard.State()), Firsts(approvals[..i]), approval, now, tally);
      }
      assert approvals[..|approvals|] == approvals;
    }
  }

  /** What a batch has counted so far. */
  datatype Tally = Tally(attempted: nat, expired: nat, processed: seq<Id>)

  /** The approvals in `done` had their turn; `after` is what they left. */
  ghost predicate IsProgress(db: Db, done: seq<Key>, now: int, after: Db, t: Tally) {
    && after == ExpireAll(db, done, now)
    && t.attempted == |t.processed| == |done| && t.expired == CountExpired(db, done, now) <= t.attempted
    && (forall j :: 0 <= j < t.attempted ==> t.processed[j] == done[j].lineage)
  }

  lemma ListedAreDue(db: Db, scope: Scope, q: seq<Key>)
    requires IsDueListing(db, scope, q)
    ensures |q| == |Due(db, scope)| && (forall k :: k in q <==> k in Due(db, scope))
  {
    ListingHasEveryKey(q, Ranks(db, scope));
    assert Ranks(db, scope).Keys == Due(db, scope);
  }

  lemma LineagesOf(q: seq<Key>, s: set<Key>, lineages: set<Id>, hotspots: set<Id>)
    requires forall k :: k in q <==> k in s
    requires forall i, j :: 0 <= i < j < |q| ==> q[i] != q[j]
    requires lineages == SeenLineages(q, |q|)
    requires forall l :: l in hotspots <==> SeenTwice(q, |q|, l)
    ensures lineages == Lineages(s)
    ensures forall l :: l in hotspots <==> IsHotspot(s, l)
    ensures hotspots == {} <==> NoHotspot(s)
  {
    forall l ensures l in lineages <==> l in Lineages(s) {
      if l in Lineages(s) {
        var k :| k in s && k.lineage == l;
        assert k in q;
      }
    }
    forall l ensures l in hotspots <==> IsHotspot(s, l) {
      if SeenTwice(q, |q|, l) {
        var h, j :| 0 <= h < j < |q| && q[h].lineage == q[j].lineage == l;
        assert q[h] in s && q[j] in s;
      }
      if IsHotspot(s, l) {
        var a, b :| a in s && b in s && a != b && a.lineage == b.lineage == l;
        assert a in q && b in q;
      }
    }
    if hotspots != {} {
      var l := SomeMember(hotspots);
      assert IsHotspot(s, l);
    }
  }

  lemma SeenStep(q: seq<Key>, i: nat)
    requires i < |q|
    ensures SeenLineages(q, i + 1) == SeenLineages(q, i) + {q[i].lineage}
  {
  }

  lemma SeenTwiceStep(q: seq<Key>, i: nat)
    requires i < |q|
    ensures forall l :: SeenTwice(q, i + 1, l) <==> SeenTwice(q, i, l) || (l == q[i].lineage && Seen(q, i, l))
  {
    forall l ensures SeenTwice(q, i + 1, l) <==> SeenTwice(q, i, l) || (l == q[i].lineage && Seen(q, i, l)) {
      if l == q[i].lineage && Seen(q, i, l) {
        var h :| 0 <= h < i && q[h].lineage == l;
        assert q[h].lineage == q[i].lineage == l;
      }
    }
  }

  lemma FirstsStep(q: seq<Key>, i: nat)
    requires i < |q|
    ensures Firsts(q[..i + 1]) == if Seen(q, i, q[i].lineage) then Firsts(q[..i]) else Firsts(q[..i]) + [q[i]]
  {
    var upTo := q[..i + 1];
    assert upTo[..i] == q[..i];
    assert forall j :: 0 <= j <= i ==> upTo[j] == q[j];
  }

  lemma ExpireStep(db: Db, q: seq<Key>, k: Key, now: int)
    ensures ExpireAll(db, q + [k], now) == AfterExpire(ExpireAll(db, q, now), k, now)
    ensures CountExpired(db, q + [k], now) ==
            CountExpired(db, q, now) + if StatusOf(ExpireAll(db, q + [k], now).approvals, k) == Some(Expired) then 1 else 0
  {
    assert (q + [k])[..|q|] == q;
  }

  // ---------------------------------------------------------------- what batches achieve

  /** The audit of a reachable state finds no lineage with two overdue approvals. */
  lemma NoHotspots(db: Db, scope: Scope)
    requires IsReachable(db)
    ensures NoHotspot(Due(db, scope))
  {
    forall l ensures !IsHotspot(Due(db, scope), l) {
      if IsHotspot(Due(db, scope), l) {
        var j, k :| j in Due(db, scope) && k in Due(db, scope) && j != k && j.lineage == k.lineage == l;
        AtMostOneIsPending(db, j, k);
        assert false;
      }
    }
  }

  lemma ExpireOne(db: Db, k: Key, scope: Scope)
    requires RowsAgree(db) && k in Due(db, scope)
    ensures RowsAgree(AfterExpire(db, k, scope.now))
    ensures Due(AfterExpire(db, k, scope.now), scope) == Due(db, scope) - {k}
    ensures StatusOf(AfterExpire(db, k, scope.now).approvals, k) == Some(Expired)
  {
    OwnerOf(db, k);
    var after := AfterExpire(db, k, scope.now);
    EndingKeepsRows(db, after, k, Expired);
    assert forall j :: j in Due(after, scope) <==> j in Due(db, scope) && j != k;
  }

  lemma {:induction false} ExpireMany(db: Db, q: seq<Key>, scope: Scope)
    requires RowsAgree(db)
    requires forall i :: 0 <= i < |q| ==> q[i] in Due(db, scope)
    requires forall i, j :: 0 <= i < j < |q| ==> q[i] != q[j]
    ensures RowsAgree(ExpireAll(db, q, scope.now))
    ensures Due(ExpireAll(db, q, scope.now), scope) == Due(db, scope) - KeysOf(q)
    ensures CountExpired(db, q, scope.now) == |q|
  {
    if q != [] {
      var front, last := q[..|q| - 1], q[|q| - 1];
      ExpireMany(db, front, scope);
      KeysOfMore(q);
      assert last !in front;
      ExpireOne(ExpireAll(db, front, scope.now), last, scope);
    }
  }

  function KeysOf(q: seq<Key>): set<Key> {
    set k | k in q
  }

  lemma KeysOfMore(q: seq<Key>)
    requires q != []
    ensures KeysOf(q) == KeysOf(q[..|q| - 1]) + {q[|q| - 1]}
  {
    assert q == q[..|q| - 1] + [q[|q| - 1]];
  }

  lemma {:induction false} ExpiringReaches(db: Db, q: seq<Key>, now: int)
    requires IsReachable(db)
    ensures IsReachable(ExpireAll(db, q, now))
  {
    if q != [] {
      ExpiringReaches(db, q[..|q| - 1], now);
      StepReaches(ExpireAll(db, q[..|q| - 1], now), Expire(q[|q| - 1], now));
    }
  }

  lemma {:induction false} FirstsOfDistinct(q: seq<Key>)
    requires forall i, j :: 0 <= i < j < |q| ==> q[i].lineage != q[j].lineage
    ensures Firsts(q) == q
  {
    if q != [] {
      FirstsOfDistinct(q[..|q| - 1]);
      assert q == q[..|q| - 1] + [q[|q| - 1]];
    }
  }

  function Least(a: nat, b: nat): nat {
    if a <= b then a else b
  }

  /** A batch expires as many approvals as its limit allows, and nothing else changes which are due. */
  lemma BatchesExpireTheirLimit(db: Db, q: seq<Key>, scope: Scope, limit: nat)
    requires RowsAgree(db) && IsDueListing(db, scope, q)
    ensures Firsts(Take(q, limit)) == Take(q, limit)
    ensures |Take(q, limit)| == Least(limit, |Due(db, scope)|)
    ensures CountExpired(db, Take(q, limit), scope.now) == |Take(q, limit)|
    ensures RowsAgree(ExpireAll(db, Take(q, limit), scope.now))
    ensures |Due(ExpireAll(db, Take(q, limit), scope.now), scope)| == |Due(db, scope)| - |Take(q, limit)|
  {
    var taken := Take(q, limit);
    DueLineagesDiffer(db, q, scope);
    FirstsOfDistinct(taken);
    ListedAreDue(db, scope, q);
    forall i | 0 <= i < |taken| ensures taken[i] in Due(db, scope) {
      assert taken[i] == q[i];
    }
    ExpireMany(db, taken, scope);
    SizeOfDistinct(taken);
    assert |KeysOf(taken)| == |taken|;
    assert KeysOf(taken) <= Due(db, scope);
  }

  lemma DueLineagesDiffer(db: Db, q: seq<Key>, scope: Scope)
    requires RowsAgree(db) && IsDueListing(db, scope, q)
    ensures forall i, j :: 0 <= i < j < |q| ==> q[i].lineage != q[j].lineage
  {
    forall i, j | 0 <= i < j < |q| ensures q[i].lineage != q[j].lineage {
      assert q[i] in Due(db, scope) && q[j] in Due(db, scope);
      if q[i].lineage == q[j].lineage {
        OnlyTheNewestIsPending(db, q[i]);
        OnlyTheNewestIsPending(db, q[j]);
        assert false;
      }
    }
  }

  /** What the summary of a batch says, in any state the protocol can be in. */
  lemma SummariesBalance(db: Db, after: Db, scope: Scope, limit: nat, q: seq<Key>, s: Summary)
    requires IsReachable(db) && IsSummary(db, after, scope, limit, q, s)
    ensures s.attempted == s.expired == Least(limit, s.dueBefore)
    ensures s.skipped == s.skippedDuplicates == 0 && s.batchSafe
    ensures s.dueAfter == s.dueBefore - s.expired
    ensures IsReachable(after)
  {
    ReachableAgrees(db);
    BatchesExpireTheirLimit(db, q, scope, limit);
    ExpiringReaches(db, Firsts(Take(q, limit)), scope.now);
    NoHotspots(db, scope);
    NoHotspots(after, scope);
  }

  lemma BatchShrinks(db: Db, after: Db, scope: Scope, limit: nat)
    requires IsReachable(db) && IsBatch(db, after, scope, limit)
    ensures IsReachable(after)
    ensures |Due(after, scope)| == |Due(db, scope)| - Least(limit, |Due(db, scope)|)
  {
    var q :| IsDueListing(db, scope, q) && after == ExpireAll(db, Firsts(Take(q, limit)), scope.now);
    ReachableAgrees(db);
    BatchesExpireTheirLimit(db, q, scope, limit);
    ExpiringReaches(db, Firsts(Take(q, limit)), scope.now);
  }

  ghost predicate AreBatches(states: seq<Db>, scope: Scope, limit: nat) {
    forall i :: 0 < i < |states| ==> IsBatch(states[i - 1], states[i], scope, limit)
  }

  /** Batches at a fixed time drain the backlog, in just as many passes as the limit requires. */
  lemma {:induction false} BatchesDrain(states: seq<Db>, passes: nat, scope: Scope, limit: nat)
    requires passes < |states| && IsReachable(states[0]) && AreBatches(states, scope, limit)
    ensures IsReachable(states[passes])
    ensures var due := |Due(states[0], scope)|;
            |Due(states[passes], scope)| == if passes * limit >= due then 0 else due - passes * limit
  {
    if passes > 0 {
      BatchesDrain(states, passes - 1, scope, limit);
      assert IsBatch(states[passes - 1], states[passes], scope, limit);
      BatchShrinks(states[passes - 1], states[passes], scope, limit);
      assert passes * limit == (passes - 1) * limit + limit;
    }
  }

  /** Over every history an approval asked for with an expiry is overdue exactly while it is pending and the time has come. */
  lemma FallsDueFromItsExpiry(states: seq<Db>, steps: seq<Step>, m: nat, n: nat, now: int) returns (k: Key)
    requires IsHistory(states, steps) && m < n <= |steps| && steps[m].Create? && states[m + 1] != states[m]
    ensures k !in states[m].approvals && k in states[n].approvals && states[n].approvals[k].call == steps[m].call
    ensures IsDue(states[n].approvals[k], now) <==>
              && states[n].approvals[k].status == Pending
              && steps[m].expiresAt.Some? && steps[m].expiresAt.value <= now
  {
    assert IsStepOf(states, steps, m);
    RunKeeps(states, steps, m);
    var step := steps[m];
    CreateKeepsRows(states[m], step.call, step.freshLineage, step.expiresAt);
    k := Key(step.freshLineage, 1);
    DecisionsAreFinal(states, steps, m + 1, n, k);
  }

  /** A replacement is made without an expiry, so no later scan ever finds it due. */
  lemma ReplacementsNeverFallDue(states: seq<Db>, steps: seq<Step>, m: nat, n: nat, scope: Scope)
    requires IsHistory(states, steps) && m < n <= |steps| && steps[m].Supersede?
    requires SupersedeRefusal(states[m], steps[m].call, steps[m].replacement) == None && states[m + 1] != states[m]
    ensures var l := states[m].calls[steps[m].call].lineage.value;
            var k := Key(l, states[m].lineages[l].currentEpoch + 1);
            k in states[n].approvals && k !in Due(states[n], scope)
  {
    var l := states[m].calls[steps[m].call].lineage.value;
    assert IsStepOf(states, steps, m);
    DecisionsAreFinal(states, steps, m + 1, n, Key(l, states[m].lineages[l].currentEpoch + 1));
  }
}
