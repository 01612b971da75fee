/**
 In what order the queue delivers, and from when on. Everything here is said in
 terms of the keys themselves: due times, expiry times and the pending list.
 */
module LeaseQueueOrder {
  import opened Common
  import opened Text
  import opened SortedSets
  import opened LeaseQueue
  import opened LeaseQueueModel
  import opened LeaseQueueRuns

  // One lease script.

  /** Listing by rank, in numbers and characters. */
  ghost predicate Listed(ranks: map<string, Rank>, r: string, s: string) {
    && r in ranks && s in ranks
    && (ranks[r].score < ranks[s].score || (ranks[r].score == ranks[s].score && Precedes(ranks[r].member, ranks[s].member)))
  }

  lemma InOrderListed(ranks: map<string, Rank>, i: nat, j: nat)
    requires Distinct(ranks) && i < j < |InOrder(ranks)|
    ensures Listed(ranks, InOrder(ranks)[i], InOrder(ranks)[j])
  {
    InOrderSorts(ranks, i, j);
    BelowExactly(ranks[InOrder(ranks)[i]], ranks[InOrder(ranks)[j]]);
  }

  /** Pushing to the front one by one turns the order round and leaves out the cancelled. */
  lemma {:induction false} PushedFrontReverses(q: Queue, listed: seq<string>, ranks: map<string, Rank>)
    requires forall r :: r in listed ==> r in q.runs
    requires forall i, j :: 0 <= i < j < |listed| ==> Listed(ranks, listed[i], listed[j])
    ensures var front := PushedFront(q, listed);
            && (forall r :: r in front <==> r in listed && !q.runs[r].Condemned())
            && (forall i, j :: 0 <= i < j < |front| ==> Listed(ranks, front[j], front[i]))
  {
    if listed != [] {
      PushedFrontReverses(q, listed[1..], ranks);
      assert listed == [listed[0]] + listed[1..];
      var rest := PushedFront(q, listed[1..]);
      forall r | r in rest ensures Listed(ranks, listed[0], r) {
        var j :| 0 < j < |listed| && listed[j] == r;
      }
    }
  }

  /** The expiry of the lease that run `r` is on. */
  function ExpiryOf(k: Keys, r: string): Time {
    if r in k.runLeases && k.runLeases[r] in k.leaseExpiry then k.leaseExpiry[k.runLeases[r]] else 0
  }

  /** An expired lease on `r`, and no cancel. */
  predicate Returning(k: Keys, r: string, now: Time) {
    ExpiresWith(k, r, now) && r !in k.cancelled
  }

  lemma ExpiryRankOf(k: Keys, q: Queue, r: string, now: Time)
    requires Represents(k, q) && r in ExpiryRanks(q, now)
    ensures r in k.runLeases && ExpiryRanks(q, now)[r] == Rank(ExpiryOf(k, r), k.runLeases[r])
  {
    assert RunAgrees(k, q, r);
    assert LeaseAgrees(k, q, k.runLeases[r]);
  }

  /** Before it pops, the script puts the returning runs in front of the pending ones, the last to expire foremost, and
      the due runs behind them, the first to fall due foremost. */
  lemma RefreshedPending(k: Keys, q: Queue, now: Time) returns (front: seq<string>)
    requires Represents(k, q)
    ensures Refreshed(k, now).pending == front + k.pending + RangeUpTo(k.delayed, now)
    ensures forall r :: r in front <==> Returning(k, r, now)
    ensures forall i, j :: 0 <= i < j < |front| ==> ExpiryOf(k, front[i]) >= ExpiryOf(k, front[j])
  {
    front := RefreshedOrder(k, q, now);
    FrontReturns(k, q, now, front, ExpiryRanks(q, now));
  }

  lemma RefreshedOrder(k: Keys, q: Queue, now: Time) returns (front: seq<string>)
    requires Represents(k, q)
    ensures Refreshed(k, now).pending == front + k.pending + RangeUpTo(k.delayed, now)
    ensures forall r :: r in front <==> r in ExpiryRanks(q, now) && !q.runs[r].Condemned()
    ensures forall i, j :: 0 <= i < j < |front| ==> Listed(ExpiryRanks(q, now), front[j], front[i])
  {
    var expired := ExpiredListed(q, now);
    front := PushedFront(q, expired);
    SameOrder(k, q, now, expired);
    ExpiredInOrder(q, now, expired);
    PushedFrontReverses(q, expired, ExpiryRanks(q, now));
  }

  lemma SameOrder(k: Keys, q: Queue, now: Time, expired: seq<string>)
    requires Represents(k, q) && Distinct(ExpiryRanks(q, now)) && expired == InOrder(ExpiryRanks(q, now))
    requires forall r :: r in expired ==> r in q.runs
    ensures Refreshed(k, now).pending == PushedFront(q, expired) + k.pending + RangeUpTo(k.delayed, now)
  {
    RefreshRefines(k, q, now);
    SameDue(k, q, now);
    Reassociate(PushedFront(q, expired), k.pending, RangeUpTo(k.delayed, now));
  }

  lemma ExpiredInOrder(q: Queue, now: Time, expired: seq<string>)
    requires Distinct(ExpiryRanks(q, now)) && expired == InOrder(ExpiryRanks(q, now))
    ensures forall i, j :: 0 <= i < j < |expired| ==> Listed(ExpiryRanks(q, now), expired[i], expired[j])
  {
    forall i, j | 0 <= i < j < |expired| ensures Listed(ExpiryRanks(q, now), expired[i], expired[j]) {
      InOrderListed(ExpiryRanks(q, now), i, j);
    }
  }

  lemma FrontReturns(k: Keys, q: Queue, now: Time, front: seq<string>, ranks: map<string, Rank>)
    requires Represents(k, q) && ranks == ExpiryRanks(q, now)
    requires forall r :: r in front <==> r in ranks && !q.runs[r].Condemned()
    requires forall i, j :: 0 <= i < j < |front| ==> Listed(ranks, front[j], front[i])
    ensures forall r :: r in front <==> Returning(k, r, now)
    ensures forall i, j :: 0 <= i < j < |front| ==> ExpiryOf(k, front[i]) >= ExpiryOf(k, front[j])
  {
    forall r ensures r in front <==> Returning(k, r, now) { ExpiryAgrees(k, q, r, now); }
    forall i, j | 0 <= i < j < |front| ensures ExpiryOf(k, front[i]) >= ExpiryOf(k, front[j]) {
      ExpiryRankOf(k, q, front[i], now);
      ExpiryRankOf(k, q, front[j], now);
    }
  }

  /** `r` is the one to deliver: of the returning runs the last to expire; if there are none, the first pending run; if
      there is none either, of the due runs the first to fall due. */
  ghost predicate NextInLine(k: Keys, r: string, now: Time) {
    if exists x :: Returning(k, x, now) then
      Returning(k, r, now) && forall x :: Returning(k, x, now) ==> ExpiryOf(k, x) <= ExpiryOf(k, r)
    else if k.pending != [] then r == k.pending[0]
    else
      && r in k.delayed && k.delayed[r] <= now
      && forall x :: x in k.delayed && k.delayed[x] <= now && x != r ==> Earlier(k.delayed, r, x)
  }

  lemma FirstIsNextInLine(k: Keys, now: Time, front: seq<string>, pending: seq<string>)
    requires pending == front + k.pending + RangeUpTo(k.delayed, now) && pending != []
    requires forall r :: r in front <==> Returning(k, r, now)
    requires forall i, j :: 0 <= i < j < |front| ==> ExpiryOf(k, front[i]) >= ExpiryOf(k, front[j])
    ensures NextInLine(k, pending[0], now)
  {
    if front != [] {
      assert Returning(k, front[0], now);
      forall x | Returning(k, x, now) ensures ExpiryOf(k, x) <= ExpiryOf(k, front[0]) {
        var j :| 0 <= j < |front| && front[j] == x;
      }
    } else if k.pending == [] {
      var range := RangeUpTo(k.delayed, now);
      RangeMembers(k.delayed, now);
      forall x | x in range && x != range[0] ensures Earlier(k.delayed, range[0], x) {
        var j :| 0 <= j < |range| && range[j] == x;
        RangeIsAscending(k.delayed, now, 0, j);
      }
    }
  }

  lemma DeliveredIsFirst(k: Keys, q: Queue, c: Command)
    requires Represents(k, q) && c.Lease? && c.leaseId !in k.leases && Delivered(k, c).Some?
    ensures var pending := Refreshed(k, c.now).pending;
            pending != [] && Delivered(k, c).value.job.runId == pending[0] && Step(k, c).pending == pending[1..]
  {
    RefreshRefines(k, q, c.now);
    RefreshKeepsLeases(k, c.now, c.leaseId);
    PopRefines(Refreshed(k, c.now), RefreshStep(q, c.now), c.leaseId, c.workerId, c.expiresAt);
    assert RefreshStep(q, c.now).order[0] in RefreshStep(q, c.now).order;
  }

  /** A lease script delivers the run that is next in line. */
  lemma DeliversNextInLine(k: Keys, q: Queue, c: Command)
    requires Represents(k, q) && c.Lease? && c.leaseId !in k.leases && Delivered(k, c).Some?
    ensures NextInLine(k, Delivered(k, c).value.job.runId, c.now)
  {
    DeliveredIsFirst(k, q, c);
    var front := RefreshedPending(k, q, c.now);
    FirstIsNextInLine(k, c.now, front, Refreshed(k, c.now).pending);
  }

  // From when on a run may be delivered.

  /** A new run may be delivered at once, behind all that are pending. */
  lemma EnqueuedIsEligible(k: Keys, job: Job, t: Time)
    requires job.runId !in k.jobs
    ensures var k' := Step(k, Enqueue(job));
            k'.pending == k.pending + [job.runId] && k'.jobs == k.jobs[job.runId := job] && Eligible(k', job.runId, t)
  {
  }

  /** What is on a lease may be delivered to nobody else before the lease expires, and from then on may. */
  lemma LeaseShields(k: Keys, q: Queue, c: Command, t: Time)
    requires Represents(k, q) && c.Lease? && c.leaseId !in k.leases && Delivered(k, c).Some?
    ensures var r, k' := Delivered(k, c).value.job.runId, Step(k, c);
            && c.leaseId in k'.leases && k'.leases[c.leaseId] == StoredLease(r, c.workerId)
            && (Eligible(k', r, t) <==> c.expiresAt <= t)
  {
    StepRefines(k, q, c);
    DeliveredJob(k, q, c);
    var r := Delivered(k, c).value.job.runId;
    RefreshRefines(k, q, c.now);
    RefreshKeepsLeases(k, c.now, c.leaseId);
    PopRefines(Refreshed(k, c.now), RefreshStep(q, c.now), c.leaseId, c.workerId, c.expiresAt);
    assert RefreshStep(q, c.now).order[0] in RefreshStep(q, c.now).order;
    HeldEligible(Step(k, c), ModelStep(q, c), r, c.leaseId, t);
  }

  lemma HeldEligible(k: Keys, q: Queue, r: string, id: string, t: Time)
    requires Represents(k, q) && HoldsLease(q, id, r) && !q.runs[r].Condemned() && id in k.leaseExpiry
    ensures Eligible(k, r, t) <==> k.leaseExpiry[id] <= t
  {
    assert RunAgrees(k, q, r);
    assert LeaseAgrees(k, q, id);
  }

  /** A run that is released with a delay may be delivered from its due time on and not before; without one, at once,
      behind all that are pending. */
  lemma ReleaseDelays(k: Keys, q: Queue, id: string, r: string, dueAt: Time, now: Time, t: Time)
    requires Represents(k, q) && Holds(k, id, r) && r !in k.cancelled
    ensures var k' := Step(k, Release(id, r, dueAt, now));
            && (dueAt > now ==> k'.pending == k.pending && (Eligible(k', r, t) <==> dueAt <= t))
            && (dueAt <= now ==> k'.pending == k.pending + [r] && Eligible(k', r, t))
  {
    HoldsAgrees(k, q, id, r);
    assert RunAgrees(k, q, r);
  }

  lemma {:induction false} WithoutAt(s: seq<string>, i: nat)
    requires NoDup(s) && i < |s|
    ensures Without(s, s[i]) == s[..i] + s[i + 1..]
  {
    var rest := s[1..];
    assert NoDup(rest);
    if i == 0 {
      WithoutKeepsOrder(rest, s[0]);
    } else {
      WithoutAt(rest, i - 1);
      assert s[..i] == [s[0]] + rest[..i - 1] && s[i + 1..] == rest[i..];
    }
  }

  /** Cancel takes a run out of line and leaves the others in order; a leased one is only marked, and stays on its lease. */
  lemma CancelTakesOut(k: Keys, q: Queue, r: string, t: Time)
    requires Represents(k, q) && r in k.jobs
    ensures var k' := Step(k, Cancel(r));
            && !Eligible(k', r, t)
            && (r in k'.jobs <==> r in k.runLeases)
            && k'.leases == k.leases && k'.leaseExpiry == k.leaseExpiry && k'.runLeases == k.runLeases
            && (r !in k.pending ==> k'.pending == k.pending)
    ensures forall i :: 0 <= i < |k.pending| && k.pending[i] == r ==>
                          Step(k, Cancel(r)).pending == k.pending[..i] + k.pending[i + 1..]
  {
    assert RunAgrees(k, q, r);
    WithoutKeepsOrder(k.pending, r);
    forall i | 0 <= i < |k.pending| && k.pending[i] == r ensures Without(k.pending, r) == k.pending[..i] + k.pending[i + 1..] {
      WithoutAt(k.pending, i);
    }
  }

  // Which job a run carries.

  /** The job of the last enqueue of `r` that was accepted. */
  function LastEnqueued(cs: seq<Command>, r: string): Option<Job> {
    if cs == [] then None else
      var before, c := After(cs[..|cs| - 1]), cs[|cs| - 1];
      if c.Enqueue? && c.job.runId == r && r !in before.jobs then Some(c.job) else LastEnqueued(cs[..|cs| - 1], r)
  }

  lemma JobStep(k: Keys, q: Queue, c: Command, r: string)
    requires Represents(k, q)
    ensures r in ModelStep(q, c).runs ==>
              ModelStep(q, c).runs[r].job == if r in q.runs then q.runs[r].job else if c.Enqueue? then c.job else Job("", "")
  {
    if c.Lease? { LeaseEntry(q, c, r); }
  }

  /** A queued run carries the job it was last enqueued with, whatever happened to it since. */
  lemma {:induction false} CarriesLastJob(cs: seq<Command>, r: string)
    requires FreshIds(cs) && r in After(cs).jobs
    ensures LastEnqueued(cs, r) == Some(After(cs).jobs[r])
  {
    var n := |cs| - 1;
    var k, c := After(cs[..n]), cs[n];
    var q := Reachable(cs[..n]);
    if c.Lease? { NextIdIsFresh(cs, n); }
    StepRefines(k, q, c);
    JobStep(k, q, c, r);
    assert RunAgrees(k, q, r) && RunAgrees(Step(k, c), ModelStep(q, c), r);
    if r in k.jobs { CarriesLastJob(cs[..n], r); } else { OnlyEnqueueAdds(k, q, c, r); }
  }
}
