/**
 Whole runs of the queue: any sequence of commands from any number of workers.
 Lease identifiers are fresh (`uuid4`), which is all the fencing rests on; no
 theorem needs the workers' clocks to agree.
 */
module LeaseQueueRuns {
  import opened Common
  import opened SortedSets
  import opened LeaseQueue
  import opened LeaseQueueModel

  datatype Command =
    | Enqueue(job: Job)
    | Lease(now: Time, leaseId: string, workerId: string, expiresAt: Time)
    | Acknowledge(leaseId: string, runId: string)
    | Release(leaseId: string, runId: string, dueAt: Time, now: Time)
    | Cancel(runId: string)

  function Step(k: Keys, c: Command): Keys {
    match c
    case Enqueue(job) => Enqueued(k, job)
    case Lease(now, id, worker, expiresAt) => Leased(k, now, id, worker, expiresAt).0
    case Acknowledge(id, runId) => Acknowledged(k, id, runId)
    case Release(id, runId, dueAt, now) => Released(k, id, runId, dueAt, now)
    case Cancel(runId) => Cancelled(k, runId)
  }

  function Delivered(k: Keys, c: Command): Option<Delivery> {
    if c.Lease? then Leased(k, c.now, c.leaseId, c.workerId, c.expiresAt).1 else None
  }

  /** The keys after the commands so far, starting from an empty Redis. */
  function After(cs: seq<Command>): Keys {
    if cs == [] then EMPTY else Step(After(cs[..|cs| - 1]), cs[|cs| - 1])
  }

  ghost predicate FreshIds(cs: seq<Command>) {
    forall i, j :: 0 <= i < j < |cs| && cs[i].Lease? && cs[j].Lease? ==> cs[i].leaseId != cs[j].leaseId
  }

  ghost function ModelStep(q: Queue, c: Command): Queue
    requires WellFormed(q)
  {
    match c
    case Enqueue(job) => EnqueueStep(q, job)
    case Lease(now, id, worker, expiresAt) => LeaseStep(q, now, id, worker, expiresAt).0
    case Acknowledge(id, runId) => AcknowledgeStep(q, id, runId)
    case Release(id, runId, dueAt, now) => ReleaseStep(q, id, runId, dueAt, now)
    case Cancel(runId) => CancelStep(q, runId)
  }

  /** Every script, run on keys that encode a queue, is one step of that queue. */
  lemma StepRefines(k: Keys, q: Queue, c: Command)
    requires Represents(k, q)
    requires c.Lease? ==> c.leaseId !in k.leases
    ensures Represents(Step(k, c), ModelStep(q, c))
    ensures c.Lease? ==> Delivered(k, c) == LeaseStep(q, c.now, c.leaseId, c.workerId, c.expiresAt).1
  {
    match c
    case Enqueue(job) => EnqueueRefines(k, q, job);
    case Lease(now, id, worker, expiresAt) => LeaseRefines(k, q, now, id, worker, expiresAt);
    case Acknowledge(id, runId) => AcknowledgeRefines(k, q, id, runId);
    case Release(id, runId, dueAt, now) => ReleaseRefines(k, q, id, runId, dueAt, now);
    case Cancel(runId) => CancelRefines(k, q, runId);
  }

  /** A step stores no lease but the one it was given. */
  lemma StepLeases(k: Keys, c: Command, id: string)
    ensures id in Step(k, c).leases ==> id in k.leases || (c.Lease? && c.leaseId == id)
  {
    match c
    case Enqueue(job) =>
    case Lease(now, _, _, _) =>
      RefreshKeepsLeases(k, now, id);
      PopLeases(Refreshed(k, now), c, id);
    case Acknowledge(ended, runId) => EndedLeases(k, ended, runId, id);
    case Release(ended, runId, dueAt, now) =>
      EndedLeases(k, ended, runId, id);
      ReleasedLeases(k, ended, runId, dueAt, now);
    case Cancel(runId) => assert Cancelled(k, runId).leases == k.leases;
  }

  lemma EndedLeases(k: Keys, leaseId: string, runId: string, id: string)
    ensures id in Ended(k, leaseId, runId).leases ==> id in k.leases
    ensures Acknowledged(k, leaseId, runId).leases
         == if Holds(k, leaseId, runId) then Ended(k, leaseId, runId).leases else k.leases
  {
  }

  lemma ReleasedLeases(k: Keys, leaseId: string, runId: string, dueAt: Time, now: Time)
    ensures Released(k, leaseId, runId, dueAt, now).leases
         == if Holds(k, leaseId, runId) then Ended(k, leaseId, runId).leases else k.leases
  {
  }

  lemma {:induction false} PopLeases(k: Keys, c: Command, id: string)
    requires c.Lease?
    ensures id in Popped(k, c.leaseId, c.workerId, c.expiresAt).0.leases ==> id in k.leases || c.leaseId == id
    decreases |k.pending|
  {
    if k.pending != [] {
      var k1 := k.(pending := k.pending[1..]);
      PopLeases(k1, c, id);
      PopLeases(Dropped(k1, k.pending[0]), c, id);
    }
  }

  lemma {:induction false} StoredIdsWereLent(cs: seq<Command>, id: string)
    requires id in After(cs).leases
    ensures exists i :: 0 <= i < |cs| && cs[i].Lease? && cs[i].leaseId == id
  {
    var n := |cs| - 1;
    StepLeases(After(cs[..n]), cs[n], id);
    if id in After(cs[..n]).leases {
      StoredIdsWereLent(cs[..n], id);
      var i :| 0 <= i < n && cs[..n][i].Lease? && cs[..n][i].leaseId == id;
      assert cs[i] == cs[..n][i];
    }
  }

  lemma NextIdIsFresh(cs: seq<Command>, n: nat)
    requires FreshIds(cs) && n < |cs| && cs[n].Lease?
    ensures cs[n].leaseId !in After(cs[..n]).leases
  {
    if cs[n].leaseId in After(cs[..n]).leases {
      StoredIdsWereLent(cs[..n], cs[n].leaseId);
    }
  }

  /** In every reachable state the eight keys encode a queue. */
  lemma {:induction false} Reachable(cs: seq<Command>) returns (q: Queue)
    requires FreshIds(cs)
    ensures Represents(After(cs), q)
  {
    if cs == [] {
      EmptyRepresents();
      q := Queue(map[], []);
    } else {
      var n := |cs| - 1;
      var before := Reachable(cs[..n]);
      if cs[n].Lease? { NextIdIsFresh(cs, n); }
      StepRefines(After(cs[..n]), before, cs[n]);
      q := ModelStep(before, cs[n]);
    }
  }

  /** What that means for the keys themselves. */
  lemma KeysAgree(cs: seq<Command>)
    requires FreshIds(cs)
    ensures var k := After(cs);
            && NoDup(k.pending)
            && k.attempts.Keys == k.jobs.Keys
            && k.jobs.Keys == (set r | r in k.pending) + k.delayed.Keys + k.runLeases.Keys
            && (set r | r in k.pending) !! k.delayed.Keys !! k.runLeases.Keys
            && k.leases.Keys == k.leaseExpiry.Keys
            && (forall r :: r in k.runLeases ==> Holds(k, k.runLeases[r], r))
            && (forall id :: id in k.leases ==> k.leases[id].runId in k.runLeases && k.runLeases[k.leases[id].runId] == id)
            && k.cancelled <= k.runLeases.Keys
            && (forall r :: r in k.jobs ==> k.jobs[r].runId == r && k.attempts[r] >= 1)
  {
    var k := After(cs);
    var q := Reachable(cs);
    forall r
      ensures r in k.attempts <==> r in k.jobs
      ensures r in k.jobs <==> r in k.pending || r in k.delayed || r in k.runLeases
      ensures !(r in k.pending && r in k.delayed) && !(r in k.pending && r in k.runLeases) && !(r in k.delayed && r in k.runLeases)
      ensures r in k.runLeases ==> Holds(k, k.runLeases[r], r)
      ensures r in k.cancelled ==> r in k.runLeases
      ensures r in k.jobs ==> k.jobs[r].runId == r && k.attempts[r] >= 1
    {
      assert RunAgrees(k, q, r);
    }
    forall id ensures id in k.leaseExpiry <==> id in k.leases
      ensures id in k.leases ==> k.leases[id].runId in k.runLeases && k.runLeases[k.leases[id].runId] == id
    {
      assert LeaseAgrees(k, q, id);
      if id in k.leases { assert RunAgrees(k, q, k.leases[id].runId); }
    }
  }

  /** The commands that end a stored lease are exactly its owner's acknowledgement and release, and its expiry. */
  predicate Ends(k: Keys, c: Command, id: string) {
    match c
    case Acknowledge(id', runId) => id' == id && Holds(k, id, runId)
    case Release(id', runId, _, _) => id' == id && Holds(k, id, runId)
    case Lease(now, _, _, _) => id in k.leaseExpiry && k.leaseExpiry[id] <= now
    case _ => false
  }

  /** A lease script, run by run: who is left, with which attempt, and whether still cancelled. */
  lemma LeaseEntry(q: Queue, c: Command, r: string)
    requires WellFormed(q) && c.Lease?
    ensures var q' := ModelStep(q, c);
            && (r in q'.runs <==> r in WokenRuns(q, c.now))
            && (r in q'.runs ==>
                  && q'.runs[r].job == q.runs[r].job
                  && q'.runs[r].attempt == q.runs[r].attempt + (if q.runs[r].ExpiredBy(c.now) then 1 else 0)
                  && (q'.runs[r].Condemned() <==> q.runs[r].Condemned()))
  {
    RefreshWellFormed(q, c.now);
    DeliverEntry(RefreshStep(q, c.now), c, r);
  }

  lemma DeliverEntry(q: Queue, c: Command, r: string)
    requires WellFormed(q) && c.Lease?
    ensures var q' := DeliverStep(q, c.leaseId, c.workerId, c.expiresAt).0;
            && q'.runs.Keys == q.runs.Keys
            && (r in q.runs ==>
                  && q'.runs[r].job == q.runs[r].job
                  && q'.runs[r].attempt == q.runs[r].attempt
                  && (q'.runs[r].Condemned() <==> q.runs[r].Condemned()))
  {
    if q.order != [] {
      assert q.order[0] in q.order;
    }
  }

  lemma LeaseHolders(q: Queue, c: Command, id: string, r: string)
    requires WellFormed(q) && c.Lease? && c.leaseId != id
    ensures HoldsLease(ModelStep(q, c), id, r) <==> HoldsLease(q, id, r) && !q.runs[r].ExpiredBy(c.now)
  {
    RefreshWellFormed(q, c.now);
  }

  /** Stored leases are the leases that some run holds. */
  lemma StoredMeansHeld(k: Keys, q: Queue, id: string, runId: string)
    requires Represents(k, q)
    ensures HoldsLease(q, id, runId) ==> Holds(k, id, runId)
    ensures id in k.leases ==> HoldsLease(q, id, k.leases[id].runId) && k.leaseExpiry.Keys == k.leases.Keys
                               && q.runs[k.leases[id].runId].phase.expiresAt == k.leaseExpiry[id]
  {
    HoldsAgrees(k, q, id, runId);
    assert LeaseAgrees(k, q, id);
    assert forall i :: LeaseAgrees(k, q, i) ==> (i in k.leaseExpiry <==> i in k.leases);
  }

  lemma EndingCommands(k: Keys, q: Queue, c: Command, id: string)
    requires Represents(k, q) && id in k.leases
    requires c.Lease? ==> c.leaseId !in k.leases
    ensures id !in Step(k, c).leases <==> Ends(k, c, id)
  {
    if c.Lease? {
      StepRefines(k, q, c);
      LeaseEndings(k, q, Step(k, c), c, id);
    } else {
      OtherEndings(k, c, id);
    }
  }

  lemma OtherEndings(k: Keys, c: Command, id: string)
    requires id in k.leases && !c.Lease?
    ensures id !in Step(k, c).leases <==> Ends(k, c, id)
  {
    match c
    case Enqueue(job) =>
    case Acknowledge(ended, runId) => EndedLeases(k, ended, runId, id);
    case Release(ended, runId, dueAt, now) => ReleasedLeases(k, ended, runId, dueAt, now);
    case Cancel(runId) => assert Cancelled(k, runId).leases == k.leases;
  }

  lemma LeaseEndings(k: Keys, q: Queue, k': Keys, c: Command, id: string)
    requires Represents(k, q) && id in k.leases && c.Lease? && c.leaseId != id
    requires Represents(k', ModelStep(q, c))
    ensures id !in k'.leases <==> id in k.leaseExpiry && k.leaseExpiry[id] <= c.now
  {
    var owner := k.leases[id].runId;
    StoredMeansHeld(k, q, id, owner);
    StoredMeansHeld(k', ModelStep(q, c), id, owner);
    LeaseHolders(q, c, id, owner);
    if id in k'.leases {
      LeaseHolders(q, c, id, k'.leases[id].runId);
      StoredMeansHeld(k, q, id, k'.leases[id].runId);
    }
  }

  lemma AfterNext(cs: seq<Command>, m: nat)
    requires m < |cs|
    ensures After(cs[..m + 1]) == Step(After(cs[..m]), cs[m])
  {
    assert cs[..m + 1][..m] == cs[..m];
  }

  lemma {:induction false} StaysEnded(cs: seq<Command>, j: nat, m: nat, id: string)
    requires j <= m <= |cs| && id !in After(cs[..j]).leases
    requires forall n :: j <= n < |cs| ==> !(cs[n].Lease? && cs[n].leaseId == id)
    ensures id !in After(cs[..m]).leases
  {
    if m > j {
      StaysEnded(cs, j, m - 1, id);
      var k := After(cs[..m - 1]);
      AfterNext(cs, m - 1);
      StepLeases(k, cs[m - 1], id);
    }
  }

  /** Fencing: a lease that has ended stays ended, and its holder can no longer touch any key. */
  lemma FencedForGood(cs: seq<Command>, i: nat, m: nat, id: string)
    requires FreshIds(cs) && i < m <= |cs|
    requires id in After(cs[..i]).leases && id !in After(cs[..i + 1]).leases
    ensures forall runId :: Acknowledged(After(cs[..m]), id, runId) == After(cs[..m])
    ensures forall runId, dueAt, now :: Released(After(cs[..m]), id, runId, dueAt, now) == After(cs[..m])
  {
    forall n | i < n < |cs| ensures !(cs[n].Lease? && cs[n].leaseId == id) {
      NotLentAgain(cs, i, n, id);
    }
    StaysEnded(cs, i + 1, m, id);
  }

  lemma NotLentAgain(cs: seq<Command>, i: nat, m: nat, id: string)
    requires FreshIds(cs) && i < m < |cs| && id in After(cs[..i]).leases
    ensures !(cs[m].Lease? && cs[m].leaseId == id)
  {
    StoredIdsWereLent(cs[..i], id);
    var j :| 0 <= j < i && cs[..i][j].Lease? && cs[..i][j].leaseId == id;
    assert cs[j] == cs[..i][j];
  }

  /** How often run `r` came back from a lease since it was last enqueued. */
  function Returns(cs: seq<Command>, r: string): nat {
    if cs == [] then 0 else
      var before, c := After(cs[..|cs| - 1]), cs[|cs| - 1];
      var n := Returns(cs[..|cs| - 1], r);
      if c.Enqueue? && c.job.runId == r && r !in before.jobs then 0
      else if ComesBack(before, c, r) then n + 1
      else n
  }

  predicate ExpiresWith(k: Keys, r: string, now: Time) {
    r in k.runLeases && k.runLeases[r] in k.leaseExpiry && k.leaseExpiry[k.runLeases[r]] <= now
  }

  lemma ExpiryAgrees(k: Keys, q: Queue, r: string, now: Time)
    requires Represents(k, q)
    ensures ExpiresWith(k, r, now) <==> r in q.runs && q.runs[r].ExpiredBy(now)
    ensures r in k.cancelled <==> r in q.runs && q.runs[r].Condemned()
    ensures r in k.jobs <==> r in q.runs
    ensures r in q.runs ==> r in k.attempts && k.attempts[r] == q.runs[r].attempt
  {
    assert RunAgrees(k, q, r);
    if r in k.runLeases { assert LeaseAgrees(k, q, k.runLeases[r]); }
  }

  /** Whether command `c` brings run `r` back from its lease. */
  predicate ComesBack(k: Keys, c: Command, r: string) {
    r !in k.cancelled &&
    match c
    case Release(id, runId, _, _) => runId == r && Holds(k, id, r)
    case Lease(now, _, _, _) => ExpiresWith(k, r, now)
    case _ => false
  }

  /** One step, seen from run `r`: its attempt number moves only when it comes back. */
  lemma AttemptStep(k: Keys, q: Queue, c: Command, r: string)
    requires Represents(k, q)
    ensures r in ModelStep(q, c).runs ==>
              ModelStep(q, c).runs[r].attempt ==
              if r in q.runs then q.runs[r].attempt + (if ComesBack(k, c, r) then 1 else 0) else 1
  {
    ExpiryAgrees(k, q, r, if c.Lease? then c.now else 0);
    match c {
      case Lease(_, _, _, _) => LeaseEntry(q, c, r);
      case Release(id, runId, _, _) => HoldsAgrees(k, q, id, r);
      case _ =>
    }
  }

  /** The stored attempt number of a run is one more than its returns since it was enqueued. */
  lemma {:induction false} AttemptsCountReturns(cs: seq<Command>, r: string)
    requires FreshIds(cs) && r in After(cs).jobs
    ensures r in After(cs).attempts && After(cs).attempts[r] == 1 + Returns(cs, r)
  {
    var n := |cs| - 1;
    var k, c := After(cs[..n]), cs[n];
    var q := Reachable(cs[..n]);
    if c.Lease? { NextIdIsFresh(cs, n); }
    StepRefines(k, q, c);
    AttemptStep(k, q, c, r);
    ExpiryAgrees(Step(k, c), ModelStep(q, c), r, 0);
    ExpiryAgrees(k, q, r, 0);
    if r in k.jobs { AttemptsCountReturns(cs[..n], r); }
    else { OnlyEnqueueAdds(k, q, c, r); }
  }

  lemma OnlyEnqueueAdds(k: Keys, q: Queue, c: Command, r: string)
    requires Represents(k, q) && r !in k.jobs
    ensures r in ModelStep(q, c).runs ==> c.Enqueue? && c.job.runId == r
  {
    assert RunAgrees(k, q, r);
    if c.Lease? { LeaseEntry(q, c, r); }
  }

  /** What a lease script delivers is a job that was queued, with the attempt it now has. */
  lemma DeliveredJob(k: Keys, q: Queue, c: Command)
    requires Represents(k, q) && c.Lease? && c.leaseId !in k.leases && Delivered(k, c).Some?
    ensures var d := Delivered(k, c).value;
            && d.job.runId in q.runs && d.job == q.runs[d.job.runId].job
            && d.job.runId in ModelStep(q, c).runs && d.attempt == ModelStep(q, c).runs[d.job.runId].attempt
            && HoldsLease(ModelStep(q, c), c.leaseId, d.job.runId)
            && !ModelStep(q, c).runs[d.job.runId].Condemned()
  {
    StepRefines(k, q, c);
    RefreshWellFormed(q, c.now);
    var r := RefreshStep(q, c.now).order[0];
    assert r in RefreshStep(q, c.now).order;
    LeaseEntry(q, c, r);
  }

  /** A delivered attempt is numbered by the earlier releases and expiries of its run. */
  lemma DeliveredAttempt(cs: seq<Command>, c: Command)
    requires FreshIds(cs + [c]) && Delivered(After(cs), c).Some?
    ensures var d := Delivered(After(cs), c).value;
            d.job.runId in After(cs).jobs && d.job == After(cs).jobs[d.job.runId]
            && d.attempt == 1 + Returns(cs + [c], d.job.runId)
  {
    var cs' := cs + [c];
    var k := After(cs);
    assert cs'[..|cs|] == cs;
    var q := Reachable(cs);
    NextIdIsFresh(cs', |cs|);
    DeliveredJob(k, q, c);
    StepRefines(k, q, c);
    var r := Delivered(k, c).value.job.runId;
    JobAgrees(k, q, r);
    ExpiryAgrees(Step(k, c), ModelStep(q, c), r, 0);
    AttemptsCountReturns(cs', r);
  }

  lemma JobAgrees(k: Keys, q: Queue, r: string)
    requires Represents(k, q) && r in q.runs
    ensures r in k.jobs && k.jobs[r] == q.runs[r].job
  {
    assert RunAgrees(k, q, r);
  }

  /** A run leaves the queue exactly by its holder's acknowledgement, by a cancel while it is not leased, or, once
      cancelled, by the end of its lease. */
  predicate Leaves(k: Keys, c: Command, r: string) {
    match c
    case Acknowledge(id, runId) => runId == r && Holds(k, id, r)
    case Cancel(runId) => runId == r && r !in k.runLeases
    case Release(id, runId, _, _) => runId == r && Holds(k, id, r) && r in k.cancelled
    case Lease(now, _, _, _) => ExpiresWith(k, r, now) && r in k.cancelled
    case Enqueue(_) => false
  }

  lemma LeavesOnlyBy(k: Keys, q: Queue, c: Command, r: string)
    requires Represents(k, q) && r in k.jobs
    requires c.Lease? ==> c.leaseId !in k.leases
    ensures r !in Step(k, c).jobs <==> Leaves(k, c, r)
  {
    if c.Lease? {
      StepRefines(k, q, c);
      LeaseEntry(q, c, r);
      ExpiryAgrees(k, q, r, c.now);
      ExpiryAgrees(Step(k, c), ModelStep(q, c), r, c.now);
    } else {
      CommandLeaves(k, c, r);
    }
  }

  lemma CommandLeaves(k: Keys, c: Command, r: string)
    requires r in k.jobs && !c.Lease?
    ensures r !in Step(k, c).jobs <==> Leaves(k, c, r)
  {
    match c
    case Enqueue(job) =>
    case Acknowledge(id, runId) => assert Ended(k, id, runId).jobs == k.jobs;
    case Release(id, runId, _, _) => assert Ended(k, id, runId).jobs == k.jobs;
    case Cancel(runId) =>
  }

  /** While the old lease is held, the run cannot be enqueued again. */
  lemma RefusedWhileLeased(cs: seq<Command>, job: Job)
    requires FreshIds(cs) && job.runId in After(cs).runLeases
    ensures Enqueued(After(cs), job) == After(cs)
  {
    var q := Reachable(cs);
    assert RunAgrees(After(cs), q, job.runId);
  }

  /** A cancel that knew its run leaves it either gone or condemned, and so it stays until it is enqueued anew. */
  ghost predicate GoneOrCondemned(k: Keys, r: string) {
    r in k.jobs ==> r in k.cancelled
  }

  lemma StaysCondemned(k: Keys, q: Queue, c: Command, r: string)
    requires Represents(k, q) && GoneOrCondemned(k, r)
    requires c.Lease? ==> c.leaseId !in k.leases
    requires c.Enqueue? && c.job.runId == r ==> r in k.jobs
    ensures GoneOrCondemned(Step(k, c), r)
    ensures Delivered(k, c).Some? ==> Delivered(k, c).value.job.runId != r
  {
    StepRefines(k, q, c);
    ExpiryAgrees(k, q, r, 0);
    ExpiryAgrees(Step(k, c), ModelStep(q, c), r, 0);
    if r !in k.jobs { OnlyEnqueueAdds(k, q, c, r); }
    if c.Lease? {
      LeaseEntry(q, c, r);
      if Delivered(k, c).Some? { DeliveredJob(k, q, c); }
    }
  }

  /** Command `n` is no successful enqueue of run `r`. */
  predicate NotEnqueuedAnew(cs: seq<Command>, n: nat, r: string)
    requires n < |cs|
  {
    cs[n].Enqueue? && cs[n].job.runId == r ==> r in After(cs[..n]).jobs
  }

  /** A cancelled run is not delivered again before a new successful enqueue. */
  lemma {:induction false} CancelledIsNotDelivered(cs: seq<Command>, i: nat, m: nat, r: string)
    requires FreshIds(cs) && i < m < |cs|
    requires cs[i] == Cancel(r)
    requires forall n :: i < n < m ==> NotEnqueuedAnew(cs, n, r)
    ensures Delivered(After(cs[..m]), cs[m]).Some? ==> Delivered(After(cs[..m]), cs[m]).value.job.runId != r
  {
    CondemnedUntil(cs, i, m, r);
    var q := Reachable(cs[..m]);
    if cs[m].Lease? {
      NextIdIsFresh(cs, m);
      StaysCondemned(After(cs[..m]), q, cs[m], r);
    }
  }

  lemma CondemnedUntil(cs: seq<Command>, i: nat, m: nat, r: string)
    requires FreshIds(cs) && i < m <= |cs| && cs[i] == Cancel(r)
    requires forall n :: i < n < m ==> NotEnqueuedAnew(cs, n, r)
    ensures GoneOrCondemned(After(cs[..m]), r)
  {
    var condemned := seq(|cs| + 1, n requires 0 <= n <= |cs| => GoneOrCondemned(After(cs[..n]), r));
    CondemnedFirst(cs, i, r);
    forall n | i < n < m && condemned[n] ensures condemned[n + 1] { CondemnedNext(cs, n, r); }
    Persists(condemned, i + 1, m);
  }

  lemma CondemnedFirst(cs: seq<Command>, i: nat, r: string)
    requires i < |cs| && cs[i] == Cancel(r)
    ensures GoneOrCondemned(After(cs[..i + 1]), r)
  {
    AfterNext(cs, i);
    CancelCondemns(After(cs[..i]), r);
  }

  lemma {:induction false} Persists(holds: seq<bool>, i: nat, m: nat)
    requires i <= m < |holds| && holds[i] && forall n :: i <= n < m && holds[n] ==> holds[n + 1]
    ensures holds[m]
  {
    if i < m {
      Persists(holds, i, m - 1);
      assert holds[m - 1 + 1];
    }
  }

  lemma CancelCondemns(k: Keys, r: string)
    ensures GoneOrCondemned(Step(k, Cancel(r)), r)
  {
  }

  lemma CondemnedNext(cs: seq<Command>, n: nat, r: string)
    requires FreshIds(cs) && n < |cs| && GoneOrCondemned(After(cs[..n]), r)
    requires NotEnqueuedAnew(cs, n, r)
    ensures GoneOrCondemned(After(cs[..n + 1]), r)
  {
    var q := Reachable(cs[..n]);
    if cs[n].Lease? { NextIdIsFresh(cs, n); }
    StaysCondemned(After(cs[..n]), q, cs[n], r);
    AfterNext(cs, n);
  }

  /** A run a lease script may deliver: waiting, delayed and due, or on an expired lease and not cancelled. */
  predicate Eligible(k: Keys, r: string, now: Time) {
    || r in k.pending
    || (r in k.delayed && k.delayed[r] <= now)
    || (ExpiresWith(k, r, now) && r !in k.cancelled)
  }

  lemma EligibleAgrees(k: Keys, q: Queue, r: string, now: Time)
    requires Represents(k, q)
    ensures Eligible(k, r, now) <==> r in WokenRuns(q, now) && WokenRuns(q, now)[r].phase.Waiting?
  {
    assert RunAgrees(k, q, r);
    ExpiryAgrees(k, q, r, now);
  }

  /** A lease script delivers exactly when some run is eligible, and only an eligible run: never one whose lease is
      live, nor one that is delayed and not due. */
  lemma DeliversTheEligible(k: Keys, q: Queue, c: Command)
    requires Represents(k, q) && c.Lease? && c.leaseId !in k.leases
    ensures Delivered(k, c).Some? <==> exists r :: Eligible(k, r, c.now)
    ensures Delivered(k, c).Some? ==> Eligible(k, Delivered(k, c).value.job.runId, c.now)
  {
    StepRefines(k, q, c);
    RefreshWellFormed(q, c.now);
    var q1 := RefreshStep(q, c.now);
    if q1.order != [] {
      assert q1.order[0] in q1.order;
      EligibleAgrees(k, q, q1.order[0], c.now);
    }
    if r :| Eligible(k, r, c.now) {
      EligibleAgrees(k, q, r, c.now);
      assert r in q1.order;
    }
  }
}
