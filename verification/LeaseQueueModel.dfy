/**
 What the eight keys encode: one phase per run, and the order of the waiting runs.
 Every script is proved to be one step of this queue.
 */
module LeaseQueueModel {
  import opened Common
  import opened SortedSets
  import opened LeaseQueue

  datatype Phase =
    | Waiting
    | Delayed(dueAt: Time)
    | OnLease(leaseId: string, workerId: string, expiresAt: Time, cancelled: bool)

  datatype Entry = Entry(job: Job, attempt: int, phase: Phase) {
    predicate DueBy(now: Time) { phase.Delayed? && phase.dueAt <= now }
    predicate ExpiredBy(now: Time) { phase.OnLease? && phase.expiresAt <= now }
    predicate Condemned() { phase.OnLease? && phase.cancelled }
  }

  datatype Queue = Queue(runs: map<string, Entry>, order: seq<string>)

  ghost predicate WellFormed(q: Queue) {
    && NoDup(q.order)
    && (forall r :: r in q.order <==> r in q.runs && q.runs[r].phase.Waiting?)
    && (forall r :: r in q.runs ==> q.runs[r].job.runId == r && q.runs[r].attempt >= 1)
    && (forall r, s :: r in q.runs && s in q.runs && r != s && q.runs[r].phase.OnLease? && q.runs[s].phase.OnLease?
                       ==> q.runs[r].phase.leaseId != q.runs[s].phase.leaseId)
  }

  /** The keys say about run `r` exactly what the queue says. */
  ghost predicate RunAgrees(k: Keys, q: Queue, r: string) {
    && (r in k.jobs <==> r in q.runs)
    && (r in k.attempts <==> r in q.runs)
    && (r in q.runs ==> k.jobs[r] == q.runs[r].job && k.attempts[r] == q.runs[r].attempt)
    && (r in k.delayed <==> r in q.runs && q.runs[r].phase.Delayed?)
    && (r in k.delayed ==> k.delayed[r] == q.runs[r].phase.dueAt)
    && (r in k.runLeases <==> r in q.runs && q.runs[r].phase.OnLease?)
    && (r in k.runLeases ==> k.runLeases[r] == q.runs[r].phase.leaseId && Holds(k, k.runLeases[r], r))
    && (r in k.cancelled <==> r in q.runs && q.runs[r].Condemned())
  }

  /** The keys say about lease `id` exactly what the queue says. */
  ghost predicate LeaseAgrees(k: Keys, q: Queue, id: string) {
    && (id in k.leaseExpiry <==> id in k.leases)
    && (id in k.leases ==>
          var r := k.leases[id].runId;
          && r in q.runs
          && q.runs[r].phase.OnLease?
          && q.runs[r].phase.leaseId == id
          && q.runs[r].phase.workerId == k.leases[id].workerId
          && q.runs[r].phase.expiresAt == k.leaseExpiry[id])
  }

  ghost predicate Represents(k: Keys, q: Queue) {
    && WellFormed(q)
    && k.pending == q.order
    && (forall r :: RunAgrees(k, q, r))
    && (forall id :: LeaseAgrees(k, q, id))
  }

  lemma KeysDetermineQueue(k: Keys, q: Queue, q': Queue)
    requires Represents(k, q) && Represents(k, q')
    ensures q == q'
  {
    forall r ensures r in q.runs <==> r in q'.runs
      ensures r in q.runs ==> q.runs[r] == q'.runs[r]
    {
      SameEntry(k, q, q', r);
    }
    assert q.runs == q'.runs;
  }

  lemma SameEntry(k: Keys, q: Queue, q': Queue, r: string)
    requires Represents(k, q) && Represents(k, q')
    ensures r in q.runs <==> r in q'.runs
    ensures r in q.runs ==> q.runs[r] == q'.runs[r]
  {
    assert RunAgrees(k, q, r) && RunAgrees(k, q', r);
    if r in k.runLeases {
      assert LeaseAgrees(k, q, k.runLeases[r]) && LeaseAgrees(k, q', k.runLeases[r]);
    }
  }

  lemma QueueDeterminesKeys(k: Keys, k': Keys, q: Queue)
    requires Represents(k, q) && Represents(k', q)
    ensures k == k'
  {
    forall r
      ensures r in k.jobs <==> r in k'.jobs
      ensures r in k.jobs ==> k.jobs[r] == k'.jobs[r]
      ensures r in k.attempts <==> r in k'.attempts
      ensures r in k.attempts ==> k.attempts[r] == k'.attempts[r]
      ensures r in k.delayed <==> r in k'.delayed
      ensures r in k.delayed ==> k.delayed[r] == k'.delayed[r]
      ensures r in k.runLeases <==> r in k'.runLeases
      ensures r in k.runLeases ==> k.runLeases[r] == k'.runLeases[r]
      ensures r in k.cancelled <==> r in k'.cancelled
    {
      assert RunAgrees(k, q, r) && RunAgrees(k', q, r);
    }
    forall id
      ensures id in k.leases <==> id in k'.leases
      ensures id in k.leases ==> k.leases[id] == k'.leases[id]
      ensures id in k.leaseExpiry <==> id in k'.leaseExpiry
      ensures id in k.leaseExpiry ==> k.leaseExpiry[id] == k'.leaseExpiry[id]
    {
      SameLease(k, k', q, id);
      SameLease(k', k, q, id);
    }
    assert k.jobs == k'.jobs && k.attempts == k'.attempts && k.delayed == k'.delayed;
    assert k.runLeases == k'.runLeases && k.cancelled == k'.cancelled;
    assert k.leases == k'.leases && k.leaseExpiry == k'.leaseExpiry;
  }

  /** Keys and queue determine each other: the eight keys hold nothing more than the queue. */
  lemma EncodingIsFaithful(k: Keys, k': Keys, q: Queue, q': Queue)
    requires Represents(k, q) && Represents(k', q')
    ensures k == k' <==> q == q'
  {
    if k == k' { KeysDetermineQueue(k, q, q'); }
    if q == q' { QueueDeterminesKeys(k, k', q); }
  }

  lemma SameLease(k: Keys, k': Keys, q: Queue, id: string)
    requires Represents(k, q) && Represents(k', q)
    ensures id in k.leases ==> id in k'.leases && k.leases[id] == k'.leases[id]
    ensures id in k.leaseExpiry ==> id in k'.leaseExpiry && k.leaseExpiry[id] == k'.leaseExpiry[id]
  {
    assert LeaseAgrees(k, q, id) && LeaseAgrees(k', q, id);
    if id in k.leases {
      assert RunAgrees(k', q, k.leases[id].runId);
    }
  }

  lemma EmptyRepresents()
    ensures Represents(EMPTY, Queue(map[], []))
  {
  }

  function EnqueueStep(q: Queue, job: Job): Queue {
    if job.runId in q.runs then q else
      Queue(q.runs[job.runId := Entry(job, 1, Waiting)], q.order + [job.runId])
  }

  lemma EnqueueWellFormed(q: Queue, job: Job)
    requires WellFormed(q)
    ensures WellFormed(EnqueueStep(q, job))
  {
  }

  lemma EnqueueRefines(k: Keys, q: Queue, job: Job)
    requires Represents(k, q)
    ensures Represents(Enqueued(k, job), EnqueueStep(q, job))
    ensures job.runId in k.jobs <==> job.runId in q.runs
  {
    var k', q' := Enqueued(k, job), EnqueueStep(q, job);
    assert RunAgrees(k, q, job.runId);
    EnqueueWellFormed(q, job);
    forall r ensures RunAgrees(k', q', r) { assert RunAgrees(k, q, r); }
    forall id ensures LeaseAgrees(k', q', id) { assert LeaseAgrees(k, q, id); }
  }

  function Removed(q: Queue, runId: string): Queue {
    Queue(q.runs - {runId}, Without(q.order, runId))
  }

  function WithPhase(q: Queue, runId: string, phase: Phase): map<string, Entry>
    requires runId in q.runs
  {
    q.runs[runId := q.runs[runId].(phase := phase)]
  }

  function CancelStep(q: Queue, runId: string): Queue {
    if runId !in q.runs then q
    else if q.runs[runId].phase.OnLease? then
      q.(runs := WithPhase(q, runId, q.runs[runId].phase.(cancelled := true)))
    else Removed(q, runId)
  }

  lemma {:induction false} WithoutKeepsOrder(s: seq<string>, x: string)
    requires NoDup(s)
    ensures NoDup(Without(s, x))
    ensures x !in s ==> Without(s, x) == s
  {
    if s != [] {
      assert NoDup(s[1..]);
      WithoutKeepsOrder(s[1..], x);
      assert s == [s[0]] + s[1..];
      Prepended(s[0], Without(s[1..], x));
    }
  }

  lemma Prepended(x: string, s: seq<string>)
    requires NoDup(s) && x !in s
    ensures NoDup([x] + s)
  {
  }

  lemma Appended(s: seq<string>, t: seq<string>)
    requires NoDup(s) && NoDup(t) && forall x :: x in s ==> x !in t
    ensures NoDup(s + t)
  {
    forall i, j | 0 <= i < j < |s + t| ensures (s + t)[i] != (s + t)[j] {
      if i < |s| <= j { assert (s + t)[i] in s && (s + t)[j] in t; }
    }
  }

  lemma RemovedWellFormed(q: Queue, runId: string)
    requires WellFormed(q)
    ensures WellFormed(Removed(q, runId))
  {
    WithoutKeepsOrder(q.order, runId);
  }

  lemma CancelLeasedRefines(k: Keys, q: Queue, runId: string)
    requires Represents(k, q) && runId in q.runs && q.runs[runId].phase.OnLease?
    requires Without(q.order, runId) == q.order
    ensures Represents(Cancelled(k, runId), CancelStep(q, runId))
  {
    var k', q' := Cancelled(k, runId), CancelStep(q, runId);
    assert RunAgrees(k, q, runId);
    forall r ensures RunAgrees(k', q', r) { assert RunAgrees(k, q, r); }
    forall id ensures LeaseAgrees(k', q', id) { assert LeaseAgrees(k, q, id); }
  }

  lemma CancelIdleRefines(k: Keys, q: Queue, runId: string)
    requires Represents(k, q) && runId in q.runs && !q.runs[runId].phase.OnLease?
    ensures Represents(Cancelled(k, runId), CancelStep(q, runId))
  {
    var k', q' := Cancelled(k, runId), CancelStep(q, runId);
    RemovedWellFormed(q, runId);
    assert RunAgrees(k, q, runId);
    forall r ensures RunAgrees(k', q', r) { assert RunAgrees(k, q, r); }
    forall id ensures LeaseAgrees(k', q', id) { assert LeaseAgrees(k, q, id); }
  }

  lemma CancelRefines(k: Keys, q: Queue, runId: string)
    requires Represents(k, q)
    ensures Represents(Cancelled(k, runId), CancelStep(q, runId))
    ensures runId in k.jobs <==> runId in q.runs
  {
    assert RunAgrees(k, q, runId);
    if runId in k.jobs {
      WithoutKeepsOrder(q.order, runId);
      if runId in k.runLeases {
        CancelLeasedRefines(k, q, runId);
      } else {
        CancelIdleRefines(k, q, runId);
      }
    }
  }

  predicate HoldsLease(q: Queue, leaseId: string, runId: string) {
    runId in q.runs && q.runs[runId].phase.OnLease? && q.runs[runId].phase.leaseId == leaseId
  }

  lemma HoldsAgrees(k: Keys, q: Queue, leaseId: string, runId: string)
    requires Represents(k, q)
    ensures Holds(k, leaseId, runId) <==> HoldsLease(q, leaseId, runId)
  {
    assert RunAgrees(k, q, runId);
    assert LeaseAgrees(k, q, leaseId);
  }

  function AcknowledgeStep(q: Queue, leaseId: string, runId: string): Queue {
    if HoldsLease(q, leaseId, runId) then Removed(q, runId) else q
  }

  lemma AcknowledgeRefines(k: Keys, q: Queue, leaseId: string, runId: string)
    requires Represents(k, q)
    ensures Represents(Acknowledged(k, leaseId, runId), AcknowledgeStep(q, leaseId, runId))
  {
    HoldsAgrees(k, q, leaseId, runId);
    if Holds(k, leaseId, runId) {
      EndedRefines(k, q, leaseId, runId);
    }
  }

  /** Ending a lease and dropping its run removes the run from the queue. */
  lemma EndedRefines(k: Keys, q: Queue, leaseId: string, runId: string)
    requires Represents(k, q) && HoldsLease(q, leaseId, runId)
    ensures Represents(Dropped(Ended(k, leaseId, runId), runId), Removed(q, runId))
  {
    var k', q' := Dropped(Ended(k, leaseId, runId), runId), Removed(q, runId);
    RemovedWellFormed(q, runId);
    WithoutKeepsOrder(q.order, runId);
    assert RunAgrees(k, q, runId);
    forall r ensures RunAgrees(k', q', r) { assert RunAgrees(k, q, r); }
    forall id ensures LeaseAgrees(k', q', id) { assert LeaseAgrees(k, q, id); }
  }

  /** A run that comes back from a lease counts one more attempt. */
  function Requeued(q: Queue, runId: string, phase: Phase): map<string, Entry>
    requires runId in q.runs
  {
    q.runs[runId := Entry(q.runs[runId].job, q.runs[runId].attempt + 1, phase)]
  }

  function ReleaseStep(q: Queue, leaseId: string, runId: string, dueAt: Time, now: Time): Queue {
    if !HoldsLease(q, leaseId, runId) then q
    else if q.runs[runId].phase.cancelled then Removed(q, runId)
    else if dueAt > now then q.(runs := Requeued(q, runId, Delayed(dueAt)))
    else Queue(Requeued(q, runId, Waiting), q.order + [runId])
  }

  lemma RequeuedWellFormed(q: Queue, runId: string, dueAt: Time)
    requires WellFormed(q) && runId in q.runs && q.runs[runId].phase.OnLease?
    ensures WellFormed(q.(runs := Requeued(q, runId, Delayed(dueAt))))
    ensures WellFormed(Queue(Requeued(q, runId, Waiting), q.order + [runId]))
    ensures WellFormed(Queue(Requeued(q, runId, Waiting), [runId] + q.order))
  {
    assert runId !in q.order;
    Prepended(runId, q.order);
  }

  /** Ending an uncancelled lease and putting its run back, in any place. */
  lemma ReturnedRefines(k: Keys, q: Queue, leaseId: string, runId: string, phase: Phase, order: seq<string>, k': Keys)
    requires Represents(k, q) && HoldsLease(q, leaseId, runId) && !q.runs[runId].phase.cancelled
    requires WellFormed(Queue(Requeued(q, runId, phase), order)) && !phase.OnLease?
    requires k' == Ended(k, leaseId, runId).(
                     attempts := Incremented(k.attempts, runId),
                     delayed := if phase.Delayed? then k.delayed[runId := phase.dueAt] else k.delayed,
                     pending := order)
    ensures Represents(k', Queue(Requeued(q, runId, phase), order))
  {
    var q' := Queue(Requeued(q, runId, phase), order);
    assert RunAgrees(k, q, runId);
    forall r ensures RunAgrees(k', q', r) { assert RunAgrees(k, q, r); }
    forall id ensures LeaseAgrees(k', q', id) { assert LeaseAgrees(k, q, id); }
  }

  lemma ReleaseRefines(k: Keys, q: Queue, leaseId: string, runId: string, dueAt: Time, now: Time)
    requires Represents(k, q)
    ensures Represents(Released(k, leaseId, runId, dueAt, now), ReleaseStep(q, leaseId, runId, dueAt, now))
  {
    HoldsAgrees(k, q, leaseId, runId);
    assert RunAgrees(k, q, runId);
    if Holds(k, leaseId, runId) {
      if runId in k.cancelled {
        EndedRefines(k, q, leaseId, runId);
      } else {
        RequeuedWellFormed(q, runId, dueAt);
        var phase := if dueAt > now then Delayed(dueAt) else Waiting;
        ReturnedRefines(k, q, leaseId, runId, phase, ReleaseStep(q, leaseId, runId, dueAt, now).order,
                        Released(k, leaseId, runId, dueAt, now));
      }
    }
  }

  // What `lease` does before it pops, run by run: delayed runs that are due wait at the back,
  // expired leases are reclaimed to the front, and cancelled runs whose lease expired are gone.

  function Woken(e: Entry, now: Time): Entry {
    if e.DueBy(now) then e.(phase := Waiting)
    else if e.ExpiredBy(now) then Entry(e.job, e.attempt + 1, Waiting)
    else e
  }

  function DueRanks(q: Queue, now: Time): map<string, Rank> {
    map r | r in q.runs && q.runs[r].DueBy(now) :: Rank(q.runs[r].phase.dueAt, r)
  }

  function ExpiryRanks(q: Queue, now: Time): map<string, Rank> {
    map r | r in q.runs && q.runs[r].ExpiredBy(now) :: Rank(q.runs[r].phase.expiresAt, q.runs[r].phase.leaseId)
  }

  /** Pushing the listed runs to the front one by one, leaving out the cancelled ones. */
  function PushedFront(q: Queue, listed: seq<string>): seq<string>
    requires forall r :: r in listed ==> r in q.runs
  {
    if listed == [] then []
    else PushedFront(q, listed[1..]) + if q.runs[listed[0]].Condemned() then [] else [listed[0]]
  }

  lemma ExpiryRanksMembers(q: Queue, now: Time)
    requires WellFormed(q)
    ensures Distinct(ExpiryRanks(q, now))
    ensures forall r :: r in InOrder(ExpiryRanks(q, now)) <==> r in q.runs && q.runs[r].ExpiredBy(now)
  {
    InOrderMembers(ExpiryRanks(q, now));
  }

  function WokenRuns(q: Queue, now: Time): map<string, Entry> {
    map r | r in q.runs && !(q.runs[r].ExpiredBy(now) && q.runs[r].Condemned()) :: Woken(q.runs[r], now)
  }

  function RefreshStep(q: Queue, now: Time): Queue
    requires WellFormed(q)
  {
    ExpiryRanksMembers(q, now);
    Queue(WokenRuns(q, now),
          PushedFront(q, InOrder(ExpiryRanks(q, now))) + (q.order + InOrder(DueRanks(q, now))))
  }

  function PromoteStep(q: Queue, now: Time): Queue {
    Queue(map r | r in q.runs :: if q.runs[r].DueBy(now) then q.runs[r].(phase := Waiting) else q.runs[r],
          q.order + InOrder(DueRanks(q, now)))
  }

  lemma PromoteWellFormed(q: Queue, now: Time)
    requires WellFormed(q)
    ensures WellFormed(PromoteStep(q, now))
  {
    var due := InOrder(DueRanks(q, now));
    InOrderMembers(DueRanks(q, now));
    InOrderNoDup(DueRanks(q, now));
    Appended(q.order, due);
  }

  lemma PromoteRefines(k: Keys, q: Queue, now: Time)
    requires Represents(k, q)
    ensures Represents(Promoted(k, now), PromoteStep(q, now))
  {
    var k', q' := Promoted(k, now), PromoteStep(q, now);
    PromoteWellFormed(q, now);
    SameDue(k, q, now);
    InOrderMembers(DueRanks(q, now));
    forall r ensures RunAgrees(k', q', r) { PromotedRun(k, q, now, r); }
    forall id ensures LeaseAgrees(k', q', id) { assert LeaseAgrees(k, q, id); }
  }

  lemma PromotedRun(k: Keys, q: Queue, now: Time, r: string)
    requires RunAgrees(k, q, r)
    requires r in RangeUpTo(k.delayed, now) <==> r in q.runs && q.runs[r].DueBy(now)
    ensures RunAgrees(Promoted(k, now), PromoteStep(q, now), r)
  {
  }

  lemma SameDue(k: Keys, q: Queue, now: Time)
    requires Represents(k, q)
    ensures RangeUpTo(k.delayed, now) == InOrder(DueRanks(q, now))
  {
    var ranks := map m | m in k.delayed && k.delayed[m] <= now :: Rank(k.delayed[m], m);
    forall r ensures r in ranks <==> r in DueRanks(q, now)
      ensures r in ranks ==> ranks[r] == DueRanks(q, now)[r]
    {
      assert RunAgrees(k, q, r);
    }
    assert ranks == DueRanks(q, now);
  }

  function ReclaimStep(q: Queue, runId: string): Queue
    requires runId in q.runs
  {
    if q.runs[runId].Condemned() then Removed(q, runId)
    else Queue(Requeued(q, runId, Waiting), [runId] + q.order)
  }

  lemma ReclaimRefines(k: Keys, q: Queue, leaseId: string)
    requires Represents(k, q) && leaseId in k.leases
    ensures var runId := k.leases[leaseId].runId;
            HoldsLease(q, leaseId, runId) && Represents(Reclaimed(k, leaseId), ReclaimStep(q, runId))
  {
    var runId := k.leases[leaseId].runId;
    HoldsAgrees(k, q, leaseId, runId);
    assert RunAgrees(k, q, runId);
    if q.runs[runId].phase.cancelled {
      EndedRefines(k, q, leaseId, runId);
    } else {
      RequeuedWellFormed(q, runId, 0);
      ReturnedRefines(k, q, leaseId, runId, Waiting, [runId] + q.order, Reclaimed(k, leaseId));
    }
  }

  function ReclaimSteps(q: Queue, listed: seq<string>): Queue
    requires NoDup(listed) && forall r :: r in listed ==> r in q.runs
    decreases |listed|
  {
    if listed == [] then q else
      assert forall r :: r in listed[1..] ==> r != listed[0];
      ReclaimSteps(ReclaimStep(q, listed[0]), listed[1..])
  }

  /** The owners of distinct stored leases are distinct. */
  lemma {:induction false} OwnersDistinct(k: Keys, q: Queue, ids: seq<string>, owner: map<string, string>)
    requires Represents(k, q) && NoDup(ids)
    requires forall id :: id in ids ==> id in owner && Holds(k, id, owner[id])
    ensures forall r :: r in Named(ids, owner) ==> r in q.runs && exists id :: id in ids && owner[id] == r
    ensures NoDup(Named(ids, owner))
  {
    if ids != [] {
      var rest := Named(ids[1..], owner);
      assert ids == [ids[0]] + ids[1..];
      OwnersDistinct(k, q, ids[1..], owner);
      HoldsAgrees(k, q, ids[0], owner[ids[0]]);
      assert owner[ids[0]] !in rest by {
        if owner[ids[0]] in rest {
          var id :| id in ids[1..] && owner[id] == owner[ids[0]];
          HoldsAgrees(k, q, id, owner[id]);
        }
      }
      Prepended(owner[ids[0]], rest);
      assert Named(ids, owner) == [owner[ids[0]]] + rest;
    }
  }

  lemma {:induction false} ReclaimAllRefines(k: Keys, q: Queue, ids: seq<string>, owner: map<string, string>)
    requires Represents(k, q) && NoDup(ids)
    requires forall id :: id in ids ==> id in owner && Holds(k, id, owner[id])
    ensures NoDup(Named(ids, owner)) && forall r :: r in Named(ids, owner) ==> r in q.runs
    ensures Represents(ReclaimedAll(k, ids), ReclaimSteps(q, Named(ids, owner)))
    decreases |ids|
  {
    OwnersDistinct(k, q, ids, owner);
    if ids != [] {
      ReclaimRefines(k, q, ids[0]);
      forall id | id in ids[1..] ensures id in owner && Holds(Reclaimed(k, ids[0]), id, owner[id]) {
        assert Holds(k, id, owner[id]);
      }
      ReclaimAllRefines(Reclaimed(k, ids[0]), ReclaimStep(q, owner[ids[0]]), ids[1..], owner);
      assert Named(ids, owner)[1..] == Named(ids[1..], owner);
    }
  }

  /** The runs left when the listed leases have all expired. */
  function ReclaimedRuns(q: Queue, listed: seq<string>): map<string, Entry> {
    map r | r in q.runs && !(r in listed && q.runs[r].Condemned()) ::
      if r in listed then Entry(q.runs[r].job, q.runs[r].attempt + 1, Waiting) else q.runs[r]
  }

  /** Reclaiming one by one is reclaiming all at once. */
  lemma {:induction false} ReclaimStepsAtOnce(q: Queue, listed: seq<string>)
    requires WellFormed(q) && NoDup(listed)
    requires forall r :: r in listed ==> r in q.runs && q.runs[r].phase.OnLease?
    ensures WellFormed(ReclaimSteps(q, listed))
    ensures ReclaimSteps(q, listed) == Queue(ReclaimedRuns(q, listed), PushedFront(q, listed) + q.order)
    decreases |listed|
  {
    if listed == [] {
      assert ReclaimedRuns(q, listed) == q.runs;
    } else {
      assert listed == [listed[0]] + listed[1..];
      ReclaimNext(q, listed[0], listed[1..]);
      ReclaimStepsAtOnce(ReclaimStep(q, listed[0]), listed[1..]);
    }
  }

  lemma ReclaimNext(q: Queue, r0: string, rest: seq<string>)
    requires WellFormed(q) && r0 in q.runs && q.runs[r0].phase.OnLease? && r0 !in rest
    requires forall r :: r in rest ==> r in q.runs && q.runs[r].phase.OnLease?
    ensures var q1 := ReclaimStep(q, r0);
            && WellFormed(q1)
            && (forall r :: r in rest ==> r in q1.runs && q1.runs[r].phase.OnLease?)
            && ReclaimedRuns(q1, rest) == ReclaimedRuns(q, [r0] + rest)
            && PushedFront(q1, rest) + q1.order == PushedFront(q, [r0] + rest) + q.order
  {
    ReclaimFirst(q, r0, rest);
    ReclaimFirstRuns(q, r0, rest);
    ReclaimFirstPushed(q, r0, rest, ReclaimStep(q, r0));
  }

  lemma ReclaimFirstPushed(q: Queue, r0: string, rest: seq<string>, q1: Queue)
    requires r0 in q.runs && forall r :: r in rest ==> r in q.runs && r in q1.runs && q1.runs[r] == q.runs[r]
    requires q1.order == (if q.runs[r0].Condemned() then [] else [r0]) + q.order
    ensures PushedFront(q1, rest) + q1.order == PushedFront(q, [r0] + rest) + q.order
  {
    SamePush(q, q1, rest);
    PushedFirst(q, r0, rest);
    Reassociate(PushedFront(q, rest), if q.runs[r0].Condemned() then [] else [r0], q.order);
  }

  lemma PushedFirst(q: Queue, r0: string, rest: seq<string>)
    requires r0 in q.runs && forall r :: r in rest ==> r in q.runs
    ensures PushedFront(q, [r0] + rest) == PushedFront(q, rest) + if q.runs[r0].Condemned() then [] else [r0]
  {
    assert ([r0] + rest)[1..] == rest;
  }

  lemma Reassociate(a: seq<string>, b: seq<string>, c: seq<string>)
    ensures a + (b + c) == (a + b) + c
  {
  }

  lemma ReclaimFirst(q: Queue, r0: string, rest: seq<string>)
    requires WellFormed(q) && r0 in q.runs && q.runs[r0].phase.OnLease? && r0 !in rest
    ensures WellFormed(ReclaimStep(q, r0))
    ensures forall r :: r != r0 ==> (r in ReclaimStep(q, r0).runs <==> r in q.runs)
    ensures forall r :: r != r0 && r in q.runs ==> ReclaimStep(q, r0).runs[r] == q.runs[r]
    ensures ReclaimStep(q, r0).order == (if q.runs[r0].Condemned() then [] else [r0]) + q.order
  {
    assert r0 !in q.order;
    WithoutKeepsOrder(q.order, r0);
    RemovedWellFormed(q, r0);
    RequeuedWellFormed(q, r0, 0);
  }

  lemma ReclaimFirstRuns(q: Queue, r0: string, rest: seq<string>)
    requires r0 in q.runs && q.runs[r0].phase.OnLease? && r0 !in rest
    ensures ReclaimedRuns(ReclaimStep(q, r0), rest) == ReclaimedRuns(q, [r0] + rest)
  {
    var left, right := ReclaimedRuns(ReclaimStep(q, r0), rest), ReclaimedRuns(q, [r0] + rest);
    forall r ensures r in left <==> r in right
      ensures r in left ==> left[r] == right[r]
    {
      assert r in [r0] + rest <==> r == r0 || r in rest;
    }
  }

  lemma {:induction false} SamePush(q: Queue, q': Queue, listed: seq<string>)
    requires forall r :: r in listed ==> r in q.runs && r in q'.runs && q.runs[r] == q'.runs[r]
    ensures PushedFront(q, listed) == PushedFront(q', listed)
  {
    if listed != [] {
      SamePush(q, q', listed[1..]);
    }
  }

  /** Promoting and then reclaiming one by one is `RefreshStep`. */
  lemma RefreshAtOnce(q: Queue, now: Time) returns (expired: seq<string>)
    requires WellFormed(q)
    ensures Distinct(ExpiryRanks(q, now)) && expired == InOrder(ExpiryRanks(q, now)) && NoDup(expired)
    ensures forall r :: r in expired ==> r in PromoteStep(q, now).runs
    ensures ReclaimSteps(PromoteStep(q, now), expired) == RefreshStep(q, now)
    ensures WellFormed(ReclaimSteps(PromoteStep(q, now), expired))
  {
    expired := ExpiredListed(q, now);
    PromoteWellFormed(q, now);
    ReclaimStepsAtOnce(PromoteStep(q, now), expired);
    SamePush(q, PromoteStep(q, now), expired);
    RefreshRuns(q, now, expired);
  }

  lemma ExpiredListed(q: Queue, now: Time) returns (expired: seq<string>)
    requires WellFormed(q)
    ensures Distinct(ExpiryRanks(q, now)) && expired == InOrder(ExpiryRanks(q, now)) && NoDup(expired)
    ensures forall r :: r in expired <==> r in q.runs && q.runs[r].ExpiredBy(now)
    ensures forall r :: r in expired ==> r in PromoteStep(q, now).runs && PromoteStep(q, now).runs[r] == q.runs[r]
  {
    ExpiryRanksMembers(q, now);
    InOrderNoDup(ExpiryRanks(q, now));
    expired := InOrder(ExpiryRanks(q, now));
  }

  lemma RefreshRuns(q: Queue, now: Time, expired: seq<string>)
    requires forall r :: r in expired <==> r in q.runs && q.runs[r].ExpiredBy(now)
    ensures ReclaimedRuns(PromoteStep(q, now), expired) == WokenRuns(q, now)
  {
  }

  /** The leases the script finds expired belong, in order, to the runs the queue finds expired. */
  lemma SameExpired(k: Keys, q: Queue, now: Time) returns (owner: map<string, string>)
    requires Represents(k, q)
    ensures NoDup(RangeUpTo(k.leaseExpiry, now))
    ensures forall id :: id in RangeUpTo(k.leaseExpiry, now) ==> id in owner && Holds(k, id, owner[id])
    ensures Distinct(ExpiryRanks(q, now))
    ensures Named(RangeUpTo(k.leaseExpiry, now), owner) == InOrder(ExpiryRanks(q, now))
  {
    owner := map id | id in k.leases :: k.leases[id].runId;
    var ranks := map m | m in k.leaseExpiry && k.leaseExpiry[m] <= now :: Rank(k.leaseExpiry[m], m);
    var renamed := ExpiryRanks(q, now);
    ExpiryRanksMembers(q, now);
    InOrderMembers(ranks);
    InOrderNoDup(ranks);
    assert forall id :: id in ranks ==> LeaseAgrees(k, q, id);
    forall r | r in renamed ensures exists id :: id in ranks && id in owner && owner[id] == r {
      ExpiredOwned(k, q, now, r);
      assert k.runLeases[r] in ranks;
    }
    InOrderRenamed(ranks, renamed, owner);
  }

  lemma ExpiredOwned(k: Keys, q: Queue, now: Time, r: string)
    requires Represents(k, q) && r in ExpiryRanks(q, now)
    ensures r in k.runLeases && Holds(k, k.runLeases[r], r)
    ensures k.runLeases[r] in k.leaseExpiry && k.leaseExpiry[k.runLeases[r]] <= now
  {
    assert RunAgrees(k, q, r);
    assert LeaseAgrees(k, q, k.runLeases[r]);
  }

  lemma RefreshWellFormed(q: Queue, now: Time)
    requires WellFormed(q)
    ensures WellFormed(RefreshStep(q, now))
  {
    var expired := RefreshAtOnce(q, now);
  }

  lemma ExpiredUnaffected(q: Queue, now: Time)
    ensures ExpiryRanks(PromoteStep(q, now), now) == ExpiryRanks(q, now)
  {
  }

  lemma RefreshRefines(k: Keys, q: Queue, now: Time)
    requires Represents(k, q)
    ensures Represents(Refreshed(k, now), RefreshStep(q, now))
  {
    var k1, q1 := Promoted(k, now), PromoteStep(q, now);
    PromoteRefines(k, q, now);
    var owner := SameExpired(k1, q1, now);
    ExpiredUnaffected(q, now);
    ReclaimAllRefines(k1, q1, RangeUpTo(k1.leaseExpiry, now), owner);
    var expired := RefreshAtOnce(q, now);
  }

  /** Deliver the first waiting run, if there is one. */
  function DeliverStep(q: Queue, leaseId: string, workerId: string, expiresAt: Time): (Queue, Option<Delivery>)
    requires WellFormed(q)
  {
    if q.order == [] then (q, None) else
      var r := q.order[0];
      (Queue(WithPhase(q, r, OnLease(leaseId, workerId, expiresAt, false)), q.order[1..]),
       Some(Delivery(q.runs[r].job, q.runs[r].attempt)))
  }

  /** The pop loop delivers on its first pop: a waiting run is never cancelled or unknown. */
  lemma PopRefines(k: Keys, q: Queue, leaseId: string, workerId: string, expiresAt: Time)
    requires Represents(k, q) && leaseId !in k.leases
    ensures Popped(k, leaseId, workerId, expiresAt).1 == DeliverStep(q, leaseId, workerId, expiresAt).1
    ensures Represents(Popped(k, leaseId, workerId, expiresAt).0, DeliverStep(q, leaseId, workerId, expiresAt).0)
    ensures q.order != [] ==>
              Popped(k, leaseId, workerId, expiresAt).0
              == Lent(k.(pending := k.pending[1..]), q.order[0], leaseId, workerId, expiresAt)
  {
    if q.order != [] {
      var r0 := q.order[0];
      assert RunAgrees(k, q, r0);
      var k' := Lent(k.(pending := k.pending[1..]), r0, leaseId, workerId, expiresAt);
      var q' := DeliverStep(q, leaseId, workerId, expiresAt).0;
      assert Popped(k, leaseId, workerId, expiresAt).0 == k';
      DeliverWellFormed(k, q, leaseId, workerId, expiresAt);
      forall r ensures RunAgrees(k', q', r) { assert RunAgrees(k, q, r); }
      forall id ensures LeaseAgrees(k', q', id) { assert LeaseAgrees(k, q, id); }
    }
  }

  lemma DeliverWellFormed(k: Keys, q: Queue, leaseId: string, workerId: string, expiresAt: Time)
    requires Represents(k, q) && leaseId !in k.leases && q.order != []
    ensures WellFormed(DeliverStep(q, leaseId, workerId, expiresAt).0)
  {
    assert q.order == [q.order[0]] + q.order[1..];
    forall r | r in q.runs && q.runs[r].phase.OnLease? ensures q.runs[r].phase.leaseId != leaseId {
      assert RunAgrees(k, q, r);
    }
  }

  ghost function LeaseStep(q: Queue, now: Time, leaseId: string, workerId: string, expiresAt: Time): (Queue, Option<Delivery>)
    requires WellFormed(q)
  {
    RefreshWellFormed(q, now);
    DeliverStep(RefreshStep(q, now), leaseId, workerId, expiresAt)
  }

  lemma LeaseRefines(k: Keys, q: Queue, now: Time, leaseId: string, workerId: string, expiresAt: Time)
    requires Represents(k, q) && leaseId !in k.leases
    ensures Represents(Leased(k, now, leaseId, workerId, expiresAt).0, LeaseStep(q, now, leaseId, workerId, expiresAt).0)
    ensures Leased(k, now, leaseId, workerId, expiresAt).1 == LeaseStep(q, now, leaseId, workerId, expiresAt).1
  {
    RefreshRefines(k, q, now);
    RefreshKeepsLeases(k, now, leaseId);
    PopRefines(Refreshed(k, now), RefreshStep(q, now), leaseId, workerId, expiresAt);
  }

  lemma RefreshKeepsLeases(k: Keys, now: Time, leaseId: string)
    ensures leaseId in Refreshed(k, now).leases ==> leaseId in k.leases
  {
    ReclaimKeepsLeases(Promoted(k, now), RangeUpTo(k.leaseExpiry, now), leaseId);
  }

  lemma {:induction false} ReclaimKeepsLeases(k: Keys, ids: seq<string>, leaseId: string)
    ensures leaseId in ReclaimedAll(k, ids).leases ==> leaseId in k.leases
    decreases |ids|
  {
    if ids != [] {
      ReclaimKeepsLeases(Reclaimed(k, ids[0]), ids[1..], leaseId);
    }
  }
}
