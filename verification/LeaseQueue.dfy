/**
 The Redis lease queue: five scripts, each one atomic step over eight keys.
 The functions give each script's effect on any contents of the keys; class
 `RedisQueueBackend` runs the scripts step by step and is proved to agree.
 */
module LeaseQueue {
  import opened Common
  import opened SortedSets
  import Text

  /** An encoded command. Only its run identifier matters to the queue. */
  datatype Job = Job(runId: string, payload: string)

  /** The stored lease, without its unread copy of the expiry time. */
  datatype StoredLease = StoredLease(runId: string, workerId: string)

  /** What `lease` hands to a worker. */
  datatype Delivery = Delivery(job: Job, attempt: int)

  datatype Keys = Keys(
    pending: seq<string>,
    delayed: map<string, Time>,
    jobs: map<string, Job>,
    attempts: map<string, int>,
    leases: map<string, StoredLease>,
    leaseExpiry: map<string, Time>,
    runLeases: map<string, string>,
    cancelled: set<string>)

  const EMPTY := Keys([], map[], map[], map[], map[], map[], map[], {})

  /** HINCRBY counts a missing field as zero. */
  function Incremented(counts: map<string, int>, field: string): map<string, int> {
    counts[field := (if field in counts then counts[field] else 0) + 1]
  }

  /** LREM key 0 member. */
  function Without(s: seq<string>, x: string): (r: seq<string>)
    ensures forall y :: y in r <==> y in s && y != x
  {
    if s == [] then [] else (if s[0] == x then [] else [s[0]]) + Without(s[1..], x)
  }

  function Enqueued(k: Keys, job: Job): Keys {
    if job.runId in k.jobs then k else
      k.(jobs := k.jobs[job.runId := job],
         attempts := k.attempts[job.runId := 1],
         cancelled := k.cancelled - {job.runId},
         pending := k.pending + [job.runId])
  }

  function Promoted(k: Keys, now: Time): Keys {
    var due := RangeUpTo(k.delayed, now);
    k.(delayed := k.delayed - (set r | r in due), pending := k.pending + due)
  }

  /** Forget a run for good. */
  function Dropped(k: Keys, runId: string): Keys {
    k.(jobs := k.jobs - {runId}, attempts := k.attempts - {runId}, cancelled := k.cancelled - {runId})
  }

  function Reclaimed(k: Keys, leaseId: string): Keys {
    var k1 := k.(leases := k.leases - {leaseId}, leaseExpiry := k.leaseExpiry - {leaseId});
    if leaseId !in k.leases then k1 else
      var runId := k.leases[leaseId].runId;
      var k2 := k1.(runLeases := k1.runLeases - {runId});
      if runId in k2.cancelled then Dropped(k2, runId) else
        k2.(attempts := Incremented(k2.attempts, runId), pending := [runId] + k2.pending)
  }

  function ReclaimedAll(k: Keys, leaseIds: seq<string>): Keys
    decreases |leaseIds|
  {
    if leaseIds == [] then k else ReclaimedAll(Reclaimed(k, leaseIds[0]), leaseIds[1..])
  }

  /** Lend one known run to a worker. */
  function Lent(k: Keys, runId: string, leaseId: string, workerId: string, expiresAt: Time): Keys {
    k.(leases := k.leases[leaseId := StoredLease(runId, workerId)],
       leaseExpiry := k.leaseExpiry[leaseId := expiresAt],
       runLeases := k.runLeases[runId := leaseId])
  }

  /** Pop pending runs until one can be delivered. */
  function Popped(k: Keys, leaseId: string, workerId: string, expiresAt: Time): (Keys, Option<Delivery>)
    decreases |k.pending|
  {
    if k.pending == [] then (k, None) else
      var runId := k.pending[0];
      var k1 := k.(pending := k.pending[1..]);
      if runId in k.cancelled then Popped(Dropped(k1, runId), leaseId, workerId, expiresAt)
      else if runId !in k.jobs then Popped(k1, leaseId, workerId, expiresAt)
      else
        (Lent(k1, runId, leaseId, workerId, expiresAt),
         Some(Delivery(k.jobs[runId], if runId in k.attempts then k.attempts[runId] else 1)))
  }

  /** Everything `lease` does before it pops. */
  function Refreshed(k: Keys, now: Time): Keys {
    var k1 := Promoted(k, now);
    ReclaimedAll(k1, RangeUpTo(k1.leaseExpiry, now))
  }

  function Leased(k: Keys, now: Time, leaseId: string, workerId: string, expiresAt: Time): (Keys, Option<Delivery>) {
    Popped(Refreshed(k, now), leaseId, workerId, expiresAt)
  }

  /** `leaseId` is a stored lease on `runId`. */
  predicate Holds(k: Keys, leaseId: string, runId: string) {
    leaseId in k.leases && k.leases[leaseId].runId == runId
  }

  function Ended(k: Keys, leaseId: string, runId: string): Keys {
    k.(leases := k.leases - {leaseId}, leaseExpiry := k.leaseExpiry - {leaseId}, runLeases := k.runLeases - {runId})
  }

  function Acknowledged(k: Keys, leaseId: string, runId: string): Keys {
    if !Holds(k, leaseId, runId) then k else Dropped(Ended(k, leaseId, runId), runId)
  }

  function Released(k: Keys, leaseId: string, runId: string, dueAt: Time, now: Time): Keys {
    if !Holds(k, leaseId, runId) then k else
      var k1 := Ended(k, leaseId, runId);
      if runId in k1.cancelled then Dropped(k1, runId) else
        var k2 := k1.(attempts := Incremented(k1.attempts, runId));
        if dueAt > now then k2.(delayed := k2.delayed[runId := dueAt])
        else k2.(pending := k2.pending + [runId])
  }

  function Cancelled(k: Keys, runId: string): Keys {
    if runId !in k.jobs then k else
      var k1 := k.(cancelled := k.cancelled + {runId},
                   pending := Without(k.pending, runId),
                   delayed := k.delayed - {runId});
      if runId in k.runLeases then k1 else Dropped(k1, runId)
  }

  datatype Error = DuplicateRun(runId: string) | InvalidArgument

  class RedisQueueBackend {
    var pending: seq<string>
    var delayed: map<string, Time>
    var jobs: map<string, Job>
    var attempts: map<string, int>
    var leases: map<string, StoredLease>
    var leaseExpiry: map<string, Time>
    var runLeases: map<string, string>
    var cancelled: set<string>

    ghost function Contents(): Keys
      reads this
    {
      Keys(pending, delayed, jobs, attempts, leases, leaseExpiry, runLeases, cancelled)
    }

    constructor ()
      ensures Contents() == EMPTY
    {
      pending, delayed, jobs, attempts := [], map[], map[], map[];
      leases, leaseExpiry, runLeases, cancelled := map[], map[], map[], {};
    }

    method Enqueue(job: Job) returns (error: Option<Error>)
      modifies this
      ensures Contents() == Enqueued(old(Contents()), job)
      ensures error == if job.runId in old(jobs) then Some(DuplicateRun(job.runId)) else None
    {
      if job.runId in jobs {
        return Some(DuplicateRun(job.runId));
      }
      jobs := jobs[job.runId := job];
      attempts := attempts[job.runId := 1];
      cancelled := cancelled - {job.runId};
      pending := pending + [job.runId];
      return None;
    }

    /** The lease runs until `now + duration`. A blank worker or a duration that is not positive is refused untouched. */
    method Lease(workerId: string, duration: Time, now: Time, leaseId: string)
      returns (delivery: Option<Delivery>, error: Option<Error>)
      modifies this
      ensures Text.Blank(workerId) || duration <= 0 ==>
                Contents() == old(Contents()) && delivery == None && error == Some(InvalidArgument)
      ensures !Text.Blank(workerId) && duration > 0 ==>
                (Contents(), delivery) == Leased(old(Contents()), now, leaseId, workerId, now + duration)
                && error == None
    {
      if Text.Blank(workerId) || duration <= 0 {
        return None, Some(InvalidArgument);
      }
      error := None;
      Refresh(now);
      delivery := Pop(leaseId, workerId, now + duration);
    }

    method Refresh(now: Time)
      modifies this
      ensures Contents() == Refreshed(old(Contents()), now)
    {
      Promote(now);
      ReclaimExpired(now);
    }

    method Promote(now: Time)
      modifies this
      ensures Contents() == Promoted(old(Contents()), now)
    {
      ghost var before := Contents();
      var due := RangeUpTo(delayed, now);
      for i := 0 to |due|
        invariant delayed == before.delayed - (set r | r in due[..i])
        invariant pending == before.pending + due[..i]
        invariant Contents() == before.(delayed := delayed, pending := pending)
      {
        assert due[..i + 1] == due[..i] + [due[i]];
        delayed := delayed - {due[i]};
        pending := pending + [due[i]];
      }
      assert due[..|due|] == due;
    }

    method ReclaimExpired(now: Time)
      modifies this
      ensures Contents() == ReclaimedAll(old(Contents()), RangeUpTo(old(leaseExpiry), now))
    {
      var expired := RangeUpTo(leaseExpiry, now);
      ghost var after := ReclaimedAll(Contents(), expired);
      assert expired[0..] == expired;
      for i := 0 to |expired|
        invariant ReclaimedAll(Contents(), expired[i..]) == after
      {
        assert expired[i..][1..] == expired[i + 1..];
        Reclaim(expired[i]);
      }
      assert expired[|expired|..] == [];
    }

    method Reclaim(leaseId: string)
      modifies this
      ensures Contents() == Reclaimed(old(Contents()), leaseId)
    {
      var stored := if leaseId in leases then Some(leases[leaseId]) else None;
      leases := leases - {leaseId};
      leaseExpiry := leaseExpiry - {leaseId};
      if stored.Some? {
        var runId := stored.value.runId;
        runLeases := runLeases - {runId};
        if runId in cancelled {
          jobs := jobs - {runId};
          attempts := attempts - {runId};
          cancelled := cancelled - {runId};
        } else {
          attempts := Incremented(attempts, runId);
          pending := [runId] + pending;
        }
      }
    }

    method Pop(leaseId: string, workerId: string, expiresAt: Time) returns (delivery: Option<Delivery>)
      modifies this
      ensures (Contents(), delivery) == Popped(old(Contents()), leaseId, workerId, expiresAt)
    {
      ghost var result := Popped(Contents(), leaseId, workerId, expiresAt);
      while pending != []
        invariant Popped(Contents(), leaseId, workerId, expiresAt) == result
        decreases |pending|
      {
        var runId := pending[0];
        pending := pending[1..];
        if runId in cancelled {
          jobs := jobs - {runId};
          attempts := attempts - {runId};
          cancelled := cancelled - {runId};
        } else if runId in jobs {
          var attempt := if runId in attempts then attempts[runId] else 1;
          leases := leases[leaseId := StoredLease(runId, workerId)];
          leaseExpiry := leaseExpiry[leaseId := expiresAt];
          runLeases := runLeases[runId := leaseId];
          return Some(Delivery(jobs[runId], attempt));
        }
      }
      return None;
    }

    method Acknowledge(leaseId: string, runId: string)
      modifies this
      ensures Contents() == Acknowledged(old(Contents()), leaseId, runId)
    {
      if leaseId !in leases || leases[leaseId].runId != runId {
        return;
      }
      leases := leases - {leaseId};
      leaseExpiry := leaseExpiry - {leaseId};
      runLeases := runLeases - {runId};
      jobs := jobs - {runId};
      attempts := attempts - {runId};
      cancelled := cancelled - {runId};
    }

    method Release(leaseId: string, runId: string, delay: Time, now: Time) returns (error: Option<Error>)
      modifies this
      ensures delay < 0 ==> Contents() == old(Contents()) && error == Some(InvalidArgument)
      ensures delay >= 0 ==> Contents() == Released(old(Contents()), leaseId, runId, now + delay, now) && error == None
    {
      if delay < 0 {
        return Some(InvalidArgument);
      }
      error := None;
      if leaseId !in leases || leases[leaseId].runId != runId {
        return;
      }
      leases := leases - {leaseId};
      leaseExpiry := leaseExpiry - {leaseId};
      runLeases := runLeases - {runId};
      if runId in cancelled {
        jobs := jobs - {runId};
        attempts := attempts - {runId};
        cancelled := cancelled - {runId};
        return;
      }
      attempts := Incremented(attempts, runId);
      if now + delay > now {
        delayed := delayed[runId := now + delay];
      } else {
        pending := pending + [runId];
      }
    }

    method Cancel(runId: string) returns (known: bool)
      modifies this
      ensures Contents() == Cancelled(old(Contents()), runId)
      ensures known == (runId in old(jobs))
    {
      if runId !in jobs {
        return false;
      }
      cancelled := cancelled + {runId};
      pending := Without(pending, runId);
      delayed := delayed - {runId};
      if runId !in runLeases {
        jobs := jobs - {runId};
        attempts := attempts - {runId};
        cancelled := cancelled - {runId};
      }
      return true;
    }
  }
}
