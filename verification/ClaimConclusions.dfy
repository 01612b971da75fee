/**
 What the workers write. Every record a worker stored is accounted for by an
 event: a claim by the record it replaced, a conclusion by the end of an
 execution of that same worker. All of it is said in the fields of records.
 */
module ClaimConclusions {
  import opened Common
  import opened RunRepository
  import opened ClaimProtocol

  /** `next` is the next version of the same run. */
  predicate NextVersion(record: Record, next: Record) {
    && next.runId == record.runId && next.createdAt == record.createdAt && next.request == record.request
    && next.version == record.version + 1
  }

  /** A claim of `record`: queued, or running with a claim that has run out. */
  predicate ClaimsRecord(record: Record, next: Record, lease: Positive) {
    && NextVersion(record, next)
    && (record.status == Queued || (record.status == Running && record.updatedAt + lease <= next.updatedAt))
    && next.status == Running && next.error == "" && next.result == record.result
  }

  /** What is left of a claim when its execution failed with an error of this type. */
  predicate FailsWith(claim: Record, final: Record, errorType: string) {
    NextVersion(claim, final) && final.status == Failed && final.error == errorType + ": worker execution failed" && final.result == claim.result
  }

  predicate EndsWith(claim: Record, final: Record, status: RunStatus, result: string, error: string) {
    NextVersion(claim, final) && final.status == status && final.result == result && final.error == error
  }

  /** `final` is what an execution that ends like this leaves of its claim. */
  predicate Concludes(ending: Ending, claim: Record, final: Record) {
    match ending
    case Died => false
    case Threw(errorType) => FailsWith(claim, final, errorType)
    case Returned(false, _, _, _) => FailsWith(claim, final, "CeleryWorkerError")
    case Returned(true, LoopPaused, result, error) => EndsWith(claim, final, Paused, result, error)
    case Returned(true, LoopBlocked, result, error) => EndsWith(claim, final, Blocked, result, error)
    case Returned(true, LoopCompleted, result, error) => EndsWith(claim, final, Completed, result, error)
    case Returned(true, LoopFailed, result, error) => EndsWith(claim, final, Failed, result, error)
    case Returned(true, LoopCancelled, result, error) => EndsWith(claim, final, CancelledRun, result, error)
    case Returned(true, LoopTimedOut, result, error) => EndsWith(claim, final, TimedOut, result, error)
    case Returned(true, _, _, _) => false
  }

  lemma ConcludesExactly(claim: Record, ending: Ending, now: Time)
    ensures var final := ConclusionOf(claim, ending, now);
            && (final.Some? ==> Concludes(ending, claim, final.value) && final.value.updatedAt == now)
            && (final.None? ==> forall record :: !Concludes(ending, claim, record))
  {
  }

  /** An execution of worker `w` ended in these events and left `final` of its claim. */
  ghost predicate Stems(events: seq<Event>, w: nat, claim: Record, final: Record) {
    exists m :: 0 <= m < |events| && events[m].Finish? && events[m].worker == w && Concludes(events[m].ending, claim, final)
  }

  lemma StemsLater(events: seq<Event>, e: Event, w: nat, claim: Record, final: Record)
    requires Stems(events, w, claim, final)
    ensures Stems(events + [e], w, claim, final)
  {
    var m :| 0 <= m < |events| && events[m].Finish? && events[m].worker == w && Concludes(events[m].ending, claim, final);
    assert (events + [e])[m] == events[m];
  }

  /** Entry `i` of the history, if a worker wrote it. */
  ghost predicate EntryExplained(events: seq<Event>, log: seq<Entry>, lease: Positive, i: nat)
    requires 0 < i < |log|
  {
    log[i].writer.Some? ==>
      || ClaimsRecord(log[i - 1].record, log[i].record, lease)
      || (log[i - 1].writer == log[i].writer && Stems(events, log[i].writer.value, log[i - 1].record, log[i].record))
  }

  ghost predicate Explained(s: State, events: seq<Event>) {
    && (forall w :: PhaseOf(s, w).Concluding? ==> Stems(events, w, PhaseOf(s, w).claim, PhaseOf(s, w).final))
    && (forall i :: 0 < i < |s.log| ==> EntryExplained(events, s.log, s.lease, i))
  }

  lemma PhasesExplained(s: State, events: seq<Event>, e: Event)
    requires Sound(s) && Explained(s, events)
    ensures forall w :: PhaseOf(Next(s, e), w).Concluding? ==>
                          Stems(events + [e], w, PhaseOf(Next(s, e), w).claim, PhaseOf(Next(s, e), w).final)
  {
    var s' := Next(s, e);
    forall w | PhaseOf(s', w).Concluding? ensures Stems(events + [e], w, PhaseOf(s', w).claim, PhaseOf(s', w).final) {
      if PhaseOf(s', w) == PhaseOf(s, w) {
        StemsLater(events, e, w, PhaseOf(s, w).claim, PhaseOf(s, w).final);
      } else {
        ConcludesExactly(PhaseOf(s, w).claim, e.ending, s.clock);
        assert (events + [e])[|events|] == e;
      }
    }
  }

  /** What one event adds to the history is explained. */
  lemma NewEntryExplained(s: State, events: seq<Event>, e: Event)
    requires Sound(s) && Explained(s, events) && Next(s, e).log != s.log
    ensures var log := Next(s, e).log;
            |log| == |s.log| + 1 && log[..|s.log|] == s.log && EntryExplained(events, log, s.lease, |s.log|)
  {
    match e
    case Claim(w) =>
      var p := PhaseOf(s, w);
      assert PhaseSound(s, w, p);
      SwapReplacesHeld(s, p.seen, None, p.claim);
    case Conclude(w) => ConcludesOwnClaim(s, w);
    case Outside(_) =>
  }

  lemma NextExplained(s: State, events: seq<Event>, e: Event)
    requires Sound(s) && Explained(s, events)
    ensures Explained(Next(s, e), events + [e])
  {
    var s' := Next(s, e);
    PhasesExplained(s, events, e);
    if s'.log != s.log { NewEntryExplained(s, events, e); }
    forall i | 0 < i < |s'.log| ensures EntryExplained(events + [e], s'.log, s'.lease, i) {
      EntryLater(s, events, e, s'.log, i);
    }
  }

  lemma EntryLater(s: State, events: seq<Event>, e: Event, log: seq<Entry>, i: nat)
    requires s.log <= log && 0 < i < |log|
    requires i < |s.log| ==> EntryExplained(events, s.log, s.lease, i)
    requires i >= |s.log| ==> EntryExplained(events, log, s.lease, i)
    ensures EntryExplained(events + [e], log, s.lease, i)
  {
    if log[i].writer.Some? && Stems(events, log[i].writer.value, log[i - 1].record, log[i].record) {
      StemsLater(events, e, log[i].writer.value, log[i - 1].record, log[i].record);
    }
  }

  /** Under any interleaving, redelivery and crash, every record that a worker wrote is a claim of the record before it,
      or what the end of an execution of that worker left of its own claim just before it. */
  lemma {:induction false} AlwaysExplained(record: Record, lease: Positive, clock: Time, events: seq<Event>)
    ensures Explained(After(Start(record, lease, clock), events), events)
    ensures After(Start(record, lease, clock), events).lease == lease
  {
    if events != [] {
      var n := |events| - 1;
      AlwaysExplained(record, lease, clock, events[..n]);
      ExplainedNext(record, lease, clock, events[..n], events[n]);
      assert events[..n] + [events[n]] == events;
    }
  }

  lemma ExplainedNext(record: Record, lease: Positive, clock: Time, events: seq<Event>, e: Event)
    requires Explained(After(Start(record, lease, clock), events), events) && After(Start(record, lease, clock), events).lease == lease
    ensures Explained(After(Start(record, lease, clock), events + [e]), events + [e])
    ensures After(Start(record, lease, clock), events + [e]).lease == lease
  {
    AlwaysSound(record, lease, clock, events);
    NextExplained(After(Start(record, lease, clock), events), events, e);
    AfterNext(Start(record, lease, clock), events, e);
  }

  /** What `e`, stored by a worker that ended an execution, says of how that ended. */
  predicate Reported(e: Entry, ending: Ending) {
    match e.record.status
    case Completed => ending == Returned(true, LoopCompleted, e.record.result, e.record.error)
    case Paused => ending == Returned(true, LoopPaused, e.record.result, e.record.error)
    case Blocked => ending == Returned(true, LoopBlocked, e.record.result, e.record.error)
    case CancelledRun => ending == Returned(true, LoopCancelled, e.record.result, e.record.error)
    case TimedOut => ending == Returned(true, LoopTimedOut, e.record.result, e.record.error)
    case Failed =>
      || ending == Returned(true, LoopFailed, e.record.result, e.record.error)
      || ending.Threw?
      || (ending.Returned? && !ending.sameRun)
    case _ => false
  }

  lemma ExplainedReports(events: seq<Event>, log: seq<Entry>, lease: Positive, i: nat) returns (m: nat)
    requires 0 < i < |log| && EntryExplained(events, log, lease, i) && log[i].writer.Some? && log[i].record.status != Running
    ensures m < |events| && events[m].Finish? && events[m].worker == log[i].writer.value && Reported(log[i], events[m].ending)
  {
    m :| 0 <= m < |events| && events[m].Finish? && events[m].worker == log[i].writer.value
         && Concludes(events[m].ending, log[i - 1].record, log[i].record);
  }

  /** So a stored success, pause, block, cancel or timeout was reported as just that, and a stored failure was reported
      as one, or was an error, or a result of another run. */
  lemma StatusWasReported(record: Record, lease: Positive, clock: Time, events: seq<Event>, i: nat) returns (m: nat)
    requires var log := After(Start(record, lease, clock), events).log;
             0 < i < |log| && log[i].writer.Some? && log[i].record.status != Running
    ensures var e := After(Start(record, lease, clock), events).log[i];
            m < |events| && events[m].Finish? && events[m].worker == e.writer.value && Reported(e, events[m].ending)
  {
    AlwaysExplained(record, lease, clock, events);
    m := ExplainedReports(events, After(Start(record, lease, clock), events).log, lease, i);
  }

  /** Undisturbed, an execution that ends appends exactly what its ending says, at that time, or nothing. */
  lemma UndisturbedConclusion(s: State, w: nat, ending: Ending)
    requires Sound(s) && PhaseOf(s, w).Executing? && Stored(s) == PhaseOf(s, w).claim
    ensures var s' := Next(Next(s, Finish(w, ending)), Conclude(w));
            && PhaseOf(s', w) == Idle
            && if exists final :: Concludes(ending, Stored(s), final) then
                 && |s'.log| == |s.log| + 1 && s.log < s'.log && s'.log[|s.log|].writer == Some(w)
                 && Concludes(ending, Stored(s), s'.log[|s.log|].record) && s'.log[|s.log|].record.updatedAt == s.clock
               else s'.log == s.log
  {
    ConcludesExactly(Stored(s), ending, s.clock);
    if ConclusionOf(Stored(s), ending, s.clock).Some? {
      assert Concludes(ending, Stored(s), ConclusionOf(Stored(s), ending, s.clock).value);
    }
  }

  /** Undisturbed, a task claims the current record exactly when its request is the stored one, if it brings one, and the
      record is queued or its claim has run out; the claim is a new running version as of now. */
  lemma UndisturbedTask(s: State, w: nat, request: Option<string>)
    requires s.log != [] && PhaseOf(s, w).Idle?
    ensures var s' := Next(Next(Next(s, Fetch(w)), Judge(w, request)), Claim(w));
            var current := Stored(s);
            if (request.None? || request.value == current.request)
               && (current.status == Queued || (current.status == Running && current.updatedAt + s.lease <= s.clock))
            then
              && |s'.log| == |s.log| + 1 && s.log < s'.log && s'.log[|s.log|].writer == Some(w)
              && ClaimsRecord(current, s'.log[|s.log|].record, s.lease) && s'.log[|s.log|].record.updatedAt == s.clock
              && PhaseOf(s', w) == Executing(s'.log[|s.log|].record)
            else s'.log == s.log && PhaseOf(s', w) == Idle
  {
  }

  /** Another writer's record is stored exactly if it is the next version of the stored one, created when that was. */
  lemma OthersWriteExactly(s: State, replacement: Record)
    requires s.log != []
    ensures Next(s, Outside(replacement)) ==
            if replacement.version == Stored(s).version + 1 && replacement.createdAt == Stored(s).createdAt
            then s.(log := s.log + [Entry(replacement, None)]) else s
  {
  }
}
