/**
 Celery workers claiming one run. A task may be delivered any number of times,
 to any number of workers, each of which may stop between any two awaits; the
 versioned record is the only arbiter. Every await is a separate event.
 */
module ClaimProtocol {
  import opened Common
  import opened RunRepository

  type Positive = n: int | n > 0 witness 1

  datatype LoopStatus =
    | LoopCreated | LoopPlanning | LoopExecuting | LoopVerifying | LoopWaitingApproval
    | LoopPaused | LoopCompleted | LoopBlocked | LoopCancelled | LoopTimedOut | LoopFailed

  /** The statuses a finished execution may report. */
  function RunStatusOf(status: LoopStatus): Option<RunStatus> {
    match status
    case LoopPaused => Some(Paused)
    case LoopBlocked => Some(Blocked)
    case LoopCompleted => Some(Completed)
    case LoopFailed => Some(Failed)
    case LoopCancelled => Some(CancelledRun)
    case LoopTimedOut => Some(TimedOut)
    case _ => None
  }

  /** Where a worker's task is. `Idle` is also where it ends up when it returns, raises or dies. */
  datatype Phase =
    | Idle
    | Fetched(seen: Record)
    | Claiming(seen: Record, claim: Record)
    | Executing(claim: Record)
    | Concluding(claim: Record, final: Record)

  datatype Entry = Entry(record: Record, writer: Option<nat>)

  /** `log` is every record ever stored for the run, the last one being current. */
  datatype State = State(clock: Time, lease: Positive, log: seq<Entry>, phases: map<nat, Phase>)

  datatype Ending =
    | Returned(sameRun: bool, status: LoopStatus, result: string, error: string)
    | Threw(errorType: string)
    | Died

  datatype Event =
    | Fetch(worker: nat)
    | Judge(worker: nat, request: Option<string>)
    | Claim(worker: nat)
    | Finish(worker: nat, ending: Ending)
    | Conclude(worker: nat)
    | Crash(worker: nat)
    | Tick(elapsed: nat)
    | Outside(replacement: Record)

  function PhaseOf(s: State, w: nat): Phase {
    if w in s.phases then s.phases[w] else Idle
  }

  function Stored(s: State): Record
    requires s.log != []
  {
    s.log[|s.log| - 1].record
  }

  function Moved(s: State, w: nat, p: Phase): State {
    s.(phases := s.phases[w := p])
  }

  /** Whether a fetched record may be claimed now. */
  predicate Claimable(record: Record, lease: Positive, now: Time) {
    record.status.Queued? || (record.status.Running? && record.updatedAt + lease <= now)
  }

  function ClaimOf(record: Record, now: Time): Record {
    record.(status := Running, version := record.version + 1, updatedAt := now, error := "")
  }

  function FailureOf(claim: Record, errorType: string, now: Time): Record {
    claim.(status := Failed, version := claim.version + 1, updatedAt := now, error := errorType + ": worker execution failed")
  }

  /** Compare-and-set against the current record; the writer signs what it stores. */
  function Attempt(s: State, expected: int, replacement: Record, writer: Option<nat>): (State, bool)
    requires s.log != []
  {
    if CompareAndSwap(Some(Stored(s)), expected, replacement).1 == Swapped
    then (s.(log := s.log + [Entry(replacement, writer)]), true)
    else (s, false)
  }

  /** What a task writes when its execution ends, if anything. */
  function ConclusionOf(claim: Record, ending: Ending, now: Time): Option<Record> {
    match ending
    case Died => None
    case Threw(errorType) => Some(FailureOf(claim, errorType, now))
    case Returned(sameRun, status, result, error) =>
      if !sameRun then Some(FailureOf(claim, "CeleryWorkerError", now))
      else if RunStatusOf(status).None? then None
      else Some(claim.(status := RunStatusOf(status).value, version := claim.version + 1, updatedAt := now,
                       result := result, error := error))
  }

  /** One event; an event that does not fit the worker's phase changes nothing. */
  function Next(s: State, e: Event): (s': State)
    requires s.log != []
    ensures s'.log != []
  {
    match e
    case Fetch(w) => if PhaseOf(s, w).Idle? then Moved(s, w, Fetched(Stored(s))) else s
    case Judge(w, request) =>
      if !PhaseOf(s, w).Fetched? then s else
        var seen := PhaseOf(s, w).seen;
        if request.Some? && request.value != seen.request then Moved(s, w, Idle)
        else if Claimable(seen, s.lease, s.clock) then Moved(s, w, Claiming(seen, ClaimOf(seen, s.clock)))
        else Moved(s, w, Idle)
    case Claim(w) =>
      if !PhaseOf(s, w).Claiming? then s else
        var p := PhaseOf(s, w);
        var (s', won) := Attempt(s, p.seen.version, p.claim, Some(w));
        Moved(s', w, if won then Executing(p.claim) else Idle)
    case Finish(w, ending) =>
      if !PhaseOf(s, w).Executing? then s else
        var claim := PhaseOf(s, w).claim;
        var final := ConclusionOf(claim, ending, s.clock);
        Moved(s, w, if final.Some? then Concluding(claim, final.value) else Idle)
    case Conclude(w) =>
      if !PhaseOf(s, w).Concluding? then s else
        var p := PhaseOf(s, w);
        Moved(Attempt(s, p.claim.version, p.final, Some(w)).0, w, Idle)
    case Crash(w) => Moved(s, w, Idle)
    case Tick(elapsed) => s.(clock := s.clock + elapsed)
    case Outside(replacement) =>
      if replacement.version != Stored(s).version + 1 then s
      else Attempt(s, Stored(s).version, replacement, None).0
  }

  function Start(record: Record, lease: Positive, clock: Time): State {
    State(clock, lease, [Entry(record, None)], map[])
  }

  function After(initial: State, events: seq<Event>): (s: State)
    requires initial.log != []
    ensures s.log != []
  {
    if events == [] then initial else Next(After(initial, events[..|events| - 1]), events[|events| - 1])
  }

  // Safety under any interleaving.

  /** Version v of the record is the entry at place v - v0: no version is ever stored twice. */
  ghost predicate Numbered(log: seq<Entry>) {
    log != [] && forall i :: 0 <= i < |log| ==> log[i].record.version == log[0].record.version + i
  }

  /** `record` was stored, signed by `writer` if one is given. */
  ghost predicate Logged(log: seq<Entry>, record: Record, writer: Option<nat>) {
    exists i :: 0 <= i < |log| && log[i].record == record && (writer.Some? ==> log[i].writer == writer)
  }

  ghost predicate PhaseSound(s: State, w: nat, p: Phase) {
    match p
    case Idle => true
    case Fetched(seen) => Logged(s.log, seen, None)
    case Claiming(seen, claim) =>
      && Logged(s.log, seen, None)
      && Claimable(seen, s.lease, claim.updatedAt)
      && claim == ClaimOf(seen, claim.updatedAt)
      && claim.updatedAt <= s.clock
    case Executing(claim) => Logged(s.log, claim, Some(w)) && claim.status.Running?
    case Concluding(claim, final) =>
      Logged(s.log, claim, Some(w)) && claim.status.Running? && final.version == claim.version + 1 && final.status.Settled()
  }

  ghost predicate Sound(s: State) {
    Numbered(s.log) && forall w :: PhaseSound(s, w, PhaseOf(s, w))
  }

  lemma LoggedGrows(log: seq<Entry>, e: Entry, record: Record, writer: Option<nat>)
    requires Logged(log, record, writer)
    ensures Logged(log + [e], record, writer)
  {
    var i :| 0 <= i < |log| && log[i].record == record && (writer.Some? ==> log[i].writer == writer);
    assert (log + [e])[i] == log[i];
  }

  /** A version identifies its record and its writer. */
  lemma VersionIdentifies(log: seq<Entry>, a: Record, b: Record, x: Option<nat>, y: Option<nat>)
    requires Numbered(log) && Logged(log, a, x) && Logged(log, b, y) && a.version == b.version
    ensures a == b
    ensures x.Some? && y.Some? ==> x == y
  {
  }

  /** A worker replaces a record only if it is still the one the worker holds. */
  lemma SwapReplacesHeld(s: State, held: Record, writer: Option<nat>, replacement: Record)
    requires Numbered(s.log) && Logged(s.log, held, writer)
    ensures Attempt(s, held.version, replacement, None).1 ==> Stored(s) == held
  {
    if Stored(s).version == held.version {
      assert Logged(s.log, Stored(s), None) by { assert s.log[|s.log| - 1].record == Stored(s); }
      VersionIdentifies(s.log, Stored(s), held, None, writer);
    }
  }

  lemma GrownSound(s: State, e: Entry, w: nat, p: Phase)
    requires PhaseSound(s, w, p)
    ensures PhaseSound(s.(log := s.log + [e]), w, p)
  {
    match p
    case Idle =>
    case Fetched(seen) => LoggedGrows(s.log, e, seen, None);
    case Claiming(seen, _) => LoggedGrows(s.log, e, seen, None);
    case Executing(claim) => LoggedGrows(s.log, e, claim, Some(w));
    case Concluding(claim, _) => LoggedGrows(s.log, e, claim, Some(w));
  }

  lemma AttemptSound(s: State, expected: int, replacement: Record, writer: Option<nat>)
    requires Sound(s) && replacement.version == expected + 1
    ensures Sound(Attempt(s, expected, replacement, writer).0)
    ensures Attempt(s, expected, replacement, writer).1 ==>
              Logged(Attempt(s, expected, replacement, writer).0.log, replacement, writer)
  {
    var (s', won) := Attempt(s, expected, replacement, writer);
    if won {
      assert s'.log[|s.log|] == Entry(replacement, writer);
      forall w ensures PhaseSound(s', w, PhaseOf(s', w)) {
        GrownSound(s, Entry(replacement, writer), w, PhaseOf(s, w));
      }
    }
  }

  lemma MovedSound(s: State, w: nat, p: Phase)
    requires Sound(s) && PhaseSound(s, w, p)
    ensures Sound(Moved(s, w, p))
  {
    forall v ensures PhaseSound(Moved(s, w, p), v, PhaseOf(Moved(s, w, p), v)) {
      assert PhaseSound(s, v, PhaseOf(s, v));
    }
  }

  lemma TickSound(s: State, elapsed: nat)
    requires Sound(s)
    ensures Sound(s.(clock := s.clock + elapsed))
  {
    var s' := s.(clock := s.clock + elapsed);
    forall w ensures PhaseSound(s', w, PhaseOf(s', w)) {
      assert PhaseSound(s, w, PhaseOf(s, w));
    }
  }

  lemma NextSound(s: State, e: Event)
    requires Sound(s)
    ensures Sound(Next(s, e))
  {
    match e
    case Fetch(w) =>
      assert s.log[|s.log| - 1].record == Stored(s);
      MovedSound(s, w, Fetched(Stored(s)));
    case Judge(w, _) =>
      var p := PhaseOf(s, w);
      assert PhaseSound(s, w, p);
      MovedSound(s, w, Idle);
      if p.Fetched? && Claimable(p.seen, s.lease, s.clock) {
        MovedSound(s, w, Claiming(p.seen, ClaimOf(p.seen, s.clock)));
      }
    case Claim(w) =>
      var p := PhaseOf(s, w);
      assert PhaseSound(s, w, p);
      if p.Claiming? {
        AttemptSound(s, p.seen.version, p.claim, Some(w));
        var (s', won) := Attempt(s, p.seen.version, p.claim, Some(w));
        MovedSound(s', w, if won then Executing(p.claim) else Idle);
      }
    case Finish(w, ending) =>
      var p := PhaseOf(s, w);
      assert PhaseSound(s, w, p);
      if p.Executing? {
        var final := ConclusionOf(p.claim, ending, s.clock);
        MovedSound(s, w, if final.Some? then Concluding(p.claim, final.value) else Idle);
      }
    case Conclude(w) =>
      var p := PhaseOf(s, w);
      assert PhaseSound(s, w, p);
      if p.Concluding? {
        AttemptSound(s, p.claim.version, p.final, Some(w));
        MovedSound(Attempt(s, p.claim.version, p.final, Some(w)).0, w, Idle);
      }
    case Crash(w) => MovedSound(s, w, Idle);
    case Tick(elapsed) => TickSound(s, elapsed);
    case Outside(replacement) =>
      if replacement.version == Stored(s).version + 1 { AttemptSound(s, Stored(s).version, replacement, None); }
  }

  lemma {:induction false} AlwaysSound(record: Record, lease: Positive, clock: Time, events: seq<Event>)
    ensures Sound(After(Start(record, lease, clock), events))
  {
    if events != [] {
      AlwaysSound(record, lease, clock, events[..|events| - 1]);
      NextSound(After(Start(record, lease, clock), events[..|events| - 1]), events[|events| - 1]);
    }
  }

  predicate Holding(p: Phase) {
    p.Executing? || p.Concluding?
  }

  /** A claimed version has one owner. */
  lemma OneOwnerPerClaim(s: State, w: nat, v: nat)
    requires Sound(s) && Holding(PhaseOf(s, w)) && Holding(PhaseOf(s, v))
    requires PhaseOf(s, w).claim.version == PhaseOf(s, v).claim.version
    ensures w == v
  {
    assert PhaseSound(s, w, PhaseOf(s, w)) && PhaseSound(s, v, PhaseOf(s, v));
    VersionIdentifies(s.log, PhaseOf(s, w).claim, PhaseOf(s, v).claim, Some(w), Some(v));
  }

  /** Step `i` of the history, if a worker made it: a claim of a queued record or of a stale claim, or the one
      conclusion of that same worker's claim just before it. */
  ghost predicate Lawful(log: seq<Entry>, lease: Positive, i: nat)
    requires 0 < i < |log|
  {
    log[i].writer.Some? ==>
      || (log[i].record.status.Running? && Claimable(log[i - 1].record, lease, log[i].record.updatedAt))
      || (log[i].record.status.Settled() && log[i - 1].record.status.Running? && log[i - 1].writer == log[i].writer)
  }

  ghost predicate LawfulHistory(s: State) {
    forall i :: 0 < i < |s.log| ==> Lawful(s.log, s.lease, i)
  }

  lemma GrownLawful(s: State, e: Entry)
    requires LawfulHistory(s) && s.log != []
    requires Lawful(s.log + [e], s.lease, |s.log|)
    ensures LawfulHistory(s.(log := s.log + [e]))
  {
    forall i | 0 < i < |s.log + [e]| ensures Lawful(s.log + [e], s.lease, i) {
      if i < |s.log| { assert Lawful(s.log, s.lease, i); }
    }
  }

  lemma NextLawful(s: State, e: Event)
    requires Sound(s) && LawfulHistory(s)
    ensures LawfulHistory(Next(s, e))
  {
    match e {
      case Claim(w) =>
        var p := PhaseOf(s, w);
        assert PhaseSound(s, w, p);
        if p.Claiming? && Attempt(s, p.seen.version, p.claim, Some(w)).1 {
          SwapReplacesHeld(s, p.seen, None, p.claim);
          GrownLawful(s, Entry(p.claim, Some(w)));
        }
      case Conclude(w) =>
        var p := PhaseOf(s, w);
        assert PhaseSound(s, w, p);
        if p.Concluding? && Attempt(s, p.claim.version, p.final, Some(w)).1 {
          ConcludesOwnClaim(s, w);
          GrownLawful(s, Entry(p.final, Some(w)));
        }
      case Outside(replacement) =>
        if Next(s, e).log != s.log { GrownLawful(s, Entry(replacement, None)); }
      case _ =>
    }
  }

  lemma ConcludesOwnClaim(s: State, w: nat)
    requires Sound(s) && PhaseOf(s, w).Concluding?
    requires Stored(s).version == PhaseOf(s, w).claim.version
    ensures s.log[|s.log| - 1] == Entry(PhaseOf(s, w).claim, Some(w))
  {
    assert PhaseSound(s, w, PhaseOf(s, w));
  }

  /** The whole history of a run is lawful under any interleaving, redelivery and crash. */
  lemma {:induction false} AlwaysLawful(record: Record, lease: Positive, clock: Time, events: seq<Event>)
    ensures LawfulHistory(After(Start(record, lease, clock), events))
  {
    if events != [] {
      var before := events[..|events| - 1];
      AlwaysSound(record, lease, clock, before);
      AlwaysLawful(record, lease, clock, before);
      NextLawful(After(Start(record, lease, clock), before), events[|events| - 1]);
    }
  }

  /** No worker event replaces a settled record. */
  lemma SettledStays(s: State, e: Event)
    requires Sound(s) && Stored(s).status.Settled() && !e.Outside?
    ensures Next(s, e).log == s.log
  {
    match e {
      case Claim(w) => if Next(s, e).log != s.log { WinsClaim(s, w); }
      case Conclude(w) => if Next(s, e).log != s.log { WinsConclusion(s, w); }
      case _ =>
    }
  }

  lemma SettledNext(s: State, e: Event)
    requires Sound(s) && Stored(s).status.Settled() && !e.Outside?
    ensures Sound(Next(s, e)) && Next(s, e).log == s.log
  {
    NextSound(s, e);
    SettledStays(s, e);
  }

  /** Once a run is settled, no workers, redeliveries or crashes ever add to its history again. */
  lemma {:induction false} SettledForGood(s: State, events: seq<Event>)
    requires Sound(s) && Stored(s).status.Settled() && forall e :: e in events ==> !e.Outside?
    ensures Sound(After(s, events)) && After(s, events).log == s.log
  {
    if events != [] {
      var n := |events| - 1;
      SettledForGood(s, events[..n]);
      SettledNext(After(s, events[..n]), events[n]);
    }
  }

  lemma NextGrows(s: State, e: Event)
    requires s.log != []
    ensures s.log <= Next(s, e).log
  {
  }

  lemma GrowsAt(initial: State, events: seq<Event>, n: nat)
    requires initial.log != [] && n < |events|
    ensures After(initial, events[..n]).log <= After(initial, events[..n + 1]).log
  {
    assert events[..n + 1][..n] == events[..n];
    NextGrows(After(initial, events[..n]), events[n]);
  }

  lemma {:induction false} GrowingList(logs: seq<seq<Entry>>, i: nat, m: nat)
    requires i <= m < |logs| && forall n :: 0 <= n < |logs| - 1 ==> logs[n] <= logs[n + 1]
    ensures logs[i] <= logs[m]
  {
    if i < m {
      GrowingList(logs, i, m - 1);
      PrefixTrans(logs[i], logs[m - 1], logs[m - 1 + 1]);
    }
  }

  /** What has been stored stays in the history. */
  lemma HistoryGrows(initial: State, events: seq<Event>, i: nat)
    requires initial.log != [] && i <= |events|
    ensures After(initial, events[..i]).log <= After(initial, events).log
  {
    var logs := seq(|events| + 1, n requires 0 <= n <= |events| => After(initial, events[..n]).log);
    forall n | 0 <= n < |logs| - 1 ensures logs[n] <= logs[n + 1] { GrowsAt(initial, events, n); }
    GrowingList(logs, i, |events|);
    assert events[..|events|] == events;
  }

  lemma PrefixTrans(a: seq<Entry>, b: seq<Entry>, c: seq<Entry>)
    requires a <= b && b <= c
    ensures a <= c
  {
  }

  lemma LaterVersion(s: State, s': State)
    requires s.log != [] && Numbered(s'.log) && s.log <= s'.log
    ensures Stored(s').version >= Stored(s).version
  {
    assert Stored(s) == s'.log[|s.log| - 1].record;
  }

  lemma StaleConclusion(s: State, w: nat)
    requires s.log != [] && PhaseOf(s, w).Concluding? && Stored(s).version > PhaseOf(s, w).claim.version
    ensures Next(s, Conclude(w)).log == s.log
  {
  }

  /** Once a later version is stored, a worker's claim is lost for good: whenever it still holds it, concluding
      leaves the history as it is. */
  lemma OvertakenForGood(initial: State, events: seq<Event>, i: nat, w: nat, claim: Record)
    requires initial.log != [] && i <= |events| && Sound(After(initial, events))
    requires Stored(After(initial, events[..i])).version > claim.version
    requires PhaseOf(After(initial, events), w).Concluding? && PhaseOf(After(initial, events), w).claim == claim
    ensures Next(After(initial, events), Conclude(w)).log == After(initial, events).log
  {
    HistoryGrows(initial, events, i);
    LaterVersion(After(initial, events[..i]), After(initial, events));
    StaleConclusion(After(initial, events), w);
  }

  // Timed exclusion.

  /** Every execution under way is younger than the claim lease. */
  ghost predicate OnTime(s: State) {
    forall w :: PhaseOf(s, w).Executing? ==> s.clock < PhaseOf(s, w).claim.updatedAt + s.lease
  }

  /** Others, such as the service that queues and resumes runs, leave a running record alone. */
  ghost predicate Respectful(s: State, e: Event)
    requires s.log != []
  {
    e.Outside? ==> !Stored(s).status.Running?
  }

  /** Whoever executes holds the current record. */
  ghost predicate Exclusive(s: State)
    requires s.log != []
  {
    forall w :: PhaseOf(s, w).Executing? ==> Stored(s) == PhaseOf(s, w).claim
  }

  /** A claim that stores something found the current record claimable. */
  lemma WinsClaim(s: State, w: nat)
    requires Sound(s) && Next(s, Claim(w)).log != s.log
    ensures Claimable(Stored(s), s.lease, s.clock)
  {
    var p := PhaseOf(s, w);
    assert PhaseSound(s, w, p);
    SwapReplacesHeld(s, p.seen, None, p.claim);
  }

  /** A conclusion that stores something replaced its own worker's claim. */
  lemma WinsConclusion(s: State, w: nat)
    requires Sound(s) && Next(s, Conclude(w)).log != s.log
    ensures PhaseOf(s, w).Concluding? && Stored(s) == PhaseOf(s, w).claim && Stored(s).status.Running?
  {
    var p := PhaseOf(s, w);
    assert PhaseSound(s, w, p);
    SwapReplacesHeld(s, p.claim, Some(w), p.final);
  }

  lemma NextExclusive(s: State, e: Event)
    requires Sound(s) && Exclusive(s) && OnTime(s) && Respectful(s, e)
    ensures Exclusive(Next(s, e))
  {
    var s' := Next(s, e);
    if e.Claim? && s'.log != s.log { WinsClaim(s, e.worker); }
    if e.Conclude? && s'.log != s.log { WinsConclusion(s, e.worker); }
    forall w | PhaseOf(s', w).Executing? ensures Stored(s') == PhaseOf(s', w).claim {
      assert PhaseSound(s, w, PhaseOf(s, w));
      if e.Conclude? && s'.log != s.log && PhaseOf(s, w).Executing? {
        OneOwnerPerClaim(s, w, e.worker);
      }
    }
  }

  lemma {:induction false} AlwaysExclusive(record: Record, lease: Positive, clock: Time, events: seq<Event>)
    requires forall n :: 0 <= n < |events| ==>
                           OnTime(After(Start(record, lease, clock), events[..n]))
                           && Respectful(After(Start(record, lease, clock), events[..n]), events[n])
    ensures Exclusive(After(Start(record, lease, clock), events))
  {
    if events != [] {
      var n := |events| - 1;
      assert forall i :: 0 <= i < n ==> events[..n][..i] == events[..i];
      AlwaysExclusive(record, lease, clock, events[..n]);
      AlwaysSound(record, lease, clock, events[..n]);
      NextExclusive(After(Start(record, lease, clock), events[..n]), events[n]);
    }
  }

  /** If every execution ends within the claim lease, no two workers ever execute the run at once. */
  lemma TimedExclusion(record: Record, lease: Positive, clock: Time, events: seq<Event>, w: nat, v: nat)
    requires forall n :: 0 <= n < |events| ==>
                           OnTime(After(Start(record, lease, clock), events[..n]))
                           && Respectful(After(Start(record, lease, clock), events[..n]), events[n])
    requires PhaseOf(After(Start(record, lease, clock), events), w).Executing?
    requires PhaseOf(After(Start(record, lease, clock), events), v).Executing?
    ensures w == v
  {
    AlwaysExclusive(record, lease, clock, events);
    AlwaysSound(record, lease, clock, events);
    OneOwnerPerClaim(After(Start(record, lease, clock), events), w, v);
  }

  lemma AfterNext(initial: State, events: seq<Event>, e: Event)
    requires initial.log != []
    ensures After(initial, events + [e]) == Next(After(initial, events), e)
  {
    assert (events + [e])[..|events|] == events;
  }

  lemma AfterThree(initial: State, events: seq<Event>, a: Event, b: Event, c: Event)
    requires initial.log != []
    ensures After(initial, events + [a, b, c]) == Next(Next(Next(After(initial, events), a), b), c)
  {
    var one, two := events + [a], events + [a] + [b];
    AfterNext(initial, events, a);
    AfterNext(initial, one, b);
    AfterNext(initial, two, c);
    assert two + [c] == events + [a, b, c];
  }

  /** Undisturbed, a task claims the current record exactly when it is claimable. */
  lemma UndisturbedClaim(s: State, w: nat)
    requires s.log != [] && PhaseOf(s, w).Idle?
    ensures var s' := Next(Next(Next(s, Fetch(w)), Judge(w, None)), Claim(w));
            && s'.clock == s.clock && s'.lease == s.lease
            && (forall v :: v != w ==> PhaseOf(s', v) == PhaseOf(s, v))
            && if Claimable(Stored(s), s.lease, s.clock)
               then PhaseOf(s', w) == Executing(ClaimOf(Stored(s), s.clock))
                    && s'.log == s.log + [Entry(ClaimOf(Stored(s), s.clock), Some(w))]
               else PhaseOf(s', w) == Idle && s'.log == s.log
  {
  }

  lemma ClaimsAfter(initial: State, events: seq<Event>, w: nat) returns (more: seq<Event>)
    requires initial.log != [] && PhaseOf(After(initial, events), w).Idle?
    requires var s := After(initial, events); Claimable(Stored(s), s.lease, s.clock)
    ensures var s, s' := After(initial, events), After(initial, more);
            && s'.clock == s.clock && s'.lease == s.lease
            && (forall v :: v != w ==> PhaseOf(s', v) == PhaseOf(s, v))
            && PhaseOf(s', w) == Executing(ClaimOf(Stored(s), s.clock))
            && Stored(s') == ClaimOf(Stored(s), s.clock)
  {
    AfterThree(initial, events, Fetch(w), Judge(w, None), Claim(w));
    UndisturbedClaim(After(initial, events), w);
    more := events + [Fetch(w), Judge(w, None), Claim(w)];
  }

  /** The bound is needed and is tight: an execution that lasts exactly the claim lease can be overlapped. */
  lemma LateExecutionOverlaps(record: Record, lease: Positive) returns (events: seq<Event>)
    requires record.status.Queued?
    ensures var s := After(Start(record, lease, 0), events);
            PhaseOf(s, 0).Executing? && PhaseOf(s, 1).Executing?
            && s.clock == PhaseOf(s, 0).claim.updatedAt + lease
  {
    var s0 := Start(record, lease, 0);
    var first := ClaimsAfter(s0, [], 0);
    var s1 := After(s0, first);
    assert PhaseOf(s1, 1) == PhaseOf(After(s0, []), 1) == Idle;
    AfterNext(s0, first, Tick(lease));
    var s2 := After(s0, first + [Tick(lease)]);
    assert s2 == s1.(clock := s1.clock + lease);
    assert Claimable(Stored(s2), s2.lease, s2.clock);
    events := ClaimsAfter(s0, first + [Tick(lease)], 1);
  }
}
