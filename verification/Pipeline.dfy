/**
 The batching pipeline: any number of producers, one worker, and a shutdown,
 interleaved at every queue operation and every read of the stop flag. The
 state lock keeps producers out while `shutdown` closes the pipeline.
 */
module Pipeline {
  import SpanExport

  /** A span or a score; the pipeline never looks inside. */
  type Payload = SpanExport.Item

  datatype Entry = Record(value: Payload) | Sentinel

  /** Where the worker is. */
  datatype Place =
    | Getting
    | Filling
    | Deciding(sawSentinel: bool)
    | StopCheck
    | EmptyCheck
    | Leaving
    | Exited
    | Flushing(next: Place)

  datatype Shutdown = Open | Closing | StopSet | Done

  /** A batch as it was handed to the exporter, how many attempts it took, and whether the last one succeeded. */
  datatype Handed = Handed(batch: seq<Payload>, attempts: nat, exported: bool)

  /** `accepted`, `offered` and `late` only record what happened. */
  datatype State = State(
    flushAt: nat, capacity: nat,
    queue: seq<Entry>, unfinished: int, dropped: nat,
    shutdown: Shutdown,
    place: Place, batch: seq<Payload>,
    handed: seq<Handed>, accepted: seq<Payload>, offered: nat, late: bool)
  {
    predicate StopIsSet() { shutdown.StopSet? || shutdown.Done? }
  }

  datatype Event =
    | Enqueue(item: Payload)
    | Close
    | SetStop
    | PutSentinel
    | Work(failures: nat)

  function Start(flushAt: nat, capacity: nat): State {
    State(flushAt, capacity, [], 0, 0, Open, Getting, [], [], [], 0, false)
  }

  /** The state lock is free: nobody is inside `shutdown`. */
  predicate LockFree(s: State) {
    s.shutdown.Open? || s.shutdown.Done?
  }

  function Offered(s: State, item: Payload): State {
    var s1 := s.(offered := s.offered + 1);
    if !s.shutdown.Open? || |s.queue| >= s.capacity then s1.(dropped := s.dropped + 1)
    else s1.(queue := s.queue + [Record(item)], unfinished := s.unfinished + 1, accepted := s.accepted + [item])
  }

  /** The worker has seen the queue empty and will not take anything again. */
  predicate Departed(p: Place) {
    p.Leaving? || p.Exited? || (p.Flushing? && p.next.Exited?)
  }

  function SentinelPut(s: State): State {
    if |s.queue| >= s.capacity then s.(shutdown := Done)
    else s.(queue := s.queue + [Sentinel], unfinished := s.unfinished + 1, shutdown := Done, late := Departed(s.place))
  }

  /** The attempts made for a batch, if the exporter raises on the first `failures` of them, and whether one succeeded. */
  function Retried(failures: nat): (nat, bool) {
    (if failures == 0 then 1 else 2, failures <= 1)
  }

  /** `_export`. */
  method Retry(failures: nat) returns (attempts: nat, exported: bool)
    ensures (attempts, exported) == Retried(failures)
  {
    attempts, exported := 0, false;
    while attempts < 2 && !exported
      invariant attempts <= 2 && (exported <==> attempts == failures + 1)
      invariant !exported ==> attempts <= failures
    {
      exported := attempts >= failures;
      attempts := attempts + 1;
    }
  }

  /** Exported or given up, every item of the batch is done. */
  function Flushed(s: State, next: Place, failures: nat): State {
    var (attempts, exported) := Retried(failures);
    s.(handed := s.handed + [Handed(s.batch, attempts, exported)],
       unfinished := s.unfinished - |s.batch|, batch := [], place := next)
  }

  function FlushFirst(s: State, next: Place): State {
    s.(place := if s.batch == [] then next else Flushing(next))
  }

  /** One step of the worker loop. A `get` on an empty queue times out. */
  function Worked(s: State, failures: nat): State {
    match s.place
    case Getting =>
      if s.queue == [] then FlushFirst(s, StopCheck)
      else
        var taken := s.(queue := s.queue[1..]);
        if s.queue[0].Sentinel? then FlushFirst(taken.(unfinished := s.unfinished - 1), StopCheck)
        else taken.(batch := s.batch + [s.queue[0].value], place := Filling)
    case Filling =>
      if |s.batch| >= s.flushAt || s.queue == [] then s.(place := Deciding(false))
      else
        var taken := s.(queue := s.queue[1..]);
        if s.queue[0].Sentinel? then taken.(unfinished := s.unfinished - 1, place := Deciding(true))
        else taken.(batch := s.batch + [s.queue[0].value])
    case Deciding(saw) =>
      s.(place := if |s.batch| >= s.flushAt || saw || s.StopIsSet() then Flushing(StopCheck) else StopCheck)
    case StopCheck => s.(place := if s.StopIsSet() then EmptyCheck else Getting)
    case EmptyCheck => s.(place := if s.queue == [] then Leaving else Getting)
    case Leaving => FlushFirst(s, Exited)
    case Flushing(next) => Flushed(s, next, failures)
    case Exited => s
  }

  function Next(s: State, e: Event): State {
    match e
    case Enqueue(item) => if LockFree(s) then Offered(s, item) else s
    case Close => if s.shutdown.Open? then s.(shutdown := Closing) else s
    case SetStop => if s.shutdown.Closing? then s.(shutdown := StopSet) else s
    case PutSentinel => if s.shutdown.StopSet? then SentinelPut(s) else s
    case Work(failures) => Worked(s, failures)
  }

  function After(flushAt: nat, capacity: nat, events: seq<Event>): State {
    if events == [] then Start(flushAt, capacity)
    else Next(After(flushAt, capacity, events[..|events| - 1]), events[|events| - 1])
  }

  // Conservation.

  function HandedItems(handed: seq<Handed>): seq<Payload> {
    if handed == [] then [] else HandedItems(handed[..|handed| - 1]) + handed[|handed| - 1].batch
  }

  function QueuedItems(queue: seq<Entry>): seq<Payload> {
    if queue == [] then []
    else (if queue[0].Record? then [queue[0].value] else []) + QueuedItems(queue[1..])
  }

  lemma {:induction false} QueuedAppend(queue: seq<Entry>, e: Entry)
    ensures QueuedItems(queue + [e]) == QueuedItems(queue) + if e.Record? then [e.value] else []
  {
    var longer := queue + [e];
    if queue == [] {
      assert longer[1..] == [];
    } else {
      assert longer[0] == queue[0] && longer[1..] == queue[1..] + [e];
      QueuedAppend(queue[1..], e);
    }
  }

  lemma HandedAppend(handed: seq<Handed>, h: Handed)
    ensures HandedItems(handed + [h]) == HandedItems(handed) + h.batch
  {
    assert (handed + [h])[..|handed|] == handed;
  }

  /** Nothing accepted is lost, duplicated or reordered, and every offered item is accepted or counted as dropped. */
  ghost predicate Conserved(s: State) {
    && s.accepted == HandedItems(s.handed) + s.batch + QueuedItems(s.queue)
    && s.offered == |s.accepted| + s.dropped
    && s.unfinished == |s.queue| + |s.batch|
  }

  /** The places the worker may flush on its way to. */
  ghost predicate PlaceSound(s: State) {
    && (s.place.Flushing? ==> s.batch != [] && (s.place.next.StopCheck? || s.place.next.Exited?))
    && (s.place.Filling? || s.place.Deciding? ==> s.batch != [])
    && (s.place.Getting? ==> |s.batch| < s.flushAt)
    && (s.place.StopCheck? || s.place.EmptyCheck? ==> |s.batch| < s.flushAt)
    && |s.batch| <= s.flushAt
    && (s.place.EmptyCheck? ==> s.StopIsSet())
    && (Departed(s.place) ==> s.StopIsSet() && QueuedItems(s.queue) == [])
    && (s.place.Exited? ==> s.batch == [])
  }

  ghost predicate HandedSound(s: State) {
    forall i :: 0 <= i < |s.handed| ==>
                  && 1 <= |s.handed[i].batch| <= s.flushAt && 1 <= s.handed[i].attempts <= 2
                  && (!s.handed[i].exported ==> s.handed[i].attempts == 2)
  }

  ghost predicate Sound(s: State) {
    Conserved(s) && PlaceSound(s) && HandedSound(s)
  }

  lemma OfferedSound(s: State, item: Payload)
    requires Sound(s) && LockFree(s)
    ensures Sound(Offered(s, item))
  {
    QueuedAppend(s.queue, Record(item));
  }

  lemma SentinelConserved(s: State)
    requires Conserved(s)
    ensures Conserved(SentinelPut(s))
    ensures QueuedItems(SentinelPut(s).queue) == QueuedItems(s.queue)
  {
    QueuedAppend(s.queue, Sentinel);
  }

  lemma SentinelSound(s: State)
    requires Sound(s) && s.shutdown.StopSet?
    ensures Sound(SentinelPut(s))
  {
    SentinelConserved(s);
  }

  lemma FlushedConserved(s: State, next: Place, failures: nat)
    requires Conserved(s)
    ensures Conserved(Flushed(s, next, failures))
  {
    var (attempts, exported) := Retried(failures);
    HandedAppend(s.handed, Handed(s.batch, attempts, exported));
    var items := HandedItems(s.handed) + s.batch;
    assert HandedItems(Flushed(s, next, failures).handed) == items;
    assert items + [] == items;
  }

  lemma FlushedHanded(s: State, next: Place, failures: nat)
    requires HandedSound(s) && 1 <= |s.batch| <= s.flushAt
    ensures HandedSound(Flushed(s, next, failures))
  {
  }

  lemma FlushedSound(s: State, failures: nat)
    requires Sound(s) && s.flushAt >= 1 && s.place.Flushing?
    ensures Sound(Flushed(s, s.place.next, failures))
  {
    FlushedConserved(s, s.place.next, failures);
    FlushedHanded(s, s.place.next, failures);
  }

  /** Taking the head of the queue moves it from the queued items to the batch. */
  lemma TakenItems(s: State)
    requires Conserved(s) && s.queue != []
    ensures s.queue[0].Record? ==> s.accepted == HandedItems(s.handed) + (s.batch + [s.queue[0].value]) + QueuedItems(s.queue[1..])
    ensures s.queue[0].Sentinel? ==> s.accepted == HandedItems(s.handed) + s.batch + QueuedItems(s.queue[1..])
  {
    var h, b, q := HandedItems(s.handed), s.batch, QueuedItems(s.queue[1..]);
    if s.queue[0].Record? {
      var x := s.queue[0].value;
      assert QueuedItems(s.queue) == [x] + q;
      assert h + b + ([x] + q) == h + (b + [x]) + q;
    }
  }

  lemma GettingSound(s: State)
    requires Sound(s) && s.flushAt >= 1 && s.place.Getting?
    ensures Sound(Worked(s, 0))
  {
    if s.queue != [] { TakenItems(s); }
  }

  lemma FillingSound(s: State)
    requires Sound(s) && s.flushAt >= 1 && s.place.Filling?
    ensures Sound(Worked(s, 0))
  {
    if |s.batch| < s.flushAt && s.queue != [] { TakenItems(s); }
  }

  lemma CheckingSound(s: State)
    requires Sound(s) && s.flushAt >= 1 && (s.place.Deciding? || s.place.StopCheck? || s.place.EmptyCheck? || s.place.Leaving?)
    ensures Sound(Worked(s, 0))
  {
  }

  lemma WorkedSound(s: State, failures: nat)
    requires Sound(s) && s.flushAt >= 1
    ensures Sound(Worked(s, failures))
  {
    match s.place
    case Flushing(_) => FlushedSound(s, failures);
    case Getting => GettingSound(s);
    case Filling => FillingSound(s);
    case Exited =>
    case _ => CheckingSound(s);
  }

  lemma NextSound(s: State, e: Event)
    requires Sound(s) && s.flushAt >= 1
    ensures Sound(Next(s, e))
  {
    match e
    case Enqueue(item) => if LockFree(s) { OfferedSound(s, item); }
    case Close =>
    case SetStop =>
    case PutSentinel => if s.shutdown.StopSet? { SentinelSound(s); }
    case Work(failures) => WorkedSound(s, failures);
  }

  lemma NextKeepsBounds(s: State, e: Event)
    ensures Next(s, e).flushAt == s.flushAt && Next(s, e).capacity == s.capacity
  {
  }

  /** Whatever the interleaving: batches respect the threshold, and nothing is lost, repeated or reordered. */
  lemma {:induction false} AlwaysSound(flushAt: nat, capacity: nat, events: seq<Event>)
    requires flushAt >= 1
    ensures Sound(After(flushAt, capacity, events)) && After(flushAt, capacity, events).flushAt == flushAt
  {
    if events != [] {
      var n := |events| - 1;
      AlwaysSound(flushAt, capacity, events[..n]);
      NextSound(After(flushAt, capacity, events[..n]), events[n]);
      NextKeepsBounds(After(flushAt, capacity, events[..n]), events[n]);
    }
  }

  /** When the worker has exited, everything accepted has been handed to the exporter, in order. */
  lemma ExitedMeansHandedOver(flushAt: nat, capacity: nat, events: seq<Event>)
    requires flushAt >= 1 && After(flushAt, capacity, events).place.Exited?
    ensures var s := After(flushAt, capacity, events);
            s.accepted == HandedItems(s.handed) && s.offered == |HandedItems(s.handed)| + s.dropped
  {
    AlwaysSound(flushAt, capacity, events);
  }

  // `flush` waits until nothing is unfinished.

  /** Once the worker has departed, only a sentinel put too late is left behind. */
  ghost predicate Stranded(s: State) {
    && (s.late ==> Departed(s.place) && s.shutdown.Done?)
    && (Departed(s.place) ==> s.StopIsSet() && s.queue == if s.late then [Sentinel] else [])
  }

  lemma {:induction false} AlwaysStranded(flushAt: nat, capacity: nat, events: seq<Event>)
    requires flushAt >= 1 && capacity >= 1
    ensures Stranded(After(flushAt, capacity, events)) && After(flushAt, capacity, events).capacity == capacity
  {
    if events != [] {
      var before := events[..|events| - 1];
      AlwaysStranded(flushAt, capacity, before);
      AlwaysSound(flushAt, capacity, before);
      StepStranded(After(flushAt, capacity, before), events[|events| - 1]);
    }
  }

  lemma StepStranded(s: State, e: Event)
    requires Sound(s) && Stranded(s) && s.capacity >= 1
    ensures Stranded(Next(s, e)) && Next(s, e).capacity == s.capacity
  {
  }

  // After `shutdown` the worker comes to an end.

  /** How far the worker is from its exit, in steps, once the pipeline is shut down. */
  function Rank(s: State): nat {
    match s.place
    case Exited => 0
    case Leaving => 2
    case Flushing(next) => if next.Exited? then 1 else 10 * |s.queue| + 5
    case Getting => if s.queue == [] then 6 else 10 * |s.queue| - 2
    case Filling => 10 * |s.queue| + 7
    case Deciding(_) => 10 * |s.queue| + 6
    case StopCheck => 10 * |s.queue| + 4
    case EmptyCheck => 10 * |s.queue| + 3
  }

  lemma WorkLowersRank(s: State, failures: nat)
    requires PlaceSound(s) && s.shutdown.Done?
    ensures if s.place.Exited? then Worked(s, failures) == s else Rank(Worked(s, failures)) < Rank(s)
  {
  }

  /** Nothing that happens after `shutdown` lets anything in, or takes the worker further from its exit. */
  lemma DoneNext(s: State, e: Event)
    requires PlaceSound(s) && s.shutdown.Done?
    ensures var s' := Next(s, e);
            && s'.shutdown.Done? && s'.late == s.late && s'.accepted == s.accepted
            && Rank(s') <= Rank(s) && (e.Work? && Rank(s) > 0 ==> Rank(s') < Rank(s))
  {
    if e.Work? { WorkLowersRank(s, e.failures); }
  }

  function Works(events: seq<Event>): nat {
    if events == [] then 0 else (if events[0].Work? then 1 else 0) + Works(events[1..])
  }

  /** Once the pipeline is shut down the worker exits after finitely many of its own steps, whatever happens in between. */
  lemma {:induction false} WorkerExits(flushAt: nat, capacity: nat, events: seq<Event>, more: seq<Event>)
    requires flushAt >= 1 && After(flushAt, capacity, events).shutdown.Done?
    requires Works(more) >= Rank(After(flushAt, capacity, events))
    ensures var s, s' := After(flushAt, capacity, events), After(flushAt, capacity, events + more);
            s'.place.Exited? && s'.late == s.late && s'.accepted == s.accepted
    decreases |more|
  {
    if more == [] {
      assert events + more == events;
    } else {
      AlwaysSound(flushAt, capacity, events);
      AfterNext(flushAt, capacity, events, more[0]);
      DoneNext(After(flushAt, capacity, events), more[0]);
      WorkerExits(flushAt, capacity, events + [more[0]], more[1..]);
      assert events + [more[0]] + more[1..] == events + more;
    }
  }

  /** So after `shutdown` everything that was accepted is handed to the exporter, in order. */
  lemma ShutdownHandsOver(flushAt: nat, capacity: nat, events: seq<Event>, more: seq<Event>)
    requires flushAt >= 1 && After(flushAt, capacity, events).shutdown.Done?
    requires Works(more) >= Rank(After(flushAt, capacity, events))
    ensures var s := After(flushAt, capacity, events + more);
            && After(flushAt, capacity, events).accepted == HandedItems(s.handed)
            && s.offered == |HandedItems(s.handed)| + s.dropped
  {
    WorkerExits(flushAt, capacity, events, more);
    ExitedMeansHandedOver(flushAt, capacity, events + more);
  }

  /** And `flush` then returns if and only if the sentinel was not put after the worker had already found the queue empty. */
  lemma FlushReturnsUnlessLate(flushAt: nat, capacity: nat, events: seq<Event>, more: seq<Event>)
    requires flushAt >= 1 && capacity >= 1 && After(flushAt, capacity, events).shutdown.Done?
    requires Works(more) >= Rank(After(flushAt, capacity, events))
    ensures After(flushAt, capacity, events + more).unfinished == 0 <==> !After(flushAt, capacity, events).late
  {
    WorkerExits(flushAt, capacity, events, more);
    AlwaysStranded(flushAt, capacity, events + more);
    AlwaysSound(flushAt, capacity, events + more);
  }

  lemma AfterNext(flushAt: nat, capacity: nat, events: seq<Event>, e: Event)
    ensures After(flushAt, capacity, events + [e]) == Next(After(flushAt, capacity, events), e)
  {
    assert (events + [e])[..|events|] == events;
  }

  lemma StaysStranded(s: State, e: Event)
    requires Sound(s) && Stranded(s) && s.place.Exited? && s.late
    ensures Next(s, e).place.Exited? && Next(s, e).late && Next(s, e).unfinished == s.unfinished == 1
  {
  }

  lemma StrandedNext(flushAt: nat, capacity: nat, events: seq<Event>, e: Event)
    requires flushAt >= 1 && capacity >= 1
    requires After(flushAt, capacity, events).place.Exited? && After(flushAt, capacity, events).late
    ensures var s := After(flushAt, capacity, events + [e]); s.place.Exited? && s.late
    ensures After(flushAt, capacity, events).unfinished == 1
  {
    AlwaysStranded(flushAt, capacity, events);
    AlwaysSound(flushAt, capacity, events);
    AfterNext(flushAt, capacity, events, e);
    StaysStranded(After(flushAt, capacity, events), e);
  }

  /** A stranded sentinel is never finished, whatever happens afterwards. */
  lemma {:induction false} StrandedForGood(flushAt: nat, capacity: nat, events: seq<Event>, more: seq<Event>)
    requires flushAt >= 1 && capacity >= 1
    requires After(flushAt, capacity, events).place.Exited? && After(flushAt, capacity, events).late
    ensures var s := After(flushAt, capacity, events + more); s.place.Exited? && s.late && s.unfinished == 1
    decreases |more|
  {
    if more == [] {
      StrandedNext(flushAt, capacity, events, Close);
      assert events + more == events;
    } else {
      StrandedNext(flushAt, capacity, events, more[0]);
      StrandedForGood(flushAt, capacity, events + [more[0]], more[1..]);
      assert events + [more[0]] + more[1..] == events + more;
    }
  }

  /** It can happen: the worker wakes between the stop flag and the sentinel, and the `flush` at the end of
      `shutdown` never returns. */
  lemma ShutdownCanStrand(flushAt: nat, capacity: nat) returns (events: seq<Event>)
    requires flushAt >= 1 && capacity >= 1
    ensures var s := After(flushAt, capacity, events);
            s.shutdown.Done? && s.place.Exited? && s.unfinished == 1
  {
    events := [];
    var s := Start(flushAt, capacity);
    AfterNext(flushAt, capacity, events, Close);
    events, s := events + [Close], Next(s, Close);
    AfterNext(flushAt, capacity, events, SetStop);
    events, s := events + [SetStop], Next(s, SetStop);
    for i := 0 to 4
      invariant After(flushAt, capacity, events) == s
      invariant s == Start(flushAt, capacity).(shutdown := StopSet,
                       place := [Getting, StopCheck, EmptyCheck, Leaving, Exited][i])
    {
      AfterNext(flushAt, capacity, events, Work(0));
      events, s := events + [Work(0)], Next(s, Work(0));
    }
    AfterNext(flushAt, capacity, events, PutSentinel);
    events, s := events + [PutSentinel], Next(s, PutSentinel);
  }
}
