/**
 What the pipeline lets in, when it hands over, and that it does: the exact
 effect of each operation, and progress without a shutdown.
 */
module PipelineProgress {
  import opened Common
  import opened Pipeline

  /** An item is let in, behind everything waiting, exactly while the pipeline is open and has room; else it is counted
      as dropped, and nothing else changes. While `shutdown` holds the lock a producer waits. */
  lemma EnqueueExactly(s: State, item: Payload)
    ensures var s' := Next(s, Enqueue(item));
            if s.shutdown.Closing? || s.shutdown.StopSet? then s' == s
            else
              && s'.offered == s.offered + 1
              && s'.place == s.place && s'.batch == s.batch && s'.handed == s.handed && s'.shutdown == s.shutdown
              && if s.shutdown.Open? && |s.queue| < s.capacity then
                   && s'.accepted == s.accepted + [item] && s'.queue == s.queue + [Record(item)]
                   && s'.dropped == s.dropped && s'.unfinished == s.unfinished + 1
                 else
                   s'.accepted == s.accepted && s'.queue == s.queue && s'.dropped == s.dropped + 1 && s'.unfinished == s.unfinished
  {
  }

  /** Shutting down takes its three steps in order, once; the sentinel goes behind everything waiting if there is room. */
  lemma ShutdownExactly(s: State)
    requires s.shutdown.Open?
    ensures var s1, s2, s3 := Next(s, Close), Next(Next(s, Close), SetStop), Next(Next(Next(s, Close), SetStop), PutSentinel);
            && !s1.StopIsSet() && s2.StopIsSet() && s3.StopIsSet() && s3.shutdown.Done?
            && s3.queue == (if |s.queue| < s.capacity then s.queue + [Sentinel] else s.queue)
            && s3.unfinished == s.unfinished + |s3.queue| - |s.queue|
            && s3.accepted == s.accepted && s3.dropped == s.dropped && s3.batch == s.batch && s3.place == s.place
            && Next(s3, Close) == s3 && Next(s3, SetStop) == s3 && Next(s3, PutSentinel) == s3
  {
  }

  function Enqueued(events: seq<Event>): seq<Payload> {
    if events == [] then [] else
      Enqueued(events[..|events| - 1]) + match events[|events| - 1] case Enqueue(item) => [item] case _ => []
  }

  /** The event, if it is an enqueue, finds the pipeline open and with room. */
  predicate FindsRoom(s: State, e: Event) {
    e.Enqueue? ==> s.shutdown.Open? && |s.queue| < s.capacity
  }

  lemma OthersLetNothingIn(s: State, e: Event)
    requires !e.Enqueue?
    ensures Next(s, e).accepted == s.accepted && Next(s, e).dropped == s.dropped && Next(s, e).offered == s.offered
  {
  }

  /** If every item comes before the shutdown and finds room, all are accepted, in order, and none is dropped. */
  lemma {:induction false} AllAreAccepted(flushAt: nat, capacity: nat, events: seq<Event>)
    requires forall n :: 0 <= n < |events| ==> FindsRoom(After(flushAt, capacity, events[..n]), events[n])
    ensures var s := After(flushAt, capacity, events); s.accepted == Enqueued(events) && s.dropped == 0
  {
    if events != [] {
      var n := |events| - 1;
      var s, e := After(flushAt, capacity, events[..n]), events[n];
      assert forall i :: 0 <= i < n ==> events[..n][..i] == events[..i];
      AllAreAccepted(flushAt, capacity, events[..n]);
      assert FindsRoom(s, e);
      if e.Enqueue? { EnqueueExactly(s, e.item); } else { OthersLetNothingIn(s, e); }
    }
  }

  // When a batch is handed over.

  /** The worker turns to handing over a batch exactly when it has items and: it waited for more in vain, or got the
      sentinel; or the batch is full, or stopped short by the sentinel or by the stop flag; or it leaves. */
  lemma HandsOverWhenDue(s: State, failures: nat)
    requires Sound(s) && !s.place.Flushing?
    ensures Worked(s, failures).place.Flushing? <==>
            match s.place
            case Getting => s.batch != [] && (s.queue == [] || s.queue[0].Sentinel?)
            case Deciding(sawSentinel) => |s.batch| == s.flushAt || sawSentinel || s.StopIsSet()
            case Leaving => s.batch != []
            case _ => false
    ensures Worked(s, failures).handed == s.handed
  {
  }

  /** It then hands over the whole batch, and counts its items as done. */
  lemma HandsOverTheBatch(s: State, failures: nat)
    requires Sound(s) && s.place.Flushing?
    ensures var s' := Worked(s, failures);
            && s'.handed == s.handed + [Handed(s.batch, if failures == 0 then 1 else 2, failures < 2)]
            && s'.batch == [] && s'.queue == s.queue && s'.place == s.place.next && s'.unfinished == s.unfinished - |s.batch|
  {
  }

  /** Without a timeout or a shutdown batches are filled up: the worker goes on taking while it may. */
  lemma FillsUp(s: State, failures: nat)
    requires Sound(s) && s.place.Filling? && |s.batch| < s.flushAt && s.queue != [] && s.queue[0].Record?
    ensures Worked(s, failures) == s.(queue := s.queue[1..], batch := s.batch + [s.queue[0].value])
  {
  }

  // Progress without a shutdown.

  /** Steps until nothing that was let in is left to hand over. */
  function Distance(s: State): nat {
    if s.place.Exited? || (s.queue == [] && s.batch == []) then 0
    else
      20 * |s.queue| + (if s.batch == [] then 0 else 10)
      + match s.place
        case Flushing(_) => 1
        case Getting => 2
        case Leaving => 2
        case EmptyCheck => 3
        case StopCheck => 4
        case Deciding(_) => 5
        case Filling => 6
        case Exited => 0
  }

  lemma WorkComesCloser(s: State, failures: nat)
    requires PlaceSound(s) && s.flushAt >= 1 && Stranded(s)
    ensures Distance(s) > 0 ==> Distance(Worked(s, failures)) < Distance(s)
    ensures Distance(s) == 0 ==> Distance(Worked(s, failures)) == 0
    ensures Worked(s, failures).accepted == s.accepted
  {
  }

  lemma CloserNext(flushAt: nat, capacity: nat, events: seq<Event>, e: Event)
    requires flushAt >= 1 && capacity >= 1 && e.Work?
    ensures var s, s' := After(flushAt, capacity, events), After(flushAt, capacity, events + [e]);
            && s'.accepted == s.accepted && (Distance(s) > 0 ==> Distance(s') < Distance(s)) && (Distance(s) == 0 ==> Distance(s') == 0)
  {
    AlwaysSound(flushAt, capacity, events);
    AlwaysStranded(flushAt, capacity, events);
    AfterNext(flushAt, capacity, events, e);
    WorkComesCloser(After(flushAt, capacity, events), e.failures);
  }

  lemma DrainedAfter(flushAt: nat, capacity: nat, events: seq<Event>)
    requires flushAt >= 1 && Distance(After(flushAt, capacity, events)) == 0
    ensures After(flushAt, capacity, events).accepted == HandedItems(After(flushAt, capacity, events).handed)
  {
    AlwaysSound(flushAt, capacity, events);
    DrainedIsHandedOver(After(flushAt, capacity, events));
  }

  /** Left to the worker alone, everything that was let in is handed over after finitely many of its steps, shut down or
      not. */
  lemma {:induction false} LeftAloneItDrains(flushAt: nat, capacity: nat, events: seq<Event>, more: seq<Event>)
    requires flushAt >= 1 && capacity >= 1 && forall e :: e in more ==> e.Work?
    requires |more| >= Distance(After(flushAt, capacity, events))
    ensures After(flushAt, capacity, events).accepted == HandedItems(After(flushAt, capacity, events + more).handed)
    decreases |more|
  {
    if more == [] {
      assert events + more == events;
      DrainedAfter(flushAt, capacity, events);
    } else {
      assert more[0] in more;
      CloserNext(flushAt, capacity, events, more[0]);
      LeftAloneItDrains(flushAt, capacity, events + [more[0]], more[1..]);
      assert events + [more[0]] + more[1..] == events + more;
    }
  }

  lemma DrainedIsHandedOver(s: State)
    requires Sound(s) && Distance(s) == 0
    ensures s.accepted == HandedItems(s.handed)
  {
  }
}
