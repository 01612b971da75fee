/**
 From events to exported traces: whatever in-order batches a run's emissions are
 cut into, and whatever other traces share the batches, the exporter writes the
 whole trace and keeps nothing of it waiting.
 */
module TraceDelivery {
  import opened Common
  import opened SpanExport
  import opened TraceBuilder
  import P = Pipeline

  function Concat(chunks: seq<seq<Item>>): seq<Item> {
    if chunks == [] then [] else chunks[0] + Concat(chunks[1..])
  }

  /** One trace's share of a run of `Export` calls: what is written, and what stays waiting. */
  function Fed(pending: seq<Item>, chunks: seq<seq<Item>>, cap: nat): (seq<seq<Written>>, seq<Item>)
    decreases |chunks|
  {
    if chunks == [] then ([], pending) else
      var (p, left) := Exported(pending, chunks[0], cap);
      var (later, rest) := Fed(left, chunks[1..], cap);
      ((if p.out == [] then [] else [p.out]) + later, rest)
  }

  /** The shape of a finished run's emissions. */
  ghost predicate Complete(items: seq<Item>, run: string, root: SpanId) {
    && items != [] && items[|items| - 1].IsRoot() && items[|items| - 1].spanId == root
    && forall x :: x in items[..|items| - 1] ==> UnderRoot(x, run, root)
  }

  lemma {:induction false} StagedFits(pending: seq<Item>, chunk: seq<Item>, cap: nat)
    requires forall i :: 0 <= i < |chunk| && |pending| + i >= cap ==> chunk[i].IsRoot()
    ensures StagedAll(pending, chunk, cap) == pending + chunk
  {
    if chunk == [] {
      assert pending + chunk == pending;
    } else {
      var n := |chunk| - 1;
      StagedFits(pending, chunk[..n], cap);
      assert chunk == chunk[..n] + [chunk[n]];
      assert pending + chunk[..n] + [chunk[n]] == pending + chunk;
    }
  }

  /** Before the root there is no root to start from. */
  lemma NotYet(items: seq<Item>, run: string, root: SpanId, n: nat)
    requires Complete(items, run, root) && n < |items|
    ensures Drain(NOTHING, items[..n]) == (NOTHING, items[..n])
  {
    FirstRootFound(items[..n]);
    forall x | x in items[..n] ensures !x.IsRoot() {
      var i :| 0 <= i < n && items[i] == x;
      assert items[..|items| - 1][i] == x;
      assert UnderRoot(x, run, root);
    }
    DrainStartsAtRoot(items[..n]);
  }

  lemma {:induction false} NothingKept(items: seq<Item>, run: string, root: SpanId, reached: set<SpanId>)
    requires Complete(items, run, root) && root in reached
    ensures Kept(items, reached, false, true) == []
    ensures FirstRoot(items) == Some(items[|items| - 1])
    decreases |items|
  {
    if |items| == 1 {
      assert items[1..] == [];
    } else {
      var rest := items[1..];
      assert items[..|items| - 1][0] == items[0] && UnderRoot(items[0], run, root);
      forall x | x in rest[..|rest| - 1] ensures UnderRoot(x, run, root) {
        var i :| 0 <= i < |rest| - 1 && rest[i] == x;
        assert items[..|items| - 1][i + 1] == x;
      }
      NothingKept(rest, run, root, reached);
    }
  }

  /** Everything is written, once, under the root. */
  ghost predicate WholeTrace(out: seq<Written>, items: seq<Item>) {
    && items != [] && out != [] && out[0] == Written(items[|items| - 1], None)
    && (forall j :: 0 < j < |out| ==> out[j].under.Some? && out[j].under.value < j)
    && (forall j :: 0 <= j < |out| ==> WellPlaced(out, j))
    && (forall x :: Writes(out, x) == Waiting(items, x))
  }

  lemma AllAtOnce(items: seq<Item>, run: string, root: SpanId)
    requires Complete(items, run, root)
    ensures Drain(NOTHING, items).1 == [] && WholeTrace(Drain(NOTHING, items).0.out, items)
  {
    var (p, left) := Drain(NOTHING, items);
    ExportIsExact(items);
    NothingKept(items, run, root, {root});
    assert Linked(items, root, root, 0);
    NothingKept(items, run, root, p.contexts.Keys);
    forall j | 0 < j < |p.out| ensures p.out[j].under.Some? && p.out[j].under.value < j {
      assert WellPlaced(p.out, j);
    }
    assert WellPlaced(p.out, 0);
  }

  lemma {:induction false} EmptyChunks(chunks: seq<seq<Item>>, cap: nat)
    requires Concat(chunks) == []
    ensures Fed([], chunks, cap) == ([], [])
  {
    if chunks != [] {
      EmptyChunks(chunks[1..], cap);
    }
  }

  /** With the first `n` items waiting, the rest in any batches. */
  lemma {:induction false} FeedsThrough(items: seq<Item>, run: string, root: SpanId, n: nat, chunks: seq<seq<Item>>, cap: nat)
    requires Complete(items, run, root) && |items| - 1 <= cap
    requires n < |items| && items[n..] == Concat(chunks)
    ensures Fed(items[..n], chunks, cap).1 == []
    ensures |Fed(items[..n], chunks, cap).0| == 1 && WholeTrace(Fed(items[..n], chunks, cap).0[0], items)
    decreases |chunks|
  {
    var chunk := chunks[0];
    var m := n + |chunk|;
    assert items == items[..n] + chunk + Concat(chunks[1..]);
    assert items[..m] == items[..n] + chunk && items[m..] == Concat(chunks[1..]);
    forall i | 0 <= i < |chunk| && n + i >= cap ensures chunk[i].IsRoot() {
      assert chunk[i] == items[n + i];
    }
    StagedFits(items[..n], chunk, cap);
    if m == |items| {
      assert items[..m] == items;
      AllAtOnce(items, run, root);
      EmptyChunks(chunks[1..], cap);
    } else {
      NotYet(items, run, root, m);
      FeedsThrough(items, run, root, m, chunks[1..], cap);
      if chunk == [] { assert items[..m] == items[..n]; }
    }
  }

  // Batches that mix traces.

  /** One trace's share of every batch. */
  function Shares(batches: seq<seq<Item>>, trace: string): seq<seq<Item>> {
    if batches == [] then [] else [OfTrace(batches[0], trace)] + Shares(batches[1..], trace)
  }

  lemma {:induction false} SharesConcat(batches: seq<seq<Item>>, trace: string)
    ensures Concat(Shares(batches, trace)) == OfTrace(Concat(batches), trace)
  {
    if batches != [] {
      SharesConcat(batches[1..], trace);
      OfTraceAppend(batches[0], Concat(batches[1..]), trace);
    }
  }

  /** What a sequence of batches does to one trace: what is left waiting, and what has been written. */
  ghost predicate FedTo(pending: seq<Item>, before: seq<seq<Written>>, chunks: seq<seq<Item>>, cap: nat,
                        left: seq<Item>, after: seq<seq<Written>>) {
    left == Fed(pending, chunks, cap).1 && after == before + Fed(pending, chunks, cap).0
  }

  lemma FedNext(pending: seq<Item>, before: seq<seq<Written>>, chunks: seq<seq<Item>>, cap: nat,
                pending1: seq<Item>, before1: seq<seq<Written>>, left: seq<Item>, after: seq<seq<Written>>)
    requires chunks != [] && ExportedTo(pending, before, chunks[0], cap, pending1, before1)
    ensures FedTo(pending1, before1, chunks[1..], cap, left, after) <==> FedTo(pending, before, chunks, cap, left, after)
  {
    var p := Exported(pending, chunks[0], cap).0;
    var first, later := if p.out == [] then [] else [p.out], Fed(pending1, chunks[1..], cap).0;
    assert before + first + later == before + (first + later);
  }

  /** Handing batches to the exporter one after the other does to every trace what its share of them does. */
  method HandOver(exporter: OtelExporter, batches: seq<seq<Item>>)
    modifies exporter
    ensures forall t :: FedTo(ListOf(old(exporter.pending), t), ListOf(old(exporter.written), t), Shares(batches, t), exporter.cap,
                              ListOf(exporter.pending, t), ListOf(exporter.written, t))
    decreases |batches|
  {
    if batches != [] {
      exporter.Export(batches[0]);
      ghost var pending, written := exporter.pending, exporter.written;
      HandOver(exporter, batches[1..]);
      forall t ensures FedTo(ListOf(old(exporter.pending), t), ListOf(old(exporter.written), t), Shares(batches, t), exporter.cap,
                             ListOf(exporter.pending, t), ListOf(exporter.written, t))
      {
        FedNext(ListOf(old(exporter.pending), t), ListOf(old(exporter.written), t), Shares(batches, t), exporter.cap,
                ListOf(pending, t), ListOf(written, t), ListOf(exporter.pending, t), ListOf(exporter.written, t));
      }
    }
  }

  /** A finished run is exported whole, whatever batches its emissions are cut into and whatever other traces share
      them, as long as they stay below the cap. */
  lemma RunIsDelivered(events: seq<Event>, run: string, batches: seq<seq<Item>>, cap: nat)
    requires RunOf(events, run)
    requires OfTrace(Concat(batches), run) == Emissions(NEW_RUN, events) && |Emissions(NEW_RUN, events)| - 1 <= cap
    ensures Fed([], Shares(batches, run), cap).1 == []
    ensures |Fed([], Shares(batches, run), cap).0| == 1
    ensures WholeTrace(Fed([], Shares(batches, run), cap).0[0], Emissions(NEW_RUN, events))
  {
    var items := Emissions(NEW_RUN, events);
    SharesConcat(batches, run);
    RootComesLast(NEW_RUN, events, run, events[0].rootId);
    assert items[..0] == [] && items[0..] == items;
    FeedsThrough(items, run, events[0].rootId, 0, Shares(batches, run), cap);
  }

  // The waiting lists stay within the cap.

  /** The items that are no roots; a root is let in whatever waits. */
  function NonRoots(items: seq<Item>): nat {
    if items == [] then 0 else (if items[0].IsRoot() then 0 else 1) + NonRoots(items[1..])
  }

  lemma {:induction false} NonRootsBounds(items: seq<Item>, x: Item)
    ensures NonRoots(items) <= |items|
    ensures NonRoots(items + [x]) == NonRoots(items) + if x.IsRoot() then 0 else 1
  {
    if items == [] {
      assert (items + [x])[1..] == [];
    } else {
      assert (items + [x])[1..] == items[1..] + [x];
      NonRootsBounds(items[1..], x);
    }
  }

  lemma {:induction false} StagedWithinCap(pending: seq<Item>, batch: seq<Item>, cap: nat)
    requires NonRoots(pending) <= cap
    ensures NonRoots(StagedAll(pending, batch, cap)) <= cap
  {
    if batch != [] {
      var n := |batch| - 1;
      StagedWithinCap(pending, batch[..n], cap);
      NonRootsBounds(StagedAll(pending, batch[..n], cap), batch[n]);
    }
  }

  lemma {:induction false} PassLeavesFewer(p: Progress, pending: seq<Item>)
    ensures NonRoots(Pass(p, pending).1) <= NonRoots(pending)
    decreases |pending|
  {
    if pending != [] {
      var p1 := Visit(p, pending[0]).0;
      PassLeavesFewer(p1, pending[1..]);
      assert ([pending[0]] + Pass(p1, pending[1..]).1)[1..] == Pass(p1, pending[1..]).1;
    }
  }

  lemma {:induction false} DrainLeavesFewer(p: Progress, pending: seq<Item>)
    ensures NonRoots(Drain(p, pending).1) <= NonRoots(pending)
    decreases |pending|
  {
    if pending != [] {
      PassLeavesFewer(p, pending);
      if |Pass(p, pending).1| != |pending| { DrainLeavesFewer(Pass(p, pending).0, Pass(p, pending).1); }
    }
  }

  /** Whatever is exported, no trace ever keeps more than `cap` items waiting besides roots. */
  lemma {:induction false} WaitsWithinCap(pending: seq<Item>, chunks: seq<seq<Item>>, cap: nat)
    requires NonRoots(pending) <= cap
    ensures NonRoots(Fed(pending, chunks, cap).1) <= cap
    decreases |chunks|
  {
    if chunks != [] {
      StagedWithinCap(pending, chunks[0], cap);
      DrainLeavesFewer(NOTHING, StagedAll(pending, chunks[0], cap));
      WaitsWithinCap(Exported(pending, chunks[0], cap).1, chunks[1..], cap);
    }
  }

  // From the events of many runs through the pipeline to the exporter.

  /** The batches the exporter took; one it raised on twice is given up. */
  function Batches(handed: seq<P.Handed>): seq<seq<Item>> {
    if handed == [] then [] else
      Batches(handed[..|handed| - 1]) + if handed[|handed| - 1].exported then [handed[|handed| - 1].batch] else []
  }

  lemma {:induction false} ConcatAppend(batches: seq<seq<Item>>, last: seq<Item>)
    ensures Concat(batches + [last]) == Concat(batches) + last
  {
    if batches == [] {
      assert (batches + [last])[1..] == [];
    } else {
      assert (batches + [last])[1..] == batches[1..] + [last];
      ConcatAppend(batches[1..], last);
    }
  }

  lemma {:induction false} BatchesConcat(handed: seq<P.Handed>)
    requires forall h :: h in handed ==> h.exported
    ensures Concat(Batches(handed)) == P.HandedItems(handed)
  {
    if handed != [] {
      assert handed[|handed| - 1] in handed;
      BatchesConcat(handed[..|handed| - 1]);
      ConcatAppend(Batches(handed[..|handed| - 1]), handed[|handed| - 1].batch);
    }
  }

  /** Events of any number of runs are built into spans, accepted by the pipeline, batched in any interleaving and shut
      down: every run that finished in them is exported whole, if its emissions stay below the cap and no batch is
      given up. */
  lemma EventsBecomeTraces(events: seq<Event>, run: string, flushAt: nat, capacity: nat,
                           steps: seq<P.Event>, more: seq<P.Event>, cap: nat)
    requires RunOf(EventsOf(events, run), run)
    requires flushAt >= 1 && P.After(flushAt, capacity, steps).shutdown.Done?
    requires P.After(flushAt, capacity, steps).accepted == AfterAll(events).emitted
    requires P.Works(more) >= P.Rank(P.After(flushAt, capacity, steps))
    requires |Emissions(NEW_RUN, EventsOf(events, run))| - 1 <= cap
    requires forall h :: h in P.After(flushAt, capacity, steps + more).handed ==> h.exported
    ensures var (written, left) := Fed([], Shares(Batches(P.After(flushAt, capacity, steps + more).handed), run), cap);
            && left == [] && |written| == 1
            && WholeTrace(written[0], Emissions(NEW_RUN, EventsOf(events, run)))
  {
    var batches := Batches(P.After(flushAt, capacity, steps + more).handed);
    P.ShutdownHandsOver(flushAt, capacity, steps, more);
    BatchesConcat(P.After(flushAt, capacity, steps + more).handed);
    RunsApart(events, run);
    RunIsDelivered(EventsOf(events, run), run, batches, cap);
  }
}
