/**
 Rebuilding span trees for export. Spans and scores of a trace wait until its
 root arrives; then passes over the waiting list, repeated until one makes no
 progress, write every span after its parent.
 */
module SpanExport {
  import opened Common

  /** Span identifiers are only compared. */
  type SpanId = nat

  datatype SpanName = RunSpan | ExecutorSpan | VerifierSpan | ReviewerSpan | IterationSpan | Named(text: string)

  datatype Level = Ordinary | Error

  datatype Item =
    | Span(traceId: string, spanId: SpanId, parent: Option<SpanId>, name: SpanName, level: Level)
    | Score(runId: string, scoreName: string)
  {
    function Trace(): string { if Span? then traceId else runId }
    predicate IsRoot() { Span? && parent.None? }
  }

  /** A written item and the place of the span it was written under. */
  datatype Written = Written(item: Item, under: Option<nat>)

  /** `contexts` finds a written span by its identifier; `root` is the place of the root. */
  datatype Progress = Progress(contexts: map<SpanId, nat>, root: Option<nat>, out: seq<Written>)

  const NOTHING := Progress(map[], None, [])

  /** Write the item if its parent, or for a score the root, has been written. */
  function Visit(p: Progress, item: Item): (Progress, bool) {
    if item.Score? then
      if p.root.Some? then (p.(out := p.out + [Written(item, p.root)]), true) else (p, false)
    else if item.parent.None? then
      if p.root.Some? then (p, false)
      else (Progress(p.contexts[item.spanId := |p.out|], Some(|p.out|), p.out + [Written(item, None)]), true)
    else if item.parent.value in p.contexts then
      (p.(contexts := p.contexts[item.spanId := |p.out|],
          out := p.out + [Written(item, Some(p.contexts[item.parent.value]))]), true)
    else (p, false)
  }

  /** One pass: what is written, and what is left in order. */
  function Pass(p: Progress, pending: seq<Item>): (r: (Progress, seq<Item>))
    ensures |r.1| <= |pending|
    decreases |pending|
  {
    if pending == [] then (p, []) else
      var (p1, written) := Visit(p, pending[0]);
      var (p2, left) := Pass(p1, pending[1..]);
      (p2, if written then left else [pending[0]] + left)
  }

  /** Passes until nothing is left or a pass writes nothing. */
  function Drain(p: Progress, pending: seq<Item>): (Progress, seq<Item>)
    decreases |pending|
  {
    if pending == [] then (p, []) else
      var (p1, left) := Pass(p, pending);
      if |left| == |pending| then (p1, left) else Drain(p1, left)
  }

  // What the passes achieve.

  function Waiting(items: seq<Item>, x: Item): nat {
    if items == [] then 0 else (if items[0] == x then 1 else 0) + Waiting(items[1..], x)
  }

  function Writes(out: seq<Written>, x: Item): nat {
    if out == [] then 0 else Writes(out[..|out| - 1], x) + if out[|out| - 1].item == x then 1 else 0
  }

  /** Every written span follows the span it is under, which is its parent; scores are under the root; the root,
      and only the root, is under nothing and comes first. */
  ghost predicate WellPlaced(out: seq<Written>, j: nat)
    requires j < |out|
  {
    var w := out[j];
    if w.item.Score? then w.under == Some(0) && out[0].item.IsRoot()
    else if w.item.parent.None? then w.under == None && j == 0
    else
      && w.under.Some? && w.under.value < j
      && out[w.under.value].item.Span? && out[w.under.value].item.spanId == w.item.parent.value
  }

  ghost predicate Tracks(p: Progress) {
    && (forall j :: 0 <= j < |p.out| ==> WellPlaced(p.out, j))
    && (p.root.Some? <==> p.out != [])
    && (p.root.Some? ==> p.root == Some(0) && p.out[0].item.IsRoot() && p.out[0].item.spanId in p.contexts)
    && (forall id :: id in p.contexts ==>
                       p.contexts[id] < |p.out| && p.out[p.contexts[id]].item.Span? && p.out[p.contexts[id]].item.spanId == id)
    && (forall j :: 0 <= j < |p.out| && p.out[j].item.Span? ==> p.out[j].item.spanId in p.contexts)
  }

  lemma VisitGrows(p: Progress, item: Item)
    ensures p.out <= Visit(p, item).0.out
    ensures !Visit(p, item).1 ==> Visit(p, item).0 == p
    ensures Visit(p, item).1 && item.Span? ==> item.spanId in Visit(p, item).0.contexts
    ensures p.contexts.Keys <= Visit(p, item).0.contexts.Keys
    ensures p.root.Some? ==> Visit(p, item).0.root.Some?
  {
  }

  /** What is placed well stays so when more is written. */
  lemma StaysPlaced(out: seq<Written>, w: Written, j: nat)
    requires j < |out| && WellPlaced(out, j)
    ensures WellPlaced(out + [w], j)
  {
  }

  lemma WriteTracks(p: Progress, w: Written)
    requires Tracks(p)
    requires WellPlaced(p.out + [w], |p.out|)
    requires w.item.IsRoot() ==> p.out == []
    ensures p.out == [] ==> w.item.IsRoot()
    ensures Tracks(Progress(if w.item.Span? then p.contexts[w.item.spanId := |p.out|] else p.contexts, Some(0), p.out + [w]))
  {
    var out := p.out + [w];
    forall j | 0 <= j < |out| ensures WellPlaced(out, j) {
      if j < |p.out| { StaysPlaced(p.out, w, j); }
    }
  }

  lemma VisitTracks(p: Progress, item: Item)
    requires Tracks(p)
    ensures Tracks(Visit(p, item).0)
    ensures p.out <= Visit(p, item).0.out
    ensures !Visit(p, item).1 ==> Visit(p, item).0 == p
    ensures Visit(p, item).1 && item.Span? ==> item.spanId in Visit(p, item).0.contexts
    ensures p.contexts.Keys <= Visit(p, item).0.contexts.Keys
    ensures p.root.Some? ==> Visit(p, item).0.root.Some?
  {
    VisitGrows(p, item);
    if Visit(p, item).1 {
      var under := if item.Score? then p.root else if item.parent.None? then None else Some(p.contexts[item.parent.value]);
      assert Visit(p, item).0.out == p.out + [Written(item, under)];
      WriteTracks(p, Written(item, under));
    }
  }

  /** What stays waiting once the spans in `reached` have been written: later roots, spans with no written parent,
      and, without a root, the scores. */
  function Kept(items: seq<Item>, reached: set<SpanId>, rootSeen: bool, hasRoot: bool): seq<Item> {
    if items == [] then [] else
      var rest := Kept(items[1..], reached, rootSeen || items[0].IsRoot(), hasRoot);
      if Stays(items[0], reached, rootSeen, hasRoot) then [items[0]] + rest else rest
  }

  predicate Stays(x: Item, reached: set<SpanId>, rootSeen: bool, hasRoot: bool) {
    if x.Score? then !hasRoot else if x.parent.None? then rootSeen else x.parent.value !in reached
  }

  lemma {:induction false} PassTracks(p: Progress, pending: seq<Item>)
    requires Tracks(p)
    ensures var (p', left) := Pass(p, pending);
            && Tracks(p')
            && p.contexts.Keys <= p'.contexts.Keys && (p.root.Some? ==> p'.root.Some?) && p.out <= p'.out
            && (forall x :: x in left ==> x in pending)
            && (forall x :: x in pending && x.Span? && x !in left ==> x.spanId in p'.contexts)
            && (forall x :: x in pending && x.IsRoot() ==> p'.root.Some?)
    decreases |pending|
  {
    if pending != [] {
      VisitTracks(p, pending[0]);
      PassTracks(Visit(p, pending[0]).0, pending[1..]);
      assert pending == [pending[0]] + pending[1..];
    }
  }

  lemma VisitWrites(p: Progress, item: Item, x: Item)
    ensures Writes(Visit(p, item).0.out, x) == Writes(p.out, x) + if Visit(p, item).1 && item == x then 1 else 0
  {
    var out := Visit(p, item).0.out;
    if Visit(p, item).1 {
      assert out[..|p.out|] == p.out;
    }
  }

  /** Nothing is lost and nothing is written twice. */
  lemma {:induction false} PassConserves(p: Progress, pending: seq<Item>, x: Item)
    ensures Writes(Pass(p, pending).0.out, x) + Waiting(Pass(p, pending).1, x) == Writes(p.out, x) + Waiting(pending, x)
    decreases |pending|
  {
    if pending != [] {
      var (p1, written) := Visit(p, pending[0]);
      VisitWrites(p, pending[0], x);
      PassConserves(p1, pending[1..], x);
      var left := Pass(p1, pending[1..]).1;
      assert ([pending[0]] + left)[1..] == left;
    }
  }

  lemma {:induction false} DrainConserves(p: Progress, pending: seq<Item>, x: Item)
    ensures Writes(Drain(p, pending).0.out, x) + Waiting(Drain(p, pending).1, x) == Writes(p.out, x) + Waiting(pending, x)
    decreases |pending|
  {
    if pending != [] {
      PassConserves(p, pending, x);
      var (p1, left) := Pass(p, pending);
      if |left| != |pending| { DrainConserves(p1, left, x); }
    }
  }

  /** A written item does not stay; one that is not stays or goes as it would have without the visit. */
  lemma VisitStays(p: Progress, x: Item, reached: set<SpanId>, rootSeen: bool, hasRoot: bool)
    requires p.contexts.Keys <= reached
    requires (p.root.Some? ==> rootSeen) && (rootSeen ==> hasRoot)
    requires Visit(p, x).0.root.Some? ==> rootSeen
    ensures Visit(p, x).1 ==> !Stays(x, reached, p.root.Some?, hasRoot)
    ensures !Visit(p, x).1 ==> Stays(x, reached, rootSeen, hasRoot) == Stays(x, reached, p.root.Some?, hasRoot)
    ensures Visit(p, x).0.root.Some? == (p.root.Some? || x.IsRoot())
  {
  }

  /** What finally stays waiting is not changed by a pass on the way. */
  lemma {:induction false} PassKeeps(p: Progress, pending: seq<Item>, reached: set<SpanId>, hasRoot: bool)
    requires Tracks(p)
    requires Pass(p, pending).0.contexts.Keys <= reached && (Pass(p, pending).0.root.Some? ==> hasRoot)
    ensures Kept(Pass(p, pending).1, reached, Pass(p, pending).0.root.Some?, hasRoot)
         == Kept(pending, reached, p.root.Some?, hasRoot)
    decreases |pending|
  {
    if pending != [] {
      var x := pending[0];
      var (p1, written) := Visit(p, x);
      var (p2, left) := Pass(p1, pending[1..]);
      VisitTracks(p, x);
      PassTracks(p1, pending[1..]);
      PassKeeps(p1, pending[1..], reached, hasRoot);
      VisitStays(p, x, reached, p2.root.Some?, hasRoot);
      assert ([x] + left)[1..] == left;
    }
  }

  /** A pass that writes nothing has nothing to write. */
  lemma {:induction false} IdlePass(p: Progress, pending: seq<Item>)
    requires |Pass(p, pending).1| == |pending|
    ensures Pass(p, pending) == (p, pending)
    ensures Kept(pending, p.contexts.Keys, p.root.Some?, p.root.Some?) == pending
    ensures p.root.None? ==> forall x :: x in pending ==> !x.IsRoot()
    decreases |pending|
  {
    if pending != [] {
      IdlePass(p, pending[1..]);
      assert pending == [pending[0]] + pending[1..];
    }
  }

  // The whole loop.

  /** Everything written is reachable from the root by parent links, among the items. */
  ghost predicate Linked(items: seq<Item>, root: SpanId, id: SpanId, steps: nat)
    decreases steps
  {
    if steps == 0 then id == root
    else exists k :: 0 <= k < |items| && items[k].Span? && items[k].spanId == id && items[k].parent.Some?
                     && Linked(items, root, items[k].parent.value, steps - 1)
  }

  ghost predicate Reachable(items: seq<Item>, root: SpanId, id: SpanId) {
    exists steps: nat :: Linked(items, root, id, steps)
  }

  ghost predicate AllReachable(p: Progress, items: seq<Item>) {
    p.root.Some? && p.out != [] && p.out[0].item.Span? ==>
      forall id :: id in p.contexts ==> Reachable(items, p.out[0].item.spanId, id)
  }

  lemma ReachOne(items: seq<Item>, root: SpanId, x: Item)
    requires x in items && x.Span? && x.parent.Some? && Reachable(items, root, x.parent.value)
    ensures Reachable(items, root, x.spanId)
  {
    var steps: nat :| Linked(items, root, x.parent.value, steps);
    var k :| 0 <= k < |items| && items[k] == x;
    assert Linked(items, root, x.spanId, steps + 1);
  }

  lemma VisitReachable(p: Progress, item: Item, items: seq<Item>)
    requires Tracks(p) && AllReachable(p, items) && item in items
    ensures AllReachable(Visit(p, item).0, items)
  {
    var (p1, written) := Visit(p, item);
    VisitTracks(p, item);
    if written && item.Span? {
      var root := p1.out[0].item.spanId;
      if item.parent.Some? { ReachOne(items, root, item); }
      else { assert Linked(items, root, root, 0); }
    }
  }

  lemma {:induction false} PassReachable(p: Progress, pending: seq<Item>, items: seq<Item>)
    requires Tracks(p) && AllReachable(p, items) && forall x :: x in pending ==> x in items
    ensures AllReachable(Pass(p, pending).0, items)
    decreases |pending|
  {
    if pending != [] {
      VisitTracks(p, pending[0]);
      VisitReachable(p, pending[0], items);
      PassReachable(Visit(p, pending[0]).0, pending[1..], items);
    }
  }

  /** `p` and `pending` account for every item; before the root is written nothing is. */
  ghost predicate Accounts(p: Progress, pending: seq<Item>, items: seq<Item>) {
    && Tracks(p) && AllReachable(p, items)
    && (forall x :: x in pending ==> x in items)
    && (forall x :: x in items && x.Span? && x !in pending ==> x.spanId in p.contexts)
    && (forall x :: x in items && x.IsRoot() && x !in pending ==> p.root.Some?)
  }

  lemma PassAccounts(p: Progress, pending: seq<Item>, items: seq<Item>)
    requires Accounts(p, pending, items)
    ensures Accounts(Pass(p, pending).0, Pass(p, pending).1, items)
    ensures p.contexts.Keys <= Pass(p, pending).0.contexts.Keys
    ensures p.root.Some? ==> Pass(p, pending).0.root.Some?
    ensures p.out <= Pass(p, pending).0.out
  {
    PassTracks(p, pending);
    PassReachable(p, pending, items);
  }

  /** What holds when the loop stops. */
  lemma {:induction false} DrainAccounts(p: Progress, pending: seq<Item>, items: seq<Item>)
    requires Accounts(p, pending, items)
    ensures Accounts(Drain(p, pending).0, Drain(p, pending).1, items)
    ensures p.contexts.Keys <= Drain(p, pending).0.contexts.Keys
    ensures p.root.Some? ==> Drain(p, pending).0.root.Some?
    ensures p.out <= Drain(p, pending).0.out
    ensures Drain(p, pending).0.root.None? ==> forall x :: x in Drain(p, pending).1 ==> !x.IsRoot()
    decreases |pending|
  {
    if pending != [] {
      var (p1, left) := Pass(p, pending);
      PassAccounts(p, pending, items);
      if |left| == |pending| {
        IdlePass(p, pending);
      } else {
        DrainAccounts(p1, left, items);
      }
    }
  }

  lemma {:induction false} DrainKeeps(p: Progress, pending: seq<Item>, items: seq<Item>)
    requires Accounts(p, pending, items)
    ensures var (p', left) := Drain(p, pending);
            left == Kept(pending, p'.contexts.Keys, p.root.Some?, p'.root.Some?)
    decreases |pending|
  {
    if pending != [] {
      var (p1, left) := Pass(p, pending);
      if |left| == |pending| {
        IdlePass(p, pending);
      } else {
        PassAccounts(p, pending, items);
        DrainKeeps(p1, left, items);
        DrainAccounts(p1, left, items);
        PassKeeps(p, pending, Drain(p1, left).0.contexts.Keys, Drain(p1, left).0.root.Some?);
      }
    }
  }

  /** The first root in list order, if there is one. */
  function FirstRoot(items: seq<Item>): Option<Item> {
    if items == [] then None else if items[0].IsRoot() then Some(items[0]) else FirstRoot(items[1..])
  }

  lemma {:induction false} FirstRootFound(items: seq<Item>)
    ensures FirstRoot(items).None? <==> forall x :: x in items ==> !x.IsRoot()
    ensures FirstRoot(items).Some? ==> FirstRoot(items).value in items && FirstRoot(items).value.IsRoot()
  {
    if items != [] {
      FirstRootFound(items[1..]);
      assert items == [items[0]] + items[1..];
    }
  }

  /** The first thing a pass writes is the first root. */
  lemma {:induction false} PassStartsAtRoot(p: Progress, pending: seq<Item>)
    requires Tracks(p) && p.root.None?
    ensures var p' := Pass(p, pending).0;
            if FirstRoot(pending).None? then p' == p else p'.out != [] && p'.out[0].item == FirstRoot(pending).value
    decreases |pending|
  {
    if pending != [] {
      assert p.contexts.Keys == {};
      var p1 := Visit(p, pending[0]).0;
      VisitTracks(p, pending[0]);
      if p1.root.None? {
        PassStartsAtRoot(p, pending[1..]);
      } else {
        PassTracks(p1, pending[1..]);
      }
    }
  }

  lemma {:induction false} KeptMembers(items: seq<Item>, reached: set<SpanId>, rootSeen: bool, hasRoot: bool)
    ensures forall x :: x in Kept(items, reached, rootSeen, hasRoot) ==>
                          && x in items
                          && (x.Score? ==> !hasRoot)
                          && (x.Span? && x.parent.Some? ==> x.parent.value !in reached)
  {
    if items != [] {
      KeptMembers(items[1..], reached, rootSeen || items[0].IsRoot(), hasRoot);
      assert items == [items[0]] + items[1..];
    }
  }

  lemma {:induction false} LinkedIsReached(items: seq<Item>, root: SpanId, id: SpanId, steps: nat, reached: set<SpanId>)
    requires Linked(items, root, id, steps) && root in reached
    requires forall x :: x in items && x.Span? && x.parent.Some? && x.parent.value in reached ==> x.spanId in reached
    ensures id in reached
    decreases steps
  {
    if steps != 0 {
      var k :| 0 <= k < |items| && items[k].Span? && items[k].spanId == id && items[k].parent.Some?
               && Linked(items, root, items[k].parent.value, steps - 1);
      LinkedIsReached(items, root, items[k].parent.value, steps - 1, reached);
      assert items[k] in items;
    }
  }

  lemma {:induction false} NoRootNoProgress(p: Progress, pending: seq<Item>)
    requires Tracks(p) && p.root.None? && FirstRoot(pending).None?
    ensures |Pass(p, pending).1| == |pending|
    decreases |pending|
  {
    if pending != [] {
      assert p.contexts.Keys == {};
      NoRootNoProgress(p, pending[1..]);
    }
  }

  /** The root the loop writes first is the first root of the list. */
  lemma DrainStartsAtRoot(items: seq<Item>)
    ensures var p := Drain(NOTHING, items).0;
            if FirstRoot(items).None? then p == NOTHING && Drain(NOTHING, items).1 == items
            else p.out != [] && p.out[0].item == FirstRoot(items).value
  {
    if items != [] {
      var (p1, left) := Pass(NOTHING, items);
      PassStartsAtRoot(NOTHING, items);
      if FirstRoot(items).None? {
        NoRootNoProgress(NOTHING, items);
        IdlePass(NOTHING, items);
      } else {
        PassAccounts(NOTHING, items, items);
        if |left| != |items| { DrainAccounts(p1, left, items); }
      }
    }
  }

  /** The whole loop, for any waiting list: without a root it does nothing; with one it writes exactly the first
      root, what is reachable from it and the scores, each as often as it was waiting and after its parent, and
      leaves the rest in order. */
  lemma ExportIsExact(items: seq<Item>)
    ensures var (p, left) := Drain(NOTHING, items);
            var root := FirstRoot(items);
            && (forall j :: 0 <= j < |p.out| ==> WellPlaced(p.out, j))
            && (forall x :: Writes(p.out, x) + Waiting(left, x) == Waiting(items, x))
            && (root.None? ==> p.out == [] && left == items)
            && (root.Some? ==>
                  && root.value.Span? && p.out != [] && p.out[0].item == root.value
                  && left == Kept(items, p.contexts.Keys, false, true)
                  && forall id :: id in p.contexts <==> Reachable(items, root.value.spanId, id))
  {
    var (p, left) := Drain(NOTHING, items);
    forall x ensures Writes(p.out, x) + Waiting(left, x) == Waiting(items, x) { DrainConserves(NOTHING, items, x); }
    DrainAccounts(NOTHING, items, items);
    DrainKeeps(NOTHING, items, items);
    DrainStartsAtRoot(items);
    FirstRootFound(items);
    if FirstRoot(items).Some? {
      var root := FirstRoot(items).value.spanId;
      KeptMembers(items, p.contexts.Keys, false, true);
      forall id | Reachable(items, root, id) ensures id in p.contexts {
        var steps: nat :| Linked(items, root, id, steps);
        LinkedIsReached(items, root, id, steps, p.contexts.Keys);
      }
    }
  }

  // The exporter: waiting lists per trace, and a cap on each.

  /** Append unless the list is full; a root is always let in. */
  function Staged(pending: seq<Item>, item: Item, cap: nat): seq<Item> {
    if |pending| >= cap && !item.IsRoot() then pending else pending + [item]
  }

  function StagedAll(pending: seq<Item>, batch: seq<Item>, cap: nat): seq<Item> {
    if batch == [] then pending else Staged(StagedAll(pending, batch[..|batch| - 1], cap), batch[|batch| - 1], cap)
  }

  function OfTrace(batch: seq<Item>, trace: string): seq<Item> {
    if batch == [] then [] else
      OfTrace(batch[..|batch| - 1], trace) + if batch[|batch| - 1].Trace() == trace then [batch[|batch| - 1]] else []
  }

  /** One batch, as one trace sees it: nothing unless an item was let in, else the loop on its list. */
  function Exported(pending: seq<Item>, batch: seq<Item>, cap: nat): (Progress, seq<Item>) {
    var staged := StagedAll(pending, batch, cap);
    if |staged| == |pending| then (NOTHING, pending) else Drain(NOTHING, staged)
  }

  function ListOf<T>(lists: map<string, seq<T>>, trace: string): seq<T> {
    if trace in lists then lists[trace] else []
  }

  /** From waiting list `staged` and earlier writings `before` to what is left and what has been written. */
  ghost predicate DrainedTo(staged: seq<Item>, before: seq<seq<Written>>, left: seq<Item>, after: seq<seq<Written>>) {
    var (p, rest) := Drain(NOTHING, staged);
    left == rest && after == before + if p.out == [] then [] else [p.out]
  }

  /** One batch as one trace sees it, with what was written before. */
  ghost predicate ExportedTo(pending: seq<Item>, before: seq<seq<Written>>, share: seq<Item>, cap: nat,
                             left: seq<Item>, after: seq<seq<Written>>) {
    var (p, rest) := Exported(pending, share, cap);
    left == rest && after == before + if p.out == [] then [] else [p.out]
  }

  lemma StageNext(pending: seq<Item>, batch: seq<Item>, i: nat, trace: string, cap: nat)
    requires i < |batch|
    ensures var before := StagedAll(pending, OfTrace(batch[..i], trace), cap);
            StagedAll(pending, OfTrace(batch[..i + 1], trace), cap) ==
            if batch[i].Trace() == trace then Staged(before, batch[i], cap) else before
  {
    assert batch[..i + 1][..i] == batch[..i];
    var s := OfTrace(batch[..i], trace);
    assert (s + [batch[i]])[..|s|] == s && s + [] == s;
    assert OfTrace(batch[..i + 1], trace) == s + if batch[i].Trace() == trace then [batch[i]] else [];
  }

  class OtelExporter {
    const cap: nat
    var pending: map<string, seq<Item>>
    /** What has been written, a list per trace; places are relative to the call that wrote them. */
    var written: map<string, seq<seq<Written>>>

    constructor (cap: nat)
      requires cap >= 1
      ensures this.cap == cap && pending == map[] && written == map[]
    {
      this.cap := cap;
      pending, written := map[], map[];
    }

    /** Every trace is handled as `Exported` says, whatever order the touched traces are taken in. */
    method Export(batch: seq<Item>)
      modifies this
      ensures forall t :: ExportedTo(ListOf(old(pending), t), ListOf(old(written), t), OfTrace(batch, t), cap,
                                     ListOf(pending, t), ListOf(written, t))
    {
      var touched := Stage(batch);
      ghost var staged := pending;
      ExportTouched(touched);
      forall t ensures ExportedTo(ListOf(old(pending), t), ListOf(old(written), t), OfTrace(batch, t), cap,
                                  ListOf(pending, t), ListOf(written, t))
      {
        assert t in touched <==> |ListOf(staged, t)| != |ListOf(old(pending), t)|;
      }
    }

    /** Every touched trace in turn, in any order. */
    method ExportTouched(touched: set<string>)
      modifies this
      ensures forall t :: t in touched ==>
                            DrainedTo(ListOf(old(pending), t), ListOf(old(written), t), ListOf(pending, t), ListOf(written, t))
      ensures forall t :: t !in touched ==>
                            ListOf(pending, t) == ListOf(old(pending), t) && ListOf(written, t) == ListOf(old(written), t)
    {
      var left := touched;
      while left != {}
        invariant left <= touched
        invariant forall t :: t in left || t !in touched ==>
                                ListOf(pending, t) == ListOf(old(pending), t) && ListOf(written, t) == ListOf(old(written), t)
        invariant forall t :: t in touched && t !in left ==>
                                DrainedTo(ListOf(old(pending), t), ListOf(old(written), t), ListOf(pending, t), ListOf(written, t))
        decreases |left|
      {
        var t :| t in left;
        ExportTrace(t);
        left := left - {t};
      }
    }

    /** Put the batch on the waiting lists; the result names the traces that got something. */
    method Stage(batch: seq<Item>) returns (touched: set<string>)
      modifies this`pending
      ensures forall t :: ListOf(pending, t) == StagedAll(ListOf(old(pending), t), OfTrace(batch, t), cap)
      ensures forall t :: t in touched <==> |ListOf(pending, t)| != |ListOf(old(pending), t)|
      ensures forall t :: t !in touched ==> ListOf(pending, t) == ListOf(old(pending), t)
    {
      touched := {};
      ghost var before := pending;
      for i := 0 to |batch|
        invariant forall t :: ListOf(pending, t) == StagedAll(ListOf(before, t), OfTrace(batch[..i], t), cap)
        invariant forall t :: if t in touched then |ListOf(pending, t)| > |ListOf(before, t)| else ListOf(pending, t) == ListOf(before, t)
      {
        var admitted := StageItem(batch[i]);
        forall t ensures ListOf(pending, t) == StagedAll(ListOf(before, t), OfTrace(batch[..i + 1], t), cap) {
          StageNext(ListOf(before, t), batch, i, t, cap);
        }
        if admitted { touched := touched + {batch[i].Trace()}; }
      }
      assert batch[..|batch|] == batch;
    }

    method StageItem(item: Item) returns (admitted: bool)
      modifies this`pending
      ensures ListOf(pending, item.Trace()) == Staged(ListOf(old(pending), item.Trace()), item, cap)
      ensures forall t :: t != item.Trace() ==> ListOf(pending, t) == ListOf(old(pending), t)
      ensures if admitted then |ListOf(pending, item.Trace())| > |ListOf(old(pending), item.Trace())|
              else ListOf(pending, item.Trace()) == ListOf(old(pending), item.Trace())
    {
      var trace := item.Trace();
      var list := ListOf(pending, trace);
      pending := pending[trace := list];
      admitted := |list| < cap || item.IsRoot();
      if admitted { pending := pending[trace := list + [item]]; }
    }

    /** Passes over one trace's list. */
    method ExportTrace(trace: string)
      modifies this
      ensures DrainedTo(ListOf(old(pending), trace), ListOf(old(written), trace), ListOf(pending, trace), ListOf(written, trace))
      ensures forall t :: t != trace ==>
                            ListOf(pending, t) == ListOf(old(pending), t) && ListOf(written, t) == ListOf(old(written), t)
    {
      var p, list := DrainLoop(ListOf(pending, trace));
      if list == [] { pending := pending - {trace}; } else { pending := pending[trace := list]; }
      if p.out != [] { written := written[trace := ListOf(written, trace) + [p.out]]; }
    }

    /** The passes themselves. */
    static method DrainLoop(items: seq<Item>) returns (p: Progress, list: seq<Item>)
      ensures (p, list) == Drain(NOTHING, items)
    {
      p, list := NOTHING, items;
      var progressed := true;
      while list != [] && progressed
        invariant progressed ==> Drain(p, list) == Drain(NOTHING, items)
        invariant !progressed ==> (p, list) == Drain(NOTHING, items)
        decreases |list|, progressed
      {
        ghost var before := p;
        var left;
        p, left := PassLoop(p, list);
        progressed := |left| < |list|;
        list := left;
      }
    }

    static method PassLoop(before: Progress, list: seq<Item>) returns (p: Progress, left: seq<Item>)
      ensures (p, left) == Pass(before, list)
    {
      p, left := before, [];
      assert list[0..] == list;
      for i := 0 to |list|
        invariant Pass(before, list).0 == Pass(p, list[i..]).0
        invariant Pass(before, list).1 == left + Pass(p, list[i..]).1
      {
        assert list[i..][1..] == list[i + 1..];
        var (p', done) := Visit(p, list[i]);
        ghost var rest := Pass(p', list[i + 1..]).1;
        assert left + ([list[i]] + rest) == (left + [list[i]]) + rest;
        p := p';
        if !done { left := left + [list[i]]; }
      }
      assert list[|list|..] == [] && left + [] == left;
    }
  }
}
