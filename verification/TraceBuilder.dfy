/**
 From lifecycle events to spans. Each run keeps one open span per role; spans
 are emitted as they close, the root last.
 */
module TraceBuilder {
  import opened Common
  import opened SpanExport

  datatype OpenSpan = OpenSpan(spanId: SpanId, parent: Option<SpanId>, name: SpanName)

  datatype RunTrace = RunTrace(
    root: Option<OpenSpan>, executor: Option<OpenSpan>, evaluator: Option<OpenSpan>, reviewer: Option<OpenSpan>)

  const NEW_RUN := RunTrace(None, None, None, None)

  datatype Kind =
    | ExecutionDispatched
    | ExecutionCompleted
    | ComponentRetrying
    | VerificationStarted
    | IterationCompleted(recorded: bool, scored: bool)
    | EvaluationStarted
    | EvaluationEnded
    | Terminal(failed: bool)
    | Other

  /** An event, with the fresh identifiers its root and its role span would get. */
  datatype Event = Event(runId: string, kind: Kind, rootId: SpanId, spanId: SpanId)

  function Closed(span: OpenSpan, run: string, level: Level): Item {
    Span(run, span.spanId, span.parent, span.name, level)
  }

  /** Emitting a role's span, if it is open. */
  function Emitted(slot: Option<OpenSpan>, run: string, level: Level): seq<Item> {
    if slot.None? then [] else [Closed(slot.value, run, level)]
  }

  function Rooted(st: RunTrace, e: Event): RunTrace {
    if st.root.Some? then st else st.(root := Some(OpenSpan(e.rootId, None, RunSpan)))
  }

  function RoleSpan(st: RunTrace, e: Event, name: SpanName): OpenSpan {
    OpenSpan(e.spanId, if st.root.Some? then Some(st.root.value.spanId) else None, name)
  }

  /** A terminal event closes whatever is open, and then the root. */
  function Ended(st: RunTrace, e: Event): seq<Item>
    requires e.kind.Terminal?
  {
    var level := if e.kind.failed then Error else Ordinary;
    Emitted(st.evaluator, e.runId, level) + Emitted(st.executor, e.runId, level) + Emitted(st.reviewer, e.runId, level)
    + Emitted(Rooted(st, e).root, e.runId, level)
  }

  /** One event of a run: the roles still open, and what is emitted. */
  function Handled(st0: RunTrace, e: Event): (RunTrace, seq<Item>) {
    if e.kind.Terminal? then (NEW_RUN, Ended(st0, e)) else
      var st := Rooted(st0, e);
      match e.kind
      case ExecutionDispatched =>
        (st.(executor := Some(RoleSpan(st, e, ExecutorSpan))), Emitted(st.executor, e.runId, Error))
      case ExecutionCompleted => (st.(executor := None), Emitted(st.executor, e.runId, Ordinary))
      case ComponentRetrying => (st.(executor := None), Emitted(st.executor, e.runId, Error))
      case VerificationStarted => (st.(evaluator := Some(RoleSpan(st, e, VerifierSpan))), [])
      case IterationCompleted(recorded, scored) =>
        (st.(evaluator := None),
         Emitted(st.evaluator, e.runId, Ordinary)
         + (if recorded then [Closed(RoleSpan(st, e, IterationSpan), e.runId, Ordinary)] else [])
         + (if recorded && scored then [Score(e.runId, "verification")] else []))
      case EvaluationStarted => (st.(reviewer := Some(RoleSpan(st, e, ReviewerSpan))), [])
      case EvaluationEnded => (st.(reviewer := None), Emitted(st.reviewer, e.runId, Ordinary))
      case _ => (st, [])
  }

  lemma FromTheRight<T>(x: seq<T>, a: seq<T>, b: seq<T>, c: seq<T>, d: seq<T>)
    ensures x + a + b + c + d == x + (a + b + c + d)
  {
  }

  class Builder {
    var runs: map<string, RunTrace>
    /** Everything handed to the pipeline, in order. */
    var emitted: seq<Item>

    constructor ()
      ensures runs == map[] && emitted == []
    {
      runs, emitted := map[], [];
    }

    /** Runs do not disturb each other; a finished run is forgotten. */
    method Handle(e: Event)
      modifies this
      ensures Builders(runs, emitted) == HandledAmong(Builders(old(runs), old(emitted)), e)
    {
      var st := if e.runId in runs then runs[e.runId] else NEW_RUN;
      if e.kind.Terminal? {
        CloseRun(st, e);
        runs := runs - {e.runId};
        return;
      }
      if st.root.None? { st := st.(root := Some(OpenSpan(e.rootId, None, RunSpan))); }
      if e.kind.IterationCompleted? {
        st := CompleteIteration(st, e, e.kind.recorded, e.kind.scored);
      } else if e.kind.VerificationStarted? {
        st := st.(evaluator := Some(RoleSpan(st, e, VerifierSpan)));
      } else if e.kind.EvaluationStarted? {
        st := st.(reviewer := Some(RoleSpan(st, e, ReviewerSpan)));
      } else if e.kind.EvaluationEnded? {
        Emit(st.reviewer, e.runId, Ordinary);
        st := st.(reviewer := None);
      } else {
        st := MoveExecutor(st, e);
      }
      runs := runs[e.runId := st];
    }

    method CloseRun(st0: RunTrace, e: Event)
      requires e.kind.Terminal?
      modifies this`emitted
      ensures emitted == old(emitted) + Ended(st0, e)
    {
      var level := if e.kind.failed then Error else Ordinary;
      var st := Rooted(st0, e);
      Emit(st.evaluator, e.runId, level);
      Emit(st.executor, e.runId, level);
      Emit(st.reviewer, e.runId, level);
      Emit(st.root, e.runId, level);
      FromTheRight(old(emitted), Emitted(st.evaluator, e.runId, level), Emitted(st.executor, e.runId, level),
                   Emitted(st.reviewer, e.runId, level), Emitted(st.root, e.runId, level));
    }

    method MoveExecutor(st0: RunTrace, e: Event) returns (st: RunTrace)
      requires st0.root.Some? && (e.kind.ExecutionDispatched? || e.kind.ExecutionCompleted? || e.kind.ComponentRetrying? || e.kind.Other?)
      modifies this`emitted
      ensures st == Handled(st0, e).0 && emitted == old(emitted) + Handled(st0, e).1
    {
      st := st0;
      match e.kind {
        case ExecutionDispatched =>
          if st.executor.Some? { Emit(st.executor, e.runId, Error); }
          st := st.(executor := Some(RoleSpan(st, e, ExecutorSpan)));
        case ExecutionCompleted =>
          Emit(st.executor, e.runId, Ordinary);
          st := st.(executor := None);
        case ComponentRetrying =>
          Emit(st.executor, e.runId, Error);
          st := st.(executor := None);
        case _ =>
      }
    }

    method CompleteIteration(st0: RunTrace, e: Event, recorded: bool, scored: bool) returns (st: RunTrace)
      requires st0.root.Some? && e.kind == IterationCompleted(recorded, scored)
      modifies this`emitted
      ensures st == Handled(st0, e).0 && emitted == old(emitted) + Handled(st0, e).1
    {
      Emit(st0.evaluator, e.runId, Ordinary);
      st := st0.(evaluator := None);
      if recorded {
        emitted := emitted + [Closed(RoleSpan(st, e, IterationSpan), e.runId, Ordinary)];
        if scored { emitted := emitted + [Score(e.runId, "verification")]; }
      }
    }

    method Emit(slot: Option<OpenSpan>, run: string, level: Level)
      modifies this`emitted
      ensures emitted == old(emitted) + Emitted(slot, run, level)
    {
      if slot.Some? { emitted := emitted + [Closed(slot.value, run, level)]; }
    }
  }

  // One run, from its first event to its first terminal event.

  ghost predicate RunOf(events: seq<Event>, run: string) {
    && events != [] && events[|events| - 1].kind.Terminal?
    && (forall i :: 0 <= i < |events| ==> events[i].runId == run)
    && (forall i :: 0 <= i < |events| - 1 ==> !events[i].kind.Terminal?)
  }

  function Emissions(st: RunTrace, events: seq<Event>): seq<Item>
    decreases |events|
  {
    if events == [] then [] else Handled(st, events[0]).1 + Emissions(Handled(st, events[0]).0, events[1..])
  }

  /** Open role spans hang under the root and carry their role's name. */
  predicate RoleSound(slot: Option<OpenSpan>, root: SpanId, name: SpanName) {
    slot.Some? ==> slot.value.parent == Some(root) && slot.value.name == name
  }

  predicate TraceSound(st: RunTrace, root: SpanId) {
    && (st.root.Some? ==> st.root.value == OpenSpan(root, None, RunSpan))
    && (st.root.None? ==> st == NEW_RUN)
    && RoleSound(st.executor, root, ExecutorSpan) && RoleSound(st.evaluator, root, VerifierSpan)
    && RoleSound(st.reviewer, root, ReviewerSpan)
  }

  /** Not the root, and a child of it. */
  predicate UnderRoot(x: Item, run: string, root: SpanId) {
    x.Trace() == run && (x.Span? ==> x.parent == Some(root))
  }

  lemma RoleUnderRoot(slot: Option<OpenSpan>, run: string, level: Level, root: SpanId, name: SpanName)
    requires RoleSound(slot, root, name)
    ensures forall x :: x in Emitted(slot, run, level) ==> UnderRoot(x, run, root)
  {
  }

  lemma HandledSound(st: RunTrace, e: Event, root: SpanId)
    requires TraceSound(st, root) && !e.kind.Terminal? && (st.root.None? ==> e.rootId == root)
    ensures TraceSound(Handled(st, e).0, root) && Handled(st, e).0.root.Some?
  {
  }

  lemma HandledUnderRoot(st: RunTrace, e: Event, root: SpanId)
    requires TraceSound(st, root) && !e.kind.Terminal? && (st.root.None? ==> e.rootId == root)
    ensures forall x :: x in Handled(st, e).1 ==> UnderRoot(x, e.runId, root)
  {
    var level := if e.kind.ExecutionCompleted? then Ordinary else Error;
    RoleUnderRoot(st.executor, e.runId, level, root, ExecutorSpan);
    RoleUnderRoot(st.evaluator, e.runId, Ordinary, root, VerifierSpan);
    RoleUnderRoot(st.reviewer, e.runId, Ordinary, root, ReviewerSpan);
  }

  lemma EndedSound(st: RunTrace, e: Event, root: SpanId)
    requires TraceSound(st, root) && e.kind.Terminal? && (st.root.None? ==> e.rootId == root)
    ensures var out := Ended(st, e);
            && out != [] && out[|out| - 1] == Span(e.runId, root, None, RunSpan, if e.kind.failed then Error else Ordinary)
            && forall x :: x in out[..|out| - 1] ==> UnderRoot(x, e.runId, root)
  {
    var level := if e.kind.failed then Error else Ordinary;
    var a, b, c := Emitted(st.evaluator, e.runId, level), Emitted(st.executor, e.runId, level), Emitted(st.reviewer, e.runId, level);
    RoleUnderRoot(st.evaluator, e.runId, level, root, VerifierSpan);
    RoleUnderRoot(st.executor, e.runId, level, root, ExecutorSpan);
    RoleUnderRoot(st.reviewer, e.runId, level, root, ReviewerSpan);
    var last := Closed(Rooted(st, e).root.value, e.runId, level);
    assert Ended(st, e) == (a + b + c) + [last];
    assert Ended(st, e)[..|Ended(st, e)| - 1] == a + b + c;
  }

  /** The shape of a finished run's emissions. */
  ghost predicate EndsInRoot(out: seq<Item>, run: string, root: SpanId, failed: bool) {
    && out != [] && out[|out| - 1] == Span(run, root, None, RunSpan, if failed then Error else Ordinary)
    && forall x :: x in out[..|out| - 1] ==> UnderRoot(x, run, root)
  }

  lemma MoreBefore(first: seq<Item>, rest: seq<Item>, run: string, root: SpanId, failed: bool)
    requires EndsInRoot(rest, run, root, failed) && forall x :: x in first ==> UnderRoot(x, run, root)
    ensures EndsInRoot(first + rest, run, root, failed)
  {
    assert (first + rest)[..|first + rest| - 1] == first + rest[..|rest| - 1];
  }

  /** The root comes last, an error if the run failed, and everything before it is a score or a child of the root. */
  lemma {:induction false} RootComesLast(st: RunTrace, events: seq<Event>, run: string, root: SpanId)
    requires RunOf(events, run) && TraceSound(st, root) && (st.root.None? ==> events[0].rootId == root)
    ensures EndsInRoot(Emissions(st, events), run, root, events[|events| - 1].kind.failed)
    decreases |events|
  {
    var e := events[0];
    if |events| == 1 {
      assert events[1..] == [];
      EndedSound(st, e, root);
      assert Emissions(st, events) == Ended(st, e);
    } else {
      HandledSound(st, e, root);
      HandledUnderRoot(st, e, root);
      RootComesLast(Handled(st, e).0, events[1..], run, root);
      MoreBefore(Handled(st, e).1, Emissions(Handled(st, e).0, events[1..]), run, root, events[|events| - 1].kind.failed);
    }
  }

  // Which spans come out, and how they are marked.

  /** A span that comes out, and whether it is marked as an error. */
  datatype Outcome = Outcome(spanId: SpanId, level: Level)

  function OutcomesNamed(items: seq<Item>, name: SpanName): seq<Outcome> {
    if items == [] then []
    else (if items[0].Span? && items[0].name == name then [Outcome(items[0].spanId, items[0].level)] else [])
         + OutcomesNamed(items[1..], name)
  }

  lemma {:induction false} OutcomesAppend(a: seq<Item>, b: seq<Item>, name: SpanName)
    ensures OutcomesNamed(a + b, name) == OutcomesNamed(a, name) + OutcomesNamed(b, name)
  {
    if a == [] {
      assert a + b == b;
    } else {
      assert (a + b)[1..] == a[1..] + b;
      OutcomesAppend(a[1..], b, name);
    }
  }

  function OutcomeOf(slot: Option<SpanId>, level: Level): seq<Outcome> {
    if slot.None? then [] else [Outcome(slot.value, level)]
  }

  function IdIn(slot: Option<OpenSpan>): Option<SpanId> {
    if slot.None? then None else Some(slot.value.spanId)
  }

  datatype Role = Executor | Evaluator | Reviewer

  function NameOf(role: Role): SpanName {
    match role case Executor => ExecutorSpan case Evaluator => VerifierSpan case Reviewer => ReviewerSpan
  }

  function SlotOf(st: RunTrace, role: Role): Option<SpanId> {
    match role case Executor => IdIn(st.executor) case Evaluator => IdIn(st.evaluator) case Reviewer => IdIn(st.reviewer)
  }

  predicate Opens(kind: Kind, role: Role) {
    match role
    case Executor => kind.ExecutionDispatched?
    case Evaluator => kind.VerificationStarted?
    case Reviewer => kind.EvaluationStarted?
  }

  predicate Closes(kind: Kind, role: Role) {
    || kind.Terminal?
    || match role
       case Executor => kind.ExecutionCompleted? || kind.ComponentRetrying?
       case Evaluator => kind.IterationCompleted?
       case Reviewer => kind.EvaluationEnded?
  }

  /** The event that closes a span marks it as an error if the run failed, or if the executor was retried or replaced. */
  function Mark(kind: Kind): Level {
    if kind == Terminal(true) || kind.ComponentRetrying? || kind.ExecutionDispatched? then Error else Ordinary
  }

  /** The mark that a span of `role`, open before these events, gets from the event that closes it. */
  function ClosingMark(events: seq<Event>, role: Role): Level {
    if events == [] then Ordinary
    else if Closes(events[0].kind, role) || (role.Executor? && Opens(events[0].kind, role)) then Mark(events[0].kind)
    else ClosingMark(events[1..], role)
  }

  /** A span of `role` open before these events is lost: the role opens again before it closes, and only an
      executor is closed by that. */
  predicate Superseded(events: seq<Event>, role: Role) {
    if events == [] || role.Executor? || Closes(events[0].kind, role) then false
    else Opens(events[0].kind, role) || Superseded(events[1..], role)
  }

  /** The spans of `role` that the events open and do not lose, as they will be marked. */
  function Surviving(events: seq<Event>, role: Role): seq<Outcome> {
    if events == [] then [] else
      (if Opens(events[0].kind, role) && !Superseded(events[1..], role)
       then [Outcome(events[0].spanId, ClosingMark(events[1..], role))] else [])
      + Surviving(events[1..], role)
  }

  lemma EmittedOutcomes(slot: Option<OpenSpan>, run: string, level: Level, own: SpanName, name: SpanName)
    requires slot.Some? ==> slot.value.name == own
    ensures OutcomesNamed(Emitted(slot, run, level), name) == if own == name then OutcomeOf(IdIn(slot), level) else []
  {
    if slot.Some? {
      var items := Emitted(slot, run, level);
      assert items[1..] == [];
    }
  }

  lemma OutcomesAppendThree(a: seq<Item>, b: seq<Item>, c: seq<Item>, name: SpanName)
    ensures OutcomesNamed(a + b + c, name) == OutcomesNamed(a, name) + OutcomesNamed(b, name) + OutcomesNamed(c, name)
  {
    OutcomesAppend(a, b, name);
    OutcomesAppend(a + b, c, name);
  }

  lemma IterationOutcomes(st: RunTrace, e: Event, name: SpanName)
    requires e.kind.IterationCompleted? && (st.evaluator.Some? ==> st.evaluator.value.name == VerifierSpan)
    ensures OutcomesNamed(Emitted(st.evaluator, e.runId, Ordinary)
                          + (if e.kind.recorded then [Closed(RoleSpan(st, e, IterationSpan), e.runId, Ordinary)] else [])
                          + (if e.kind.recorded && e.kind.scored then [Score(e.runId, "verification")] else []), name)
         == if name == VerifierSpan then OutcomeOf(IdIn(st.evaluator), Ordinary)
            else if name == IterationSpan && e.kind.recorded then [Outcome(e.spanId, Ordinary)] else []
  {
    var a := Emitted(st.evaluator, e.runId, Ordinary);
    var b := if e.kind.recorded then [Closed(RoleSpan(st, e, IterationSpan), e.runId, Ordinary)] else [];
    var c := if e.kind.recorded && e.kind.scored then [Score(e.runId, "verification")] else [];
    OutcomesAppendThree(a, b, c, name);
    EmittedOutcomes(st.evaluator, e.runId, Ordinary, VerifierSpan, name);
  }

  lemma EndedOutcomes(st: RunTrace, e: Event, root: SpanId, role: Role)
    requires e.kind.Terminal? && TraceSound(st, root)
    ensures OutcomesNamed(Ended(st, e), NameOf(role)) == OutcomeOf(SlotOf(st, role), Mark(e.kind))
  {
    RolesOutcomes(st.evaluator, st.executor, st.reviewer, Rooted(st, e).root, e.runId, Mark(e.kind), NameOf(role));
  }

  lemma RolesOutcomes(evaluator: Option<OpenSpan>, executor: Option<OpenSpan>, reviewer: Option<OpenSpan>, root: Option<OpenSpan>,
                      run: string, level: Level, name: SpanName)
    requires (evaluator.Some? ==> evaluator.value.name == VerifierSpan) && (executor.Some? ==> executor.value.name == ExecutorSpan)
    requires (reviewer.Some? ==> reviewer.value.name == ReviewerSpan) && (root.Some? ==> root.value.name == RunSpan)
    requires name != RunSpan
    ensures OutcomesNamed(Emitted(evaluator, run, level) + Emitted(executor, run, level) + Emitted(reviewer, run, level)
                          + Emitted(root, run, level), name)
         == (if name == VerifierSpan then OutcomeOf(IdIn(evaluator), level) else [])
            + (if name == ExecutorSpan then OutcomeOf(IdIn(executor), level) else [])
            + (if name == ReviewerSpan then OutcomeOf(IdIn(reviewer), level) else [])
  {
    EmittedOutcomes(evaluator, run, level, VerifierSpan, name);
    EmittedOutcomes(executor, run, level, ExecutorSpan, name);
    EmittedOutcomes(reviewer, run, level, ReviewerSpan, name);
    EmittedOutcomes(root, run, level, RunSpan, name);
    FourOutcomes(Emitted(evaluator, run, level), Emitted(executor, run, level), Emitted(reviewer, run, level),
                 Emitted(root, run, level), name, if name == VerifierSpan then OutcomeOf(IdIn(evaluator), level) else [],
                 if name == ExecutorSpan then OutcomeOf(IdIn(executor), level) else [],
                 if name == ReviewerSpan then OutcomeOf(IdIn(reviewer), level) else []);
  }

  lemma FourOutcomes(a: seq<Item>, b: seq<Item>, c: seq<Item>, d: seq<Item>, name: SpanName,
                     x: seq<Outcome>, y: seq<Outcome>, z: seq<Outcome>)
    requires OutcomesNamed(a, name) == x && OutcomesNamed(b, name) == y && OutcomesNamed(c, name) == z
    requires OutcomesNamed(d, name) == []
    ensures OutcomesNamed(a + b + c + d, name) == x + y + z
  {
    OutcomesAppendThree(a, b, c, name);
    OutcomesAppend(a + b + c, d, name);
  }

  /** What one event emits of a role. */
  lemma HandledOutcomes(st: RunTrace, e: Event, root: SpanId, role: Role)
    requires TraceSound(st, root)
    ensures OutcomesNamed(Handled(st, e).1, NameOf(role)) ==
            if Closes(e.kind, role) || (role.Executor? && Opens(e.kind, role)) then OutcomeOf(SlotOf(st, role), Mark(e.kind)) else []
  {
    if e.kind.Terminal? {
      EndedOutcomes(st, e, root, role);
    } else if e.kind.IterationCompleted? {
      IterationOutcomes(Rooted(st, e), e, NameOf(role));
    } else if e.kind.EvaluationEnded? {
      EmittedOutcomes(st.reviewer, e.runId, Ordinary, ReviewerSpan, NameOf(role));
    } else {
      EmittedOutcomes(st.executor, e.runId, Ordinary, ExecutorSpan, NameOf(role));
      EmittedOutcomes(st.executor, e.runId, Error, ExecutorSpan, NameOf(role));
    }
  }

  /** What one event leaves open of a role. */
  lemma HandledSlot(st: RunTrace, e: Event, role: Role)
    requires !e.kind.Terminal?
    ensures SlotOf(Handled(st, e).0, role) ==
            if Opens(e.kind, role) then Some(e.spanId) else if Closes(e.kind, role) then None else SlotOf(st, role)
  {
  }

  /** One event, as far as the list of surviving spans is concerned. */
  lemma SurvivorsStep(events: seq<Event>, role: Role, slot: Option<SpanId>, slot': Option<SpanId>, rest: seq<Outcome>)
    requires events != []
    requires var kind := events[0].kind;
             slot' == if Opens(kind, role) then Some(events[0].spanId) else if Closes(kind, role) then None else slot
    requires rest == (if Superseded(events[1..], role) then [] else OutcomeOf(slot', ClosingMark(events[1..], role)))
                     + Surviving(events[1..], role)
    ensures var kind := events[0].kind;
            (if Closes(kind, role) || (role.Executor? && Opens(kind, role)) then OutcomeOf(slot, Mark(kind)) else []) + rest
            == (if Superseded(events, role) then [] else OutcomeOf(slot, ClosingMark(events, role))) + Surviving(events, role)
  {
    if role.Executor? { ExecutorsNotSuperseded(events[1..]); }
    SupersededStep(events, role);
    SurvivingStep(events, role);
  }

  lemma SupersededStep(events: seq<Event>, role: Role)
    requires events != []
    ensures Superseded(events, role)
         <==> !role.Executor? && !Closes(events[0].kind, role) && (Opens(events[0].kind, role) || Superseded(events[1..], role))
    ensures !(Opens(events[0].kind, role) && Closes(events[0].kind, role))
  {
  }

  lemma SurvivingStep(events: seq<Event>, role: Role)
    requires events != []
    ensures Surviving(events, role)
         == (if Opens(events[0].kind, role) && !Superseded(events[1..], role)
             then [Outcome(events[0].spanId, ClosingMark(events[1..], role))] else [])
            + Surviving(events[1..], role)
  {
  }

  lemma ExecutorsNotSuperseded(events: seq<Event>)
    ensures !Superseded(events, Executor)
  {
  }

  /** Every opened span of a role is emitted exactly once, in order and marked by the event that closed it, except those
      superseded while open. */
  lemma {:induction false} EmitsSurviving(st: RunTrace, events: seq<Event>, run: string, root: SpanId, role: Role)
    requires RunOf(events, run) && TraceSound(st, root) && (st.root.None? ==> events[0].rootId == root)
    ensures OutcomesNamed(Emissions(st, events), NameOf(role)) ==
            (if Superseded(events, role) then [] else OutcomeOf(SlotOf(st, role), ClosingMark(events, role))) + Surviving(events, role)
    decreases |events|
  {
    var e := events[0];
    var st' := Handled(st, e).0;
    HandledOutcomes(st, e, root, role);
    OutcomesAppend(Handled(st, e).1, Emissions(st', events[1..]), NameOf(role));
    if |events| == 1 {
      assert events[1..] == [];
      SurvivorsStep(events, role, SlotOf(st, role), None, []);
    } else {
      HandledSound(st, e, root);
      HandledSlot(st, e, role);
      EmitsSurviving(st', events[1..], run, root, role);
      SurvivorsStep(events, role, SlotOf(st, role), SlotOf(st', role), OutcomesNamed(Emissions(st', events[1..]), NameOf(role)));
    }
  }

  /** It does happen, for either role: of two spans opened in a row only the second comes out. */
  lemma OpenedTwiceIsLost(role: Role, first: SpanId, second: SpanId) returns (events: seq<Event>)
    requires !role.Executor?
    ensures RunOf(events, "r") && |events| == 3
    ensures Opens(events[0].kind, role) && events[0].spanId == first && Opens(events[1].kind, role) && events[1].spanId == second
    ensures OutcomesNamed(Emissions(NEW_RUN, events), NameOf(role)) == [Outcome(second, Ordinary)]
  {
    var kind := if role.Evaluator? then VerificationStarted else EvaluationStarted;
    events := [Event("r", kind, 0, first), Event("r", kind, 0, second), Event("r", Terminal(false), 0, 0)];
    EmitsSurviving(NEW_RUN, events, "r", 0, role);
    var rest, end := events[1..], events[2..];
    assert rest[0] == events[1] && rest[1..] == end && end[0] == events[2] && end[1..] == [];
    assert Superseded(rest, role) && !Superseded(end, role);
    assert Surviving(end, role) == [];
    assert Surviving(rest, role) == [Outcome(second, Ordinary)];
  }

  function Dispatched(events: seq<Event>): seq<Outcome> {
    if events == [] then []
    else (if events[0].kind.ExecutionDispatched? then [Outcome(events[0].spanId, ClosingMark(events[1..], Executor))] else [])
         + Dispatched(events[1..])
  }

  lemma {:induction false} ExecutorsSurvive(events: seq<Event>)
    ensures Surviving(events, Executor) == Dispatched(events)
  {
    if events != [] { ExecutorsSurvive(events[1..]); }
  }

  /** No executor span is lost: they come out one for one, in the order they were opened, an error exactly if the run
      failed while they were open, or they were retried, or replaced by the next. */
  lemma ExecutorsComeOut(events: seq<Event>, run: string)
    requires RunOf(events, run)
    ensures OutcomesNamed(Emissions(NEW_RUN, events), ExecutorSpan) == Dispatched(events)
  {
    EmitsSurviving(NEW_RUN, events, run, events[0].rootId, Executor);
    ExecutorsSurvive(events);
  }

  // Iterations and scores.

  function Recorded(events: seq<Event>): seq<Outcome> {
    if events == [] then []
    else (if events[0].kind.IterationCompleted? && events[0].kind.recorded then [Outcome(events[0].spanId, Ordinary)] else [])
         + Recorded(events[1..])
  }

  lemma EndedNoIterations(st: RunTrace, e: Event, root: SpanId)
    requires e.kind.Terminal? && TraceSound(st, root)
    ensures OutcomesNamed(Ended(st, e), IterationSpan) == []
  {
    RolesOutcomes(st.evaluator, st.executor, st.reviewer, Rooted(st, e).root, e.runId, Mark(e.kind), IterationSpan);
  }

  lemma HandledIterations(st: RunTrace, e: Event, root: SpanId)
    requires TraceSound(st, root)
    ensures OutcomesNamed(Handled(st, e).1, IterationSpan) == Recorded([e])
  {
    assert [e][1..] == [];
    if e.kind.Terminal? {
      EndedNoIterations(st, e, root);
    } else if e.kind.IterationCompleted? {
      IterationOutcomes(Rooted(st, e), e, IterationSpan);
    } else {
      EmittedOutcomes(st.reviewer, e.runId, Ordinary, ReviewerSpan, IterationSpan);
      EmittedOutcomes(st.executor, e.runId, Ordinary, ExecutorSpan, IterationSpan);
      EmittedOutcomes(st.executor, e.runId, Error, ExecutorSpan, IterationSpan);
    }
  }

  lemma RecordedFirst(events: seq<Event>)
    requires events != []
    ensures Recorded(events) == Recorded([events[0]]) + Recorded(events[1..])
  {
    assert [events[0]][1..] == [];
  }

  /** Every recorded iteration comes out as one ordinary span, in order. */
  lemma {:induction false} IterationsComeOut(st: RunTrace, events: seq<Event>, run: string, root: SpanId)
    requires RunOf(events, run) && TraceSound(st, root) && (st.root.None? ==> events[0].rootId == root)
    ensures OutcomesNamed(Emissions(st, events), IterationSpan) == Recorded(events)
    decreases |events|
  {
    var e := events[0];
    HandledIterations(st, e, root);
    RecordedFirst(events);
    OutcomesAppend(Handled(st, e).1, Emissions(Handled(st, e).0, events[1..]), IterationSpan);
    if |events| == 1 {
      assert events[1..] == [];
    } else {
      HandledSound(st, e, root);
      IterationsComeOut(Handled(st, e).0, events[1..], run, root);
    }
  }

  function Scores(items: seq<Item>): seq<Item> {
    if items == [] then [] else if items[0].Score? then [items[0]] + Scores(items[1..]) else Scores(items[1..])
  }

  function ScoredIterations(events: seq<Event>): seq<Item> {
    if events == [] then []
    else (if events[0].kind.IterationCompleted? && events[0].kind.recorded && events[0].kind.scored
          then [Score(events[0].runId, "verification")] else [])
         + ScoredIterations(events[1..])
  }

  lemma {:induction false} ScoresAppend(a: seq<Item>, b: seq<Item>)
    ensures Scores(a + b) == Scores(a) + Scores(b)
  {
    if a == [] {
      assert a + b == b;
    } else {
      assert (a + b)[1..] == a[1..] + b;
      ScoresAppend(a[1..], b);
    }
  }

  lemma {:induction false} NoScores(items: seq<Item>)
    requires forall x :: x in items ==> x.Span?
    ensures Scores(items) == []
  {
    if items != [] {
      assert items[0] in items;
      NoScores(items[1..]);
    }
  }

  lemma HandledScores(st: RunTrace, e: Event)
    ensures Scores(Handled(st, e).1) == ScoredIterations([e])
  {
    assert [e][1..] == [];
    if e.kind.IterationCompleted? {
      var spans := Emitted(st.evaluator, e.runId, Ordinary)
                   + if e.kind.recorded then [Closed(RoleSpan(Rooted(st, e), e, IterationSpan), e.runId, Ordinary)] else [];
      var scores := if e.kind.recorded && e.kind.scored then [Score(e.runId, "verification")] else [];
      NoScores(spans);
      ScoresAppend(spans, scores);
      assert scores != [] ==> scores[1..] == [];
    } else {
      HandledNoScores(st, e);
      NoScores(Handled(st, e).1);
    }
  }

  lemma HandledNoScores(st: RunTrace, e: Event)
    requires !e.kind.IterationCompleted?
    ensures forall x :: x in Handled(st, e).1 ==> x.Span?
  {
    forall slot: Option<OpenSpan>, level: Level, x | x in Emitted(slot, e.runId, level) ensures x.Span? { }
  }

  lemma ScoredFirst(events: seq<Event>)
    requires events != []
    ensures ScoredIterations(events) == ScoredIterations([events[0]]) + ScoredIterations(events[1..])
  {
    assert [events[0]][1..] == [];
  }

  /** Every recorded and scored iteration comes out as one score. */
  lemma {:induction false} ScoresComeOut(st: RunTrace, events: seq<Event>)
    ensures Scores(Emissions(st, events)) == ScoredIterations(events)
    decreases |events|
  {
    if events != [] {
      var later := Emissions(Handled(st, events[0]).0, events[1..]);
      HandledScores(st, events[0]);
      ScoredFirst(events);
      ScoresAppend(Handled(st, events[0]).1, later);
      ScoresComeOut(Handled(st, events[0]).0, events[1..]);
    }
  }

  // Many runs at once.

  /** All runs' open roles, and everything emitted. */
  datatype Builders = Builders(runs: map<string, RunTrace>, emitted: seq<Item>)

  function StateFor(runs: map<string, RunTrace>, run: string): RunTrace {
    if run in runs then runs[run] else NEW_RUN
  }

  /** What `Builder.Handle` does. */
  function HandledAmong(b: Builders, e: Event): Builders {
    var (st, out) := Handled(StateFor(b.runs, e.runId), e);
    Builders(if e.kind.Terminal? then b.runs - {e.runId} else b.runs[e.runId := st], b.emitted + out)
  }

  function AfterAll(events: seq<Event>): Builders {
    if events == [] then Builders(map[], []) else HandledAmong(AfterAll(events[..|events| - 1]), events[|events| - 1])
  }

  function EventsOf(events: seq<Event>, run: string): seq<Event> {
    if events == [] then [] else
      EventsOf(events[..|events| - 1], run) + if events[|events| - 1].runId == run then [events[|events| - 1]] else []
  }

  function StateAfter(st: RunTrace, events: seq<Event>): RunTrace
    decreases |events|
  {
    if events == [] then st else StateAfter(Handled(st, events[0]).0, events[1..])
  }

  /** Running any step function over a list of events: the state it ends in, and all that comes out. */
  function Ran<S, E, O>(step: (S, E) -> (S, seq<O>), st: S, events: seq<E>): (S, seq<O>)
    decreases |events|
  {
    if events == [] then (st, []) else
      var (st1, out) := step(st, events[0]);
      var (st2, later) := Ran(step, st1, events[1..]);
      (st2, out + later)
  }

  lemma {:induction false} RanAppend<S, E, O>(step: (S, E) -> (S, seq<O>), st: S, events: seq<E>, e: E)
    ensures var (st1, out) := Ran(step, st, events);
            Ran(step, st, events + [e]) == (step(st1, e).0, out + step(st1, e).1)
    decreases |events|
  {
    if events == [] {
      assert events + [e] == [e] && [e][1..] == [];
      var (st1, out) := step(st, e);
      assert Ran(step, st1, []) == (st1, []);
      assert out + [] == [] + out;
    } else {
      assert (events + [e])[1..] == events[1..] + [e];
      var (st1, out) := step(st, events[0]);
      var (st2, later) := Ran(step, st1, events[1..]);
      RanAppend(step, st1, events[1..], e);
      assert out + (later + step(st2, e).1) == out + later + step(st2, e).1;
    }
  }

  lemma {:induction false} EmissionsRan(st: RunTrace, events: seq<Event>)
    ensures Ran(Handled, st, events) == (StateAfter(st, events), Emissions(st, events))
    decreases |events|
  {
    if events != [] { EmissionsRan(Handled(st, events[0]).0, events[1..]); }
  }

  lemma EmissionsAppend(st: RunTrace, events: seq<Event>, e: Event)
    ensures Emissions(st, events + [e]) == Emissions(st, events) + Handled(StateAfter(st, events), e).1
    ensures StateAfter(st, events + [e]) == Handled(StateAfter(st, events), e).0
  {
    EmissionsRan(st, events);
    EmissionsRan(st, events + [e]);
    RanAppend(Handled, st, events, e);
  }

  lemma {:induction false} OfTraceAppend(a: seq<Item>, b: seq<Item>, trace: string)
    ensures OfTrace(a + b, trace) == OfTrace(a, trace) + OfTrace(b, trace)
    decreases |b|
  {
    if b == [] {
      assert a + b == a;
    } else {
      var n := |b| - 1;
      assert (a + b)[..|a + b| - 1] == a + b[..n];
      OfTraceAppend(a, b[..n], trace);
    }
  }

  lemma {:induction false} AllOfOneTrace(items: seq<Item>, run: string, trace: string)
    requires forall x :: x in items ==> x.Trace() == run
    ensures OfTrace(items, trace) == if trace == run then items else []
  {
    if items != [] {
      assert items == items[..|items| - 1] + [items[|items| - 1]];
      AllOfOneTrace(items[..|items| - 1], run, trace);
    }
  }

  lemma EmittedTraces(slot: Option<OpenSpan>, run: string, level: Level)
    ensures forall x :: x in Emitted(slot, run, level) ==> x.Trace() == run
  {
  }

  lemma HandledTraces(st: RunTrace, e: Event)
    ensures forall x :: x in Handled(st, e).1 ==> x.Trace() == e.runId
  {
    forall slot: Option<OpenSpan>, level: Level, x | x in Emitted(slot, e.runId, level) ensures x.Trace() == e.runId {
      EmittedTraces(slot, e.runId, level);
    }
  }

  /** One more event, as far as `run` is concerned, of which `own` are the events so far. */
  lemma OneMore(b: Builders, e: Event, run: string, own: seq<Event>, st: RunTrace, out: seq<Item>)
    requires OfTrace(b.emitted, run) == Emissions(NEW_RUN, own) && StateFor(b.runs, run) == StateAfter(NEW_RUN, own)
    requires forall x :: x in out ==> x.Trace() == e.runId
    requires e.kind.Terminal? ==> st == NEW_RUN
    requires e.runId == run ==> Emissions(NEW_RUN, own + [e]) == Emissions(NEW_RUN, own) + out
    requires e.runId == run ==> StateAfter(NEW_RUN, own + [e]) == st
    ensures var own' := own + if e.runId == run then [e] else [];
            && OfTrace(b.emitted + out, run) == Emissions(NEW_RUN, own')
            && StateFor(if e.kind.Terminal? then b.runs - {e.runId} else b.runs[e.runId := st], run) == StateAfter(NEW_RUN, own')
  {
    OfTraceAppend(b.emitted, out, run);
    AllOfOneTrace(out, e.runId, run);
    if e.runId != run { assert own + [] == own; }
  }

  /** Runs do not disturb each other: of everything emitted, a run's share is what its own events emit. */
  lemma {:induction false} RunsApart(events: seq<Event>, run: string)
    ensures OfTrace(AfterAll(events).emitted, run) == Emissions(NEW_RUN, EventsOf(events, run))
    ensures StateFor(AfterAll(events).runs, run) == StateAfter(NEW_RUN, EventsOf(events, run))
  {
    if events != [] {
      var n := |events| - 1;
      RunsApart(events[..n], run);
      NextApart(AfterAll(events[..n]), events[n], run, EventsOf(events[..n], run));
    }
  }

  lemma NextApart(b: Builders, e: Event, run: string, own: seq<Event>)
    requires OfTrace(b.emitted, run) == Emissions(NEW_RUN, own) && StateFor(b.runs, run) == StateAfter(NEW_RUN, own)
    ensures var own' := own + if e.runId == run then [e] else [];
            && OfTrace(HandledAmong(b, e).emitted, run) == Emissions(NEW_RUN, own')
            && StateFor(HandledAmong(b, e).runs, run) == StateAfter(NEW_RUN, own')
  {
    var (st, out) := Handled(StateFor(b.runs, e.runId), e);
    HandledTraces(StateFor(b.runs, e.runId), e);
    if e.runId == run { EmissionsAppend(NEW_RUN, own, e); }
    OneMore(b, e, run, own, st, out);
  }
}
