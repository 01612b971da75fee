/**
 The usage ledger: reserve before a call, settle after it, on several scopes at
 once. The functions give every operation's effect on any ledger; class
 `UsageLedger` runs them scope by scope and is proved to agree. A method body
 runs under the ledger's lock, so it is one step.
 */
module Usage {
  import opened Common
  import opened Text

  type Positive = n: int | n > 0 witness 1

  datatype Resource =
    | ModelCalls | InputTokens | OutputTokens | TotalTokens
    | CacheHitTokens | CacheMissTokens | ReasoningTokens
    | ToolCalls | AgentTasks | Attempts
    | Cost(currency: string)

  /** A checked amount: nothing negative, and only the costs that are not zero. */
  datatype Amount = Amount(
    modelCalls: nat, inputTokens: nat, outputTokens: nat, totalTokens: nat,
    cacheHitTokens: nat, cacheMissTokens: nat, reasoningTokens: nat,
    toolCalls: nat, agentTasks: nat, attempts: nat,
    costs: map<string, Positive>)

  const ZERO := Amount(0, 0, 0, 0, 0, 0, 0, 0, 0, 0, map[])

  function CostFor(a: Amount, currency: string): nat {
    if currency in a.costs then a.costs[currency] else 0
  }

  function Of(a: Amount, res: Resource): nat {
    match res
    case ModelCalls => a.modelCalls
    case InputTokens => a.inputTokens
    case OutputTokens => a.outputTokens
    case TotalTokens => a.totalTokens
    case CacheHitTokens => a.cacheHitTokens
    case CacheMissTokens => a.cacheMissTokens
    case ReasoningTokens => a.reasoningTokens
    case ToolCalls => a.toolCalls
    case AgentTasks => a.agentTasks
    case Attempts => a.attempts
    case Cost(currency) => CostFor(a, currency)
  }

  /** Componentwise order. */
  ghost predicate AtMost(a: Amount, b: Amount) {
    forall res :: Of(a, res) <= Of(b, res)
  }

  function Add(a: Amount, b: Amount): Amount {
    Amount(a.modelCalls + b.modelCalls, a.inputTokens + b.inputTokens, a.outputTokens + b.outputTokens,
           a.totalTokens + b.totalTokens, a.cacheHitTokens + b.cacheHitTokens, a.cacheMissTokens + b.cacheMissTokens,
           a.reasoningTokens + b.reasoningTokens, a.toolCalls + b.toolCalls, a.agentTasks + b.agentTasks,
           a.attempts + b.attempts,
           map c | c in a.costs.Keys + b.costs.Keys :: CostFor(a, c) + CostFor(b, c))
  }

  lemma AddOf(a: Amount, b: Amount)
    ensures forall res :: Of(Add(a, b), res) == Of(a, res) + Of(b, res)
  {
  }

  /** A negative component makes the result an invalid amount, which is refused. */
  function Subtract(a: Amount, b: Amount): (r: Option<Amount>)
    ensures r.Some? <==> AtMost(b, a)
    ensures r.Some? ==> forall res :: Of(r.value, res) == Of(a, res) - Of(b, res)
  {
    if && a.modelCalls >= b.modelCalls && a.inputTokens >= b.inputTokens && a.outputTokens >= b.outputTokens
       && a.totalTokens >= b.totalTokens && a.cacheHitTokens >= b.cacheHitTokens
       && a.cacheMissTokens >= b.cacheMissTokens && a.reasoningTokens >= b.reasoningTokens
       && a.toolCalls >= b.toolCalls && a.agentTasks >= b.agentTasks && a.attempts >= b.attempts
       && forall c | c in b.costs :: CostFor(a, c) >= b.costs[c]
    then
      Some(Amount(a.modelCalls - b.modelCalls, a.inputTokens - b.inputTokens, a.outputTokens - b.outputTokens,
                  a.totalTokens - b.totalTokens, a.cacheHitTokens - b.cacheHitTokens,
                  a.cacheMissTokens - b.cacheMissTokens, a.reasoningTokens - b.reasoningTokens,
                  a.toolCalls - b.toolCalls, a.agentTasks - b.agentTasks, a.attempts - b.attempts,
                  map c | c in a.costs && a.costs[c] > CostFor(b, c) :: a.costs[c] - CostFor(b, c)))
    else
      NotAtMost(a, b);
      None
  }

  lemma NotAtMost(a: Amount, b: Amount)
    ensures AtMost(b, a) ==>
              && a.modelCalls >= b.modelCalls && a.inputTokens >= b.inputTokens && a.outputTokens >= b.outputTokens
              && a.totalTokens >= b.totalTokens && a.cacheHitTokens >= b.cacheHitTokens
              && a.cacheMissTokens >= b.cacheMissTokens && a.reasoningTokens >= b.reasoningTokens
              && a.toolCalls >= b.toolCalls && a.agentTasks >= b.agentTasks && a.attempts >= b.attempts
              && forall c | c in b.costs :: CostFor(a, c) >= b.costs[c]
  {
    if AtMost(b, a) {
      assert Of(b, ModelCalls) <= Of(a, ModelCalls);
      assert Of(b, InputTokens) <= Of(a, InputTokens);
      assert Of(b, OutputTokens) <= Of(a, OutputTokens);
      assert Of(b, TotalTokens) <= Of(a, TotalTokens);
      assert Of(b, CacheHitTokens) <= Of(a, CacheHitTokens);
      assert Of(b, CacheMissTokens) <= Of(a, CacheMissTokens);
      assert Of(b, ReasoningTokens) <= Of(a, ReasoningTokens);
      assert Of(b, ToolCalls) <= Of(a, ToolCalls);
      assert Of(b, AgentTasks) <= Of(a, AgentTasks);
      assert Of(b, Attempts) <= Of(a, Attempts);
      forall c | c in b.costs ensures CostFor(a, c) >= b.costs[c] {
        assert Of(b, Cost(c)) <= Of(a, Cost(c));
      }
    }
  }

  /** Amounts are their components. */
  lemma SameAmount(a: Amount, b: Amount)
    requires AtMost(a, b) && AtMost(b, a)
    ensures a == b
  {
    NotAtMost(a, b);
    NotAtMost(b, a);
    assert a.costs == b.costs;
  }

  lemma AddThenSubtract(a: Amount, b: Amount)
    ensures Subtract(Add(a, b), b) == Some(a)
  {
    AddOf(a, b);
    assert AtMost(b, Add(a, b));
    SameAmount(Subtract(Add(a, b), b).value, a);
  }

  predicate IsZero(a: Amount) {
    a == ZERO
  }

  /** A usage ceiling per resource; costs in one currency. */
  datatype Limits = Limits(
    maxModelCalls: Option<Positive>, maxConcurrentModelCalls: Option<Positive>,
    maxInputTokens: Option<Positive>, maxOutputTokens: Option<Positive>, maxTotalTokens: Option<Positive>,
    maxCacheHitTokens: Option<Positive>, maxCacheMissTokens: Option<Positive>, maxReasoningTokens: Option<Positive>,
    maxToolCalls: Option<Positive>, maxAgentTasks: Option<Positive>, maxAttempts: Option<Positive>,
    maxCostMicros: Option<Positive>, costCurrency: string)

  function LimitOn(l: Limits, res: Resource): Option<Positive> {
    match res
    case ModelCalls => l.maxModelCalls
    case InputTokens => l.maxInputTokens
    case OutputTokens => l.maxOutputTokens
    case TotalTokens => l.maxTotalTokens
    case CacheHitTokens => l.maxCacheHitTokens
    case CacheMissTokens => l.maxCacheMissTokens
    case ReasoningTokens => l.maxReasoningTokens
    case ToolCalls => l.maxToolCalls
    case AgentTasks => l.maxAgentTasks
    case Attempts => l.maxAttempts
    case Cost(currency) => if currency == l.costCurrency then l.maxCostMicros else None
  }

  datatype ScopeState = ScopeState(committed: Amount, reserved: Amount, active: int)

  const FRESH := ScopeState(ZERO, ZERO, 0)

  datatype Watched = Usage(res: Resource) | ConcurrentCalls

  datatype Excess = Excess(scope: string, watched: Watched, limit: int, current: int, requested: int)

  function Checks(l: Limits): seq<Watched> {
    [Usage(ModelCalls), ConcurrentCalls, Usage(InputTokens), Usage(OutputTokens), Usage(TotalTokens),
     Usage(CacheHitTokens), Usage(CacheMissTokens), Usage(ReasoningTokens), Usage(ToolCalls),
     Usage(AgentTasks), Usage(Attempts), Usage(Cost(l.costCurrency))]
  }

  function Current(st: ScopeState, w: Watched): int {
    match w
    case Usage(res) => Of(st.committed, res) + Of(st.reserved, res)
    case ConcurrentCalls => st.active
  }

  function Requested(a: Amount, w: Watched): nat {
    match w
    case Usage(res) => Of(a, res)
    case ConcurrentCalls => a.modelCalls
  }

  function Ceiling(l: Limits, w: Watched): Option<Positive> {
    match w
    case Usage(res) => LimitOn(l, res)
    case ConcurrentCalls => l.maxConcurrentModelCalls
  }

  predicate Over(st: ScopeState, a: Amount, l: Limits, w: Watched) {
    Ceiling(l, w).Some? && Current(st, w) + Requested(a, w) > Ceiling(l, w).value
  }

  /** The first check that fails, in the order they are made. */
  function FirstExcess(scope: string, st: ScopeState, a: Amount, l: Limits, checks: seq<Watched>): Option<Excess> {
    if checks == [] then None
    else if Over(st, a, l, checks[0]) then
      Some(Excess(scope, checks[0], Ceiling(l, checks[0]).value, Current(st, checks[0]), Requested(a, checks[0])))
    else FirstExcess(scope, st, a, l, checks[1..])
  }

  /** Every resource and the concurrent calls stay within `l` after `a` more. */
  ghost predicate Fits(st: ScopeState, a: Amount, l: Limits) {
    forall w :: !Over(st, a, l, w)
  }

  /** A refusal names a limit that is really exceeded. */
  lemma {:induction false} FirstExcessIsReal(scope: string, st: ScopeState, a: Amount, l: Limits, checks: seq<Watched>)
    ensures FirstExcess(scope, st, a, l, checks).None? <==> forall w :: w in checks ==> !Over(st, a, l, w)
    ensures var e := FirstExcess(scope, st, a, l, checks);
            e.Some? ==>
              && e.value.scope == scope && e.value.watched in checks && Over(st, a, l, e.value.watched)
              && e.value.current == Current(st, e.value.watched) && e.value.requested == Requested(a, e.value.watched)
              && e.value.current + e.value.requested > e.value.limit
  {
    if checks != [] {
      FirstExcessIsReal(scope, st, a, l, checks[1..]);
      assert checks == [checks[0]] + checks[1..];
    }
  }

  lemma EveryLimitIsChecked(l: Limits, w: Watched)
    requires Ceiling(l, w).Some?
    ensures w in Checks(l)
  {
    var checks := Checks(l);
    match w
    case ConcurrentCalls => assert checks[1] == w;
    case Usage(res) =>
      match res
      case ModelCalls => assert checks[0] == w;
      case InputTokens => assert checks[2] == w;
      case OutputTokens => assert checks[3] == w;
      case TotalTokens => assert checks[4] == w;
      case CacheHitTokens => assert checks[5] == w;
      case CacheMissTokens => assert checks[6] == w;
      case ReasoningTokens => assert checks[7] == w;
      case ToolCalls => assert checks[8] == w;
      case AgentTasks => assert checks[9] == w;
      case Attempts => assert checks[10] == w;
      case Cost(c) => assert checks[11] == w;
  }

  /** The twelve checks cover every limit there is. */
  lemma ChecksAreComplete(scope: string, st: ScopeState, a: Amount, l: Limits)
    ensures FirstExcess(scope, st, a, l, Checks(l)).None? <==> Fits(st, a, l)
  {
    var checks := Checks(l);
    FirstExcessIsReal(scope, st, a, l, checks);
    forall w | Over(st, a, l, w) ensures w in checks { EveryLimitIsChecked(l, w); }
  }

  datatype Reservation = Reservation(id: string, scopes: seq<string>, amount: Amount)

  datatype Ledger = Ledger(
    defaults: Option<Limits>,
    limits: map<string, Limits>,
    states: map<string, ScopeState>,
    reservations: map<string, Reservation>)

  datatype Failure =
    | BadValue
    | ReservationError
    | LimitExceeded(excess: Excess)
    | MissingScope

  function StateOf(l: Ledger, scope: string): ScopeState {
    if scope in l.states then l.states[scope] else FRESH
  }

  function LimitsFor(l: Ledger, scope: string): Option<Limits> {
    if scope in l.limits then Some(l.limits[scope]) else l.defaults
  }

  function Stripped(raw: seq<string>): seq<string> {
    if raw == [] then [] else [Strip(raw[0])] + Stripped(raw[1..])
  }

  /** The stripped scopes, unless there are none, one is blank or two are equal. */
  function Normalized(raw: seq<string>): Option<seq<string>> {
    var scopes := Stripped(raw);
    if raw == [] || "" in scopes || !NoDup(scopes) then None else Some(scopes)
  }

  /** The first limit, scope by scope, that `a` would exceed. */
  function FirstRefusal(l: Ledger, scopes: seq<string>, a: Amount): Option<Excess> {
    if scopes == [] then None else
      var limits := LimitsFor(l, scopes[0]);
      var here := if limits.None? then None
                  else FirstExcess(scopes[0], StateOf(l, scopes[0]), a, limits.value, Checks(limits.value));
      if here.Some? then here else FirstRefusal(l, scopes[1..], a)
  }

  function Hold(st: ScopeState, a: Amount): ScopeState {
    st.(reserved := Add(st.reserved, a), active := st.active + a.modelCalls)
  }

  function Charge(st: ScopeState, a: Amount): ScopeState {
    st.(committed := Add(st.committed, a))
  }

  /** Every listed scope, known or not, gets `a` on top: held, or charged. */
  function Raised(l: Ledger, scopes: seq<string>, a: Amount, hold: bool): map<string, ScopeState> {
    map s | s in l.states.Keys + (set x | x in scopes) ::
      if s !in scopes then l.states[s] else if hold then Hold(StateOf(l, s), a) else Charge(StateOf(l, s), a)
  }

  lemma RaisedNext(l: Ledger, done: seq<string>, s: string, a: Amount, hold: bool)
    requires s !in done
    ensures s in Raised(l, done, a, hold) <==> s in l.states
    ensures s in l.states ==> Raised(l, done, a, hold)[s] == l.states[s]
    ensures Raised(l, done + [s], a, hold) ==
            Raised(l, done, a, hold)[s := if hold then Hold(StateOf(l, s), a) else Charge(StateOf(l, s), a)]
  {
    var next := Raised(l, done, a, hold)[s := if hold then Hold(StateOf(l, s), a) else Charge(StateOf(l, s), a)];
    assert forall x :: x in done + [s] <==> x in done || x == s;
    assert Raised(l, done + [s], a, hold).Keys == next.Keys;
  }

  /** `reservation_id or uuid4().hex`: an absent or empty identifier is replaced by a generated one. */
  function Identifier(requested: Option<string>, generated: string): string {
    if requested.None? || requested.value == "" then generated else requested.value
  }

  function Reserved(l: Ledger, raw: seq<string>, a: Amount, id: string): (Ledger, Option<Failure>) {
    var scopes := Normalized(raw);
    if scopes.None? || IsZero(a) || Blank(id) then (l, Some(BadValue))
    else if id in l.reservations then (l, Some(ReservationError))
    else
      var refusal := FirstRefusal(l, scopes.value, a);
      if refusal.Some? then (l, Some(LimitExceeded(refusal.value)))
      else (l.(states := Raised(l, scopes.value, a, true),
               reservations := l.reservations[id := Reservation(id, scopes.value, a)]), None)
  }

  function Consumed(l: Ledger, raw: seq<string>, a: Amount): (Ledger, Option<Failure>) {
    var scopes := Normalized(raw);
    if scopes.None? then (l, Some(BadValue))
    else if IsZero(a) then (l, None)
    else
      var refusal := FirstRefusal(l, scopes.value, a);
      if refusal.Some? then (l, Some(LimitExceeded(refusal.value)))
      else (l.(states := Raised(l, scopes.value, a, false)), None)
  }

  /** Give back what one scope held and, when settling, charge it; the amount given back must have been held. */
  function GiveBack(st: ScopeState, held: Amount, charge: Option<Amount>): Option<ScopeState> {
    var reserved := Subtract(st.reserved, held);
    if reserved.None? then None else
      var freed := st.(reserved := reserved.value, active := st.active - held.modelCalls);
      Some(if charge.None? then freed else Charge(freed, charge.value))
  }

  /** Scope by scope; a missing scope or a negative amount stops it halfway. */
  function GivenBack(states: map<string, ScopeState>, scopes: seq<string>, held: Amount, charge: Option<Amount>)
    : (map<string, ScopeState>, Option<Failure>)
  {
    if scopes == [] then (states, None)
    else if scopes[0] !in states then (states, Some(MissingScope))
    else
      var next := GiveBack(states[scopes[0]], held, charge);
      if next.None? then (states, Some(BadValue))
      else GivenBack(states[scopes[0] := next.value], scopes[1..], held, charge)
  }

  predicate Stored(l: Ledger, r: Reservation) {
    r.id in l.reservations && l.reservations[r.id] == r
  }

  /** The reservation is gone once every scope has been settled. */
  function Finalized(l: Ledger, r: Reservation, charge: Option<Amount>): (Ledger, Option<Failure>) {
    if !Stored(l, r) then (l, Some(ReservationError)) else
      var (states, failure) := GivenBack(l.states, r.scopes, r.amount, charge);
      if failure.Some? then (l.(states := states), failure)
      else (l.(states := states, reservations := l.reservations - {r.id}), None)
  }

  /** A settled charge over a limit is recorded and then reported. */
  function Committed(l: Ledger, r: Reservation, actual: Option<Amount>): (Ledger, Option<Failure>) {
    var (after, failure) := Finalized(l, r, Some(if actual.Some? then actual.value else r.amount));
    if failure.Some? then (after, failure) else
      var violation := FirstRefusal(after, r.scopes, ZERO);
      (after, if violation.Some? then Some(LimitExceeded(violation.value)) else None)
  }

  function RolledBack(l: Ledger, r: Reservation): (Ledger, Option<Failure>) {
    Finalized(l, r, None)
  }

  function Configured(l: Ledger, raw: string, limits: Limits): (Ledger, Option<Failure>) {
    var scope := Strip(raw);
    if scope == "" then (l, Some(BadValue)) else
      var excess := FirstExcess(scope, StateOf(l, scope), ZERO, limits, Checks(limits));
      if excess.Some? then (l, Some(LimitExceeded(excess.value)))
      else (l.(limits := l.limits[scope := limits]), None)
  }

  function Cleared(l: Ledger, raw: string): (Ledger, Option<Failure>) {
    var scope := Strip(raw);
    if scope == "" then (l, Some(BadValue))
    else if StateOf(l, scope).active != 0 || exists id | id in l.reservations :: scope in l.reservations[id].scopes then
      (l, Some(ReservationError))
    else (l.(states := l.states - {scope}), None)
  }

  class UsageLedger {
    const defaults: Option<Limits>
    var limits: map<string, Limits>
    var states: map<string, ScopeState>
    var reservations: map<string, Reservation>

    ghost function Contents(): Ledger
      reads this
    {
      Ledger(defaults, limits, states, reservations)
    }

    constructor (defaults: Option<Limits>)
      ensures Contents() == Ledger(defaults, map[], map[], map[])
    {
      this.defaults := defaults;
      limits, states, reservations := map[], map[], map[];
    }

    method ConfigureScope(scope: string, l: Limits) returns (failure: Option<Failure>)
      modifies this
      ensures (Contents(), failure) == Configured(old(Contents()), scope, l)
    {
      var normalized := Strip(scope);
      if normalized == "" { return Some(BadValue); }
      var st := if normalized in states then states[normalized] else FRESH;
      var excess := FirstExcess(normalized, st, ZERO, l, Checks(l));
      if excess.Some? { return Some(LimitExceeded(excess.value)); }
      limits := limits[normalized := l];
      return None;
    }

    method Refusal(scopes: seq<string>, a: Amount) returns (refusal: Option<Excess>)
      ensures refusal == FirstRefusal(Contents(), scopes, a)
    {
      assert scopes[0..] == scopes;
      for i := 0 to |scopes|
        invariant FirstRefusal(Contents(), scopes[i..], a) == FirstRefusal(Contents(), scopes, a)
      {
        assert scopes[i..][1..] == scopes[i + 1..];
        var s := scopes[i];
        var st := if s in states then states[s] else FRESH;
        var l := if s in limits then Some(limits[s]) else defaults;
        if l.Some? {
          var excess := FirstExcess(s, st, a, l.value, Checks(l.value));
          if excess.Some? { return excess; }
        }
      }
      return None;
    }

    method Raise(scopes: seq<string>, a: Amount, hold: bool)
      requires NoDup(scopes)
      modifies this`states
      ensures states == Raised(old(Contents()), scopes, a, hold)
    {
      ghost var before := Contents();
      assert scopes[..0] == [];
      for i := 0 to |scopes|
        invariant states == Raised(before, scopes[..i], a, hold)
      {
        var s := scopes[i];
        assert scopes[..i + 1] == scopes[..i] + [s];
        RaisedNext(before, scopes[..i], s, a, hold);
        var st := if s in states then states[s] else FRESH;
        states := states[s := if hold then Hold(st, a) else Charge(st, a)];
      }
      assert scopes[..|scopes|] == scopes;
    }

    method Reserve(rawScopes: seq<string>, a: Amount, requested: Option<string>, generated: string)
      returns (reservation: Option<Reservation>, failure: Option<Failure>)
      modifies this
      ensures (Contents(), failure) == Reserved(old(Contents()), rawScopes, a, Identifier(requested, generated))
      ensures reservation.Some? <==> failure.None?
      ensures reservation.Some? ==>
                var id := Identifier(requested, generated);
                id in reservations && reservation.value == reservations[id] && reservation.value.amount == a
    {
      reservation := None;
      var id := if requested.Some? && |requested.value| > 0 then requested.value else generated;
      var scopes := Normalized(rawScopes);
      if scopes.None? || IsZero(a) || Blank(id) { return None, Some(BadValue); }
      if id in reservations { return None, Some(ReservationError); }
      var refusal := Refusal(scopes.value, a);
      if refusal.Some? { return None, Some(LimitExceeded(refusal.value)); }
      Raise(scopes.value, a, true);
      var r := Reservation(id, scopes.value, a);
      reservations := reservations[id := r];
      return Some(r), None;
    }

    method Consume(rawScopes: seq<string>, a: Amount) returns (failure: Option<Failure>)
      modifies this
      ensures (Contents(), failure) == Consumed(old(Contents()), rawScopes, a)
    {
      var scopes := Normalized(rawScopes);
      if scopes.None? { return Some(BadValue); }
      if IsZero(a) { return None; }
      var refusal := Refusal(scopes.value, a);
      if refusal.Some? { return Some(LimitExceeded(refusal.value)); }
      Raise(scopes.value, a, false);
      return None;
    }

    /** The loop of `commit` and `rollback`, with its early exits. */
    method Finalize(r: Reservation, charge: Option<Amount>) returns (failure: Option<Failure>)
      modifies this
      ensures (Contents(), failure) == Finalized(old(Contents()), r, charge)
    {
      if r.id !in reservations || reservations[r.id] != r { return Some(ReservationError); }
      ghost var before := states;
      assert r.scopes[0..] == r.scopes;
      for i := 0 to |r.scopes|
        invariant GivenBack(states, r.scopes[i..], r.amount, charge) == GivenBack(before, r.scopes, r.amount, charge)
        invariant reservations == old(reservations) && limits == old(limits)
      {
        assert r.scopes[i..][1..] == r.scopes[i + 1..];
        var s := r.scopes[i];
        if s !in states { return Some(MissingScope); }
        var next := GiveBack(states[s], r.amount, charge);
        if next.None? { return Some(BadValue); }
        states := states[s := next.value];
      }
      reservations := reservations - {r.id};
      return None;
    }

    method Commit(r: Reservation, actual: Option<Amount>) returns (failure: Option<Failure>)
      modifies this
      ensures (Contents(), failure) == Committed(old(Contents()), r, actual)
    {
      failure := Finalize(r, Some(if actual.Some? then actual.value else r.amount));
      if failure.None? {
        var violation := Refusal(r.scopes, ZERO);
        failure := if violation.Some? then Some(LimitExceeded(violation.value)) else None;
      }
    }

    method Rollback(r: Reservation) returns (failure: Option<Failure>)
      modifies this
      ensures (Contents(), failure) == RolledBack(old(Contents()), r)
    {
      failure := Finalize(r, None);
    }

    method Clear(scope: string) returns (failure: Option<Failure>)
      modifies this
      ensures (Contents(), failure) == Cleared(old(Contents()), scope)
    {
      var normalized := Strip(scope);
      if normalized == "" { return Some(BadValue); }
      if normalized in states && states[normalized].active != 0 { return Some(ReservationError); }
      if exists id | id in reservations :: normalized in reservations[id].scopes { return Some(ReservationError); }
      states := states - {normalized};
      return None;
    }
  }
}
