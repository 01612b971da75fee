/**
 The `generate` proxy: reserve the worst case, call the provider, settle what it
 reports. It suspends once, at the provider call, so it is two steps, `Begin`
 and `Finish`; any number of calls may interleave between them.
 */
module MeteredCalls {
  import opened Common
  import opened Usage
  import opened UsageRuns
  import opened UsageAnswers
  import opened Metering

  const MAX_TRACKED := 1024

  /** A provider's opaque continuation: the object, and the address it is looked up by. */
  datatype Continuation = Continuation(address: int, identity: int)

  datatype Tracked = Tracked(continuation: Continuation, tokens: nat)

  datatype Request = Request(
    scopes: seq<string>, inputEstimate: int, continuation: Option<Continuation>, maxOutputTokens: Option<nat>)

  datatype Config = Config(
    card: Option<RateCard>, defaultScopes: seq<string>, defaultMaxOutputTokens: Positive, usesDefaultEstimator: bool)

  /** How the provider call ends; a raised error or a cancellation reports no usage. */
  datatype Outcome =
    | Responded(usage: TokenUsage, continuation: Option<Continuation>)
    | Unparsed(reported: Option<TokenUsage>)
    | Raised

  datatype Plan =
    | Go(scopes: seq<string>, input: nat, output: nat)
    | Misconfigured
    | BadScopes

  function CostCurrencies(l: Ledger, scopes: seq<string>): set<string> {
    set s | s in scopes && LimitsFor(l, s).Some? && LimitsFor(l, s).value.maxCostMicros.Some?
      :: LimitsFor(l, s).value.costCurrency
  }

  function Addressed(tracked: seq<Tracked>, address: int): Option<Tracked> {
    if tracked == [] then None
    else if tracked[0].continuation.address == address then Some(tracked[0])
    else Addressed(tracked[1..], address)
  }

  /** The tokens recorded for this very object. */
  function TokensOf(tracked: seq<Tracked>, c: Continuation): Option<nat> {
    var found := Addressed(tracked, c.address);
    if found.Some? && found.value.continuation == c then Some(found.value.tokens) else None
  }

  /** Everything `generate` decides before it reserves. */
  function Planned(l: Ledger, config: Config, tracked: seq<Tracked>, request: Request): Plan {
    var raw := if request.scopes != [] then request.scopes else config.defaultScopes;
    var scopes := Normalized(raw);
    if scopes.None? then BadScopes else
      var currencies := CostCurrencies(l, scopes.value);
      if config.card.None? && currencies != {} then Misconfigured
      else if config.card.Some? && currencies - {config.card.value.currency} != {} then Misconfigured
      else if request.inputEstimate < 1 then Misconfigured
      else
        var carried :=
          if config.usesDefaultEstimator && request.continuation.Some? then TokensOf(tracked, request.continuation.value)
          else Some(0);
        if carried.None? then Misconfigured
        else Go(raw, request.inputEstimate + carried.value,
                if request.maxOutputTokens.Some? && request.maxOutputTokens.value != 0
                then request.maxOutputTokens.value else config.defaultMaxOutputTokens)
  }

  function ReportedUsage(outcome: Outcome): Option<TokenUsage> {
    match outcome
    case Responded(usage, _) => Some(usage)
    case Unparsed(reported) => reported
    case Raised => None
  }

  /** How the ledger hears of the end of a call. */
  function FinishCommand(card: Option<RateCard>, r: Reservation, outcome: Outcome): Command {
    var usage := ReportedUsage(outcome);
    if usage.Some? then Commit(r, Some(SettledAmount(card, usage.value))) else Rollback(r)
  }

  function Untracked(tracked: seq<Tracked>, address: int): (rest: seq<Tracked>)
    ensures |rest| <= |tracked|
    ensures forall t :: t in rest <==> t in tracked && t.continuation.address != address
  {
    if tracked == [] then []
    else (if tracked[0].continuation.address == address then [] else [tracked[0]]) + Untracked(tracked[1..], address)
  }

  /** The oldest records go once there are too many. */
  function Capped(tracked: seq<Tracked>): seq<Tracked> {
    if |tracked| > MAX_TRACKED then tracked[|tracked| - MAX_TRACKED..] else tracked
  }

  function Remembered(tracked: seq<Tracked>, used: Option<Continuation>, newer: Option<Continuation>, tokens: nat): seq<Tracked> {
    var left := if used.Some? then Untracked(tracked, used.value.address) else tracked;
    Capped(if newer.Some? then Untracked(left, newer.value.address) + [Tracked(newer.value, tokens)] else left)
  }

  lemma {:induction false} AddressedLast(tracked: seq<Tracked>, t: Tracked)
    requires forall x :: x in tracked ==> x.continuation.address != t.continuation.address
    ensures Addressed(tracked + [t], t.continuation.address) == Some(t)
  {
    if tracked != [] {
      assert (tracked + [t])[1..] == tracked[1..] + [t];
      AddressedLast(tracked[1..], t);
    }
  }

  /** A returned continuation is known to the next call, and the table never outgrows its cap. */
  lemma NewestIsRemembered(tracked: seq<Tracked>, used: Option<Continuation>, newer: Continuation, tokens: nat)
    ensures TokensOf(Remembered(tracked, used, Some(newer), tokens), newer) == Some(tokens)
    ensures |Remembered(tracked, used, Some(newer), tokens)| <= MAX_TRACKED
  {
    var left := if used.Some? then Untracked(tracked, used.value.address) else tracked;
    var kept := Untracked(left, newer.address);
    var newest := Tracked(newer, tokens);
    var capped := Remembered(tracked, used, Some(newer), tokens);
    assert capped == Capped(kept + [newest]);
    assert capped == capped[..|capped| - 1] + [newest];
    AddressedLast(capped[..|capped| - 1], newest);
  }

  class BudgetedModelClient {
    const ledger: UsageLedger
    const config: Config
    var tracked: seq<Tracked>

    constructor (ledger: UsageLedger, config: Config)
      ensures this.ledger == ledger && this.config == config && tracked == []
    {
      this.ledger := ledger;
      this.config := config;
      tracked := [];
    }

    /** `generate` up to the provider call. */
    method Begin(request: Request, id: string) returns (plan: Plan, r: Option<Reservation>, failure: Option<Failure>)
      modifies ledger
      ensures plan == Planned(old(ledger.Contents()), config, tracked, request)
      ensures plan.Go? ==>
                && (ledger.Contents(), failure)
                   == Reserved(old(ledger.Contents()), plan.scopes, ReservedAmount(config.card, plan.input, plan.output), id)
                && (r.Some? <==> failure.None?)
                && (r.Some? ==> id in ledger.reservations && r.value == ledger.reservations[id])
      ensures !plan.Go? ==> ledger.Contents() == old(ledger.Contents()) && r == None && failure == None
    {
      plan := Planned(Ledger(ledger.defaults, ledger.limits, ledger.states, ledger.reservations), config, tracked, request);
      r, failure := None, None;
      if plan.Go? {
        r, failure := ledger.Reserve(plan.scopes, ReservedAmount(config.card, plan.input, plan.output), None, id);
      }
    }

    /** `generate` from the provider call on: exactly one commit or rollback of the reservation. */
    method Finish(used: Option<Continuation>, r: Reservation, outcome: Outcome) returns (failure: Option<Failure>)
      modifies ledger, this`tracked
      ensures (ledger.Contents(), failure) == Apply(old(ledger.Contents()), FinishCommand(config.card, r, outcome))
      ensures tracked ==
              if outcome.Responded? && failure.None? && config.usesDefaultEstimator
              then Remembered(old(tracked), used, outcome.continuation, ReportedTotal(outcome.usage))
              else old(tracked)
    {
      match outcome {
        case Raised => failure := ledger.Rollback(r);
        case Unparsed(None) => failure := ledger.Rollback(r);
        case Unparsed(Some(usage)) => failure := ledger.Commit(r, Some(SettledAmount(config.card, usage)));
        case Responded(usage, newer) =>
          failure := ledger.Commit(r, Some(SettledAmount(config.card, usage)));
          if failure.None? && config.usesDefaultEstimator {
            Remember(used, newer, ReportedTotal(usage));
          }
      }
    }

    method Remember(used: Option<Continuation>, newer: Option<Continuation>, tokens: nat)
      modifies this`tracked
      ensures tracked == Remembered(old(tracked), used, newer, tokens)
    {
      if used.Some? {
        tracked := Untracked(tracked, used.value.address);
      }
      if newer.Some? {
        tracked := Untracked(tracked, newer.value.address) + [Tracked(newer.value, tokens)];
      }
      ghost var all := tracked;
      while |tracked| > MAX_TRACKED
        invariant |tracked| <= |all| && tracked == all[|all| - |tracked|..]
        invariant |all| > MAX_TRACKED ==> |tracked| >= MAX_TRACKED
        invariant |all| <= MAX_TRACKED ==> tracked == all
        decreases |tracked|
      {
        tracked := tracked[1..];
      }
    }
  }

  // Any number of calls at once, beside any other use of the ledger.

  /** A call between `Begin` and `Finish`. */
  datatype Call = Call(reservation: Reservation, input: nat, output: nat)

  datatype World = World(ledger: Ledger, open: map<string, Call>)

  datatype Action =
    | Start(scopes: seq<string>, input: nat, output: nat, id: string)
    | Stop(id: string, outcome: Outcome)
    | Other(command: Command)

  function Act(card: Option<RateCard>, w: World, a: Action): World {
    match a
    case Start(scopes, input, output, id) =>
      var (l, failure) := Reserved(w.ledger, scopes, ReservedAmount(card, input, output), id);
      if failure.Some? || id !in l.reservations then w.(ledger := l)
      else World(l, w.open[id := Call(l.reservations[id], input, output)])
    case Stop(id, outcome) =>
      if id !in w.open then w else
        World(Step(w.ledger, FinishCommand(card, w.open[id].reservation, outcome)), w.open - {id})
    case Other(c) => w.(ledger := Step(w.ledger, c))
  }

  /** Providers stay within the estimates; other users settle modestly and leave the calls' reservations alone. */
  ghost predicate Fair(w: World, a: Action) {
    match a
    case Start(_, _, _, _) => true
    case Stop(id, outcome) =>
      id in w.open && ReportedUsage(outcome).Some? ==>
        Estimated(ReportedUsage(outcome).value, w.open[id].input, w.open[id].output)
    case Other(c) =>
      && Modest(c)
      && (c.Commit? ==> c.reservation.id !in w.open)
      && (c.Rollback? ==> c.reservation.id !in w.open)
  }

  /** Every open call's reservation is outstanding, and the ledger is exact and not oversold. */
  ghost predicate Sound(card: Option<RateCard>, w: World) {
    && Exact(w.ledger) && Within(w.ledger)
    && forall id :: id in w.open ==>
                      && w.open[id].reservation.id == id
                      && Stored(w.ledger, w.open[id].reservation)
                      && w.open[id].reservation.amount == ReservedAmount(card, w.open[id].input, w.open[id].output)
  }

  /** A reservation survives every command but its own commit or rollback. */
  lemma OthersKeep(l: Ledger, c: Command, r: Reservation)
    requires Exact(l) && Stored(l, r)
    requires c.Commit? ==> c.reservation.id != r.id
    requires c.Rollback? ==> c.reservation.id != r.id
    ensures Stored(Step(l, c), r)
  {
    match c {
      case Commit(r', actual) =>
        if Stored(l, r') { FinalizeCompletes(l, r', Some(if actual.Some? then actual.value else r'.amount)); }
      case Rollback(r') => if Stored(l, r') { FinalizeCompletes(l, r', None); }
      case _ =>
    }
  }

  lemma StopIsModest(card: Option<RateCard>, w: World, id: string, outcome: Outcome)
    requires Sound(card, w) && id in w.open && Fair(w, Stop(id, outcome))
    ensures Modest(FinishCommand(card, w.open[id].reservation, outcome))
  {
    var call := w.open[id];
    if ReportedUsage(outcome).Some? {
      ReservationCoversCharge(card, ReportedUsage(outcome).value, call.input, call.output);
    }
  }

  /** A call that ends settles without an error and gives its reservation up for good: its end is not accepted twice. */
  lemma StopSucceeds(card: Option<RateCard>, w: World, id: string, outcome: Outcome)
    requires Sound(card, w) && id in w.open && Fair(w, Stop(id, outcome))
    ensures var c := FinishCommand(card, w.open[id].reservation, outcome);
            Apply(w.ledger, c).1 == None
            && id !in Step(w.ledger, c).reservations
            && Apply(Step(w.ledger, c), c) == (Step(w.ledger, c), Some(ReservationError))
  {
    var r := w.open[id].reservation;
    var c := FinishCommand(card, r, outcome);
    StopIsModest(card, w, id, outcome);
    FinalizingSucceeds(w.ledger, c);
    if c.Commit? {
      FinalizeCompletes(w.ledger, r, Some(c.actual.value));
    } else {
      FinalizeCompletes(w.ledger, r, None);
    }
  }

  lemma StartKeepsSound(card: Option<RateCard>, w: World, scopes: seq<string>, input: nat, output: nat, id: string)
    requires Sound(card, w)
    ensures Sound(card, Act(card, w, Start(scopes, input, output, id)))
  {
    var amount := ReservedAmount(card, input, output);
    var (l, failure) := Reserved(w.ledger, scopes, amount, id);
    CommandKeepsSound(card, w, Reserve(scopes, amount, id));
    ReserveStores(w.ledger, scopes, amount, id);
    if failure.None? { OpenSound(card, w, l, id, Call(l.reservations[id], input, output)); }
  }

  lemma ReserveStores(l: Ledger, scopes: seq<string>, amount: Amount, id: string)
    ensures var (l', failure) := Reserved(l, scopes, amount, id);
            failure.None? ==> id in l'.reservations && l'.reservations[id].id == id && l'.reservations[id].amount == amount
  {
  }

  lemma OpenSound(card: Option<RateCard>, w: World, l: Ledger, id: string, call: Call)
    requires Sound(card, w.(ledger := l))
    requires call.reservation.id == id && Stored(l, call.reservation)
    requires call.reservation.amount == ReservedAmount(card, call.input, call.output)
    ensures Sound(card, World(l, w.open[id := call]))
  {
  }

  lemma StopKeepsSound(card: Option<RateCard>, w: World, id: string, outcome: Outcome)
    requires Sound(card, w) && id in w.open && Fair(w, Stop(id, outcome))
    ensures Sound(card, Act(card, w, Stop(id, outcome)))
  {
    StopIsModest(card, w, id, outcome);
    CommandKeepsSound(card, w.(open := w.open - {id}), FinishCommand(card, w.open[id].reservation, outcome));
  }

  lemma ActionKeepsSound(card: Option<RateCard>, w: World, a: Action)
    requires Sound(card, w) && Fair(w, a)
    ensures Sound(card, Act(card, w, a))
  {
    match a
    case Start(scopes, input, output, id) => StartKeepsSound(card, w, scopes, input, output, id);
    case Stop(id, outcome) => if id in w.open { StopKeepsSound(card, w, id, outcome); }
    case Other(c) => CommandKeepsSound(card, w, c);
  }

  lemma CommandKeepsSound(card: Option<RateCard>, w: World, c: Command)
    requires Sound(card, w) && Modest(c)
    requires c.Commit? ==> c.reservation.id !in w.open
    requires c.Rollback? ==> c.reservation.id !in w.open
    ensures Sound(card, w.(ledger := Step(w.ledger, c)))
  {
    StepKeepsExact(w.ledger, c);
    StepKeepsWithin(w.ledger, c);
    forall id | id in w.open ensures Stored(Step(w.ledger, c), w.open[id].reservation) {
      OthersKeep(w.ledger, c, w.open[id].reservation);
    }
  }

  function Played(card: Option<RateCard>, defaults: Option<Limits>, actions: seq<Action>): World {
    if actions == [] then World(Ledger(defaults, map[], map[], map[]), map[])
    else Act(card, Played(card, defaults, actions[..|actions| - 1]), actions[|actions| - 1])
  }

  /** However the calls interleave, the ledger stays exact, nothing is oversold, and every open call can still settle. */
  lemma {:induction false} CallsStaySound(card: Option<RateCard>, defaults: Option<Limits>, actions: seq<Action>)
    requires forall n :: 0 <= n < |actions| ==> Fair(Played(card, defaults, actions[..n]), actions[n])
    ensures Sound(card, Played(card, defaults, actions))
  {
    if actions == [] {
      NeverOversold(defaults, []);
    } else {
      var n := |actions| - 1;
      assert forall i :: 0 <= i < n ==> actions[..n][..i] == actions[..i];
      CallsStaySound(card, defaults, actions[..n]);
      ActionKeepsSound(card, Played(card, defaults, actions[..n]), actions[n]);
    }
  }

  // What a call does to the scopes it names.

  /** A started call holds one active call and the worst case on each of its scopes. */
  lemma StartHolds(card: Option<RateCard>, w: World, scopes: seq<string>, input: nat, output: nat, id: string, s: string)
    requires Reserved(w.ledger, scopes, ReservedAmount(card, input, output), id).1.None?
    ensures var w' := Act(card, w, Start(scopes, input, output, id));
            var st, st' := StateOf(w.ledger, s), StateOf(w'.ledger, s);
            && id in w'.open && w'.open[id].reservation == Reservation(id, Stripped(scopes), ReservedAmount(card, input, output))
            && w'.open[id].input == input && w'.open[id].output == output
            && if s in Stripped(scopes) then
                 && st'.active == st.active + 1
                 && forall res :: Of(st'.reserved, res) == Of(st.reserved, res) + Of(ReservedAmount(card, input, output), res)
               else st' == st
  {
    ReserveHolds(w.ledger, scopes, ReservedAmount(card, input, output), id, s);
  }

  /** What a call is charged for in the end: the usage that was reported, also when the response could not be parsed;
      nothing when there is none. */
  function ChargeOf(card: Option<RateCard>, outcome: Outcome): Option<Amount> {
    match outcome
    case Responded(usage, _) => Some(SettledAmount(card, usage))
    case Unparsed(Some(usage)) => Some(SettledAmount(card, usage))
    case _ => None
  }

  /** The end of a call takes back on each of its scopes what it held, and charges what it used. */
  lemma StopCharges(card: Option<RateCard>, w: World, id: string, outcome: Outcome, s: string)
    requires Sound(card, w) && id in w.open
    ensures var r, w' := w.open[id].reservation, Act(card, w, Stop(id, outcome));
            var st, st' := StateOf(w.ledger, s), StateOf(w'.ledger, s);
            && w'.open == w.open - {id} && w'.ledger.reservations == w.ledger.reservations - {id}
            && if s in r.scopes then
                 && st'.active == st.active - 1
                 && (forall res :: Of(st'.reserved, res) == Of(st.reserved, res) - Of(r.amount, res))
                 && (forall res :: Of(st'.committed, res) == Of(st.committed, res)
                                   + if ChargeOf(card, outcome).Some? then Of(ChargeOf(card, outcome).value, res) else 0)
               else st' == st
  {
    var r := w.open[id].reservation;
    SettlingFields(w.ledger, r, ChargeOf(card, outcome), s);
    FinalizeCompletes(w.ledger, r, ChargeOf(card, outcome));
    StopFinalizes(card, w, id, outcome);
  }

  lemma StopFinalizes(card: Option<RateCard>, w: World, id: string, outcome: Outcome)
    requires id in w.open
    ensures Act(card, w, Stop(id, outcome)).ledger == Finalized(w.ledger, w.open[id].reservation, ChargeOf(card, outcome)).0
  {
  }

  // What is decided before a call.

  /** Every scope with a cost limit has it in the card's currency. */
  ghost predicate CardSuits(l: Ledger, scopes: seq<string>, card: Option<RateCard>) {
    forall s :: s in scopes && LimitsFor(l, s).Some? && LimitsFor(l, s).value.maxCostMicros.Some? ==>
                  card.Some? && card.value.currency == LimitsFor(l, s).value.costCurrency
  }

  /** A continuation matters only to the default estimator, which must have seen it. */
  predicate ContinuationKnown(config: Config, tracked: seq<Tracked>, request: Request) {
    config.usesDefaultEstimator && request.continuation.Some? ==> TokensOf(tracked, request.continuation.value).Some?
  }

  lemma PlansExactly(l: Ledger, config: Config, tracked: seq<Tracked>, request: Request)
    ensures var raw := if request.scopes == [] then config.defaultScopes else request.scopes;
            var plan := Planned(l, config, tracked, request);
            && (plan.BadScopes? <==> forall scopes :: !ScopesGiven(raw, scopes))
            && (plan.Go? <==> exists scopes :: && ScopesGiven(raw, scopes) && CardSuits(l, scopes, config.card)
                                               && request.inputEstimate >= 1 && ContinuationKnown(config, tracked, request))
            && (plan.Go? ==>
                  && plan.scopes == raw
                  && plan.input == request.inputEstimate
                                   + (if config.usesDefaultEstimator && request.continuation.Some?
                                      then TokensOf(tracked, request.continuation.value).value else 0)
                  && plan.output == match request.maxOutputTokens
                                    case Some(n) => if n > 0 then n else config.defaultMaxOutputTokens
                                    case None => config.defaultMaxOutputTokens)
  {
    var raw := if request.scopes == [] then config.defaultScopes else request.scopes;
    forall scopes ensures Normalized(raw) == Some(scopes) <==> ScopesGiven(raw, scopes) { NormalizedExactly(raw, scopes); }
    if Normalized(raw).Some? {
      assert ScopesGiven(raw, Normalized(raw).value);
      CurrenciesSuit(l, Normalized(raw).value, config.card);
    }
  }

  lemma CurrenciesSuit(l: Ledger, scopes: seq<string>, card: Option<RateCard>)
    ensures CardSuits(l, scopes, card) <==>
            if card.None? then CostCurrencies(l, scopes) == {} else CostCurrencies(l, scopes) - {card.value.currency} == {}
  {
    var currencies := CostCurrencies(l, scopes);
    forall s | s in scopes && LimitsFor(l, s).Some? && LimitsFor(l, s).value.maxCostMicros.Some?
      ensures LimitsFor(l, s).value.costCurrency in currencies
    {
    }
    var foreign := if card.None? then currencies else currencies - {card.value.currency};
    if CardSuits(l, scopes, card) {
      forall c ensures c !in foreign {
        if c in currencies { assert card.Some? && card.value.currency == c; }
      }
      assert foreign == {};
    } else {
      var s :| s in scopes && LimitsFor(l, s).Some? && LimitsFor(l, s).value.maxCostMicros.Some?
               && !(card.Some? && card.value.currency == LimitsFor(l, s).value.costCurrency);
      assert LimitsFor(l, s).value.costCurrency in foreign;
    }
  }

  // The table of continuations.

  /** Only the very object is recognised, not another at its address. */
  lemma {:induction false} KnownIsTracked(tracked: seq<Tracked>, c: Continuation)
    requires TokensOf(tracked, c).Some?
    ensures Tracked(c, TokensOf(tracked, c).value) in tracked
  {
    if tracked[0].continuation.address != c.address { KnownIsTracked(tracked[1..], c); }
  }

  lemma {:induction false} UntrackedKeeps(tracked: seq<Tracked>, gone: int, address: int)
    ensures Addressed(Untracked(tracked, gone), address) == if address == gone then None else Addressed(tracked, address)
  {
    if tracked != [] {
      var rest := Untracked(tracked[1..], gone);
      UntrackedKeeps(tracked[1..], gone, address);
      assert [] + rest == rest;
      assert ([tracked[0]] + rest)[1..] == rest;
    }
  }

  lemma {:induction false} NoneUntracked(tracked: seq<Tracked>, gone: int)
    requires |Untracked(tracked, gone)| == |tracked|
    ensures Untracked(tracked, gone) == tracked
  {
    if tracked != [] {
      NoneUntracked(tracked[1..], gone);
      assert tracked == [tracked[0]] + tracked[1..];
    }
  }

  lemma {:induction false} AddressedBefore(tracked: seq<Tracked>, t: Tracked, address: int)
    requires t.continuation.address != address
    ensures Addressed(tracked + [t], address) == Addressed(tracked, address)
  {
    if tracked == [] {
      assert [t][1..] == [];
    } else {
      assert (tracked + [t])[1..] == tracked[1..] + [t];
      AddressedBefore(tracked[1..], t, address);
    }
  }

  /** Remembering a continuation keeps every other one, but for the oldest when the table is full, and forgets the one
      it was made from. */
  lemma OthersStayRemembered(tracked: seq<Tracked>, used: Option<Continuation>, newer: Continuation, tokens: nat, c: Continuation)
    requires |tracked| <= MAX_TRACKED && c.address != newer.address
    requires |tracked| == MAX_TRACKED ==> tracked[0].continuation.address != c.address
    ensures TokensOf(Remembered(tracked, used, Some(newer), tokens), c) ==
            if used.Some? && used.value.address == c.address then None else TokensOf(tracked, c)
  {
    var left := if used.Some? then Untracked(tracked, used.value.address) else tracked;
    var all := Untracked(left, newer.address) + [Tracked(newer, tokens)];
    if used.Some? { UntrackedKeeps(tracked, used.value.address, c.address); }
    UntrackedKeeps(left, newer.address, c.address);
    AddressedBefore(Untracked(left, newer.address), Tracked(newer, tokens), c.address);
    if |all| > MAX_TRACKED {
      assert |Untracked(left, newer.address)| == |left| == |tracked|;
      NoneUntracked(left, newer.address);
      if used.Some? { NoneUntracked(tracked, used.value.address); }
      assert all[0] == tracked[0];
      assert Remembered(tracked, used, Some(newer), tokens) == all[1..];
    }
  }
}
