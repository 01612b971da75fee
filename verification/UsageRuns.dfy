/**
 Whole runs of the ledger. Exactness: what a scope holds is the sum of the
 outstanding reservations that name it. Safety: no scope is ever oversold.
 Accounting: what a scope has been charged is every charge since it was cleared.
 */
module UsageRuns {
  import opened Common
  import opened Text
  import opened Usage

  /** What one reservation holds on one scope. */
  function Share(r: Reservation, scope: string, res: Resource): nat {
    if scope in r.scopes then Of(r.amount, res) else 0
  }

  /** The sum over all outstanding reservations, in any order. */
  ghost function Outstanding(rs: map<string, Reservation>, scope: string, res: Resource): nat
    decreases |rs|
  {
    if rs.Keys == {} then 0 else
      var id :| id in rs;
      assert |rs - {id}| < |rs|;
      Share(rs[id], scope, res) + Outstanding(rs - {id}, scope, res)
  }

  lemma {:induction false} TakeOut(rs: map<string, Reservation>, id: string, scope: string, res: Resource)
    requires id in rs
    ensures Outstanding(rs, scope, res) == Share(rs[id], scope, res) + Outstanding(rs - {id}, scope, res)
    decreases |rs|
  {
    var first := SomeTakenOut(rs, scope, res);
    if first != id {
      var less, rest := rs - {first}, rs - {id};
      assert less[id] == rs[id] && rest[first] == rs[first];
      TakeOut(less, id, scope, res);
      TakeOut(rest, first, scope, res);
      assert less - {id} == rest - {first};
    }
  }

  lemma SomeTakenOut(rs: map<string, Reservation>, scope: string, res: Resource) returns (id: string)
    requires rs.Keys != {}
    ensures id in rs && |rs - {id}| < |rs|
    ensures Outstanding(rs, scope, res) == Share(rs[id], scope, res) + Outstanding(rs - {id}, scope, res)
  {
    id :| id in rs && Outstanding(rs, scope, res) == Share(rs[id], scope, res) + Outstanding(rs - {id}, scope, res);
    assert (rs - {id}).Keys == rs.Keys - {id};
  }

  lemma PutIn(rs: map<string, Reservation>, r: Reservation, scope: string, res: Resource)
    requires r.id !in rs
    ensures Outstanding(rs[r.id := r], scope, res) == Share(r, scope, res) + Outstanding(rs, scope, res)
  {
    TakeOut(rs[r.id := r], r.id, scope, res);
    assert rs[r.id := r] - {r.id} == rs;
  }

  lemma {:induction false} NoneOutstanding(rs: map<string, Reservation>, scope: string, res: Resource)
    requires forall id :: id in rs ==> scope !in rs[id].scopes
    ensures Outstanding(rs, scope, res) == 0
    decreases |rs|
  {
    if rs.Keys != {} {
      var id :| id in rs;
      TakeOut(rs, id, scope, res);
      NoneOutstanding(rs - {id}, scope, res);
    }
  }

  /** What a scope holds is exactly what the outstanding reservations hold on it. */
  ghost predicate ScopeExact(st: ScopeState, rs: map<string, Reservation>, scope: string) {
    && (forall res :: Of(st.reserved, res) == Outstanding(rs, scope, res))
    && st.active == Outstanding(rs, scope, ModelCalls)
  }

  ghost predicate ReservationsSound(l: Ledger) {
    forall id :: id in l.reservations ==>
                   && l.reservations[id].id == id
                   && NoDup(l.reservations[id].scopes)
                   && forall s :: s in l.reservations[id].scopes ==> s in l.states
  }

  ghost predicate Exact(l: Ledger) {
    && ReservationsSound(l)
    && forall s :: s in l.states ==> ScopeExact(l.states[s], l.reservations, s)
  }

  lemma FreshIsExact(l: Ledger, scope: string)
    requires ReservationsSound(l) && scope !in l.states
    ensures ScopeExact(FRESH, l.reservations, scope)
  {
    forall res ensures Outstanding(l.reservations, scope, res) == 0 {
      NoneOutstanding(l.reservations, scope, res);
    }
  }

  datatype Command =
    | Configure(scope: string, limits: Limits)
    | Reserve(scopes: seq<string>, amount: Amount, id: string)
    | Commit(reservation: Reservation, actual: Option<Amount>)
    | Rollback(reservation: Reservation)
    | Consume(scopes: seq<string>, amount: Amount)
    | Clear(scope: string)

  function Apply(l: Ledger, c: Command): (Ledger, Option<Failure>) {
    match c
    case Configure(scope, limits) => Configured(l, scope, limits)
    case Reserve(scopes, amount, id) => Reserved(l, scopes, amount, id)
    case Commit(r, actual) => Committed(l, r, actual)
    case Rollback(r) => RolledBack(l, r)
    case Consume(scopes, amount) => Consumed(l, scopes, amount)
    case Clear(scope) => Cleared(l, scope)
  }

  function Step(l: Ledger, c: Command): Ledger {
    Apply(l, c).0
  }

  function After(defaults: Option<Limits>, cs: seq<Command>): Ledger {
    if cs == [] then Ledger(defaults, map[], map[], map[])
    else Step(After(defaults, cs[..|cs| - 1]), cs[|cs| - 1])
  }

  // Settling: on an exact ledger the loop of `commit` and `rollback` runs to the end.

  lemma HeldIsCovered(l: Ledger, r: Reservation, scope: string)
    requires Exact(l) && Stored(l, r) && scope in r.scopes
    ensures scope in l.states && AtMost(r.amount, l.states[scope].reserved)
    ensures GiveBack(l.states[scope], r.amount, None).Some?
  {
    forall res ensures Of(r.amount, res) <= Of(l.states[scope].reserved, res) {
      TakeOut(l.reservations, r.id, scope, res);
    }
  }

  /** The states after a complete settlement. */
  function Settled(states: map<string, ScopeState>, scopes: seq<string>, held: Amount, charge: Option<Amount>): map<string, ScopeState> {
    map s | s in states ::
      if s in scopes && GiveBack(states[s], held, charge).Some? then GiveBack(states[s], held, charge).value else states[s]
  }

  lemma {:induction false} SettlesEveryScope(states: map<string, ScopeState>, scopes: seq<string>, held: Amount, charge: Option<Amount>)
    requires NoDup(scopes)
    requires forall s :: s in scopes ==> s in states && GiveBack(states[s], held, charge).Some?
    ensures GivenBack(states, scopes, held, charge) == (Settled(states, scopes, held, charge), None)
  {
    if scopes == [] {
      assert Settled(states, scopes, held, charge) == states;
    } else {
      var s0 := scopes[0];
      var states' := states[s0 := GiveBack(states[s0], held, charge).value];
      assert scopes == [s0] + scopes[1..];
      assert forall s :: s in scopes[1..] ==> s != s0;
      assert NoDup(scopes[1..]);
      SettlesEveryScope(states', scopes[1..], held, charge);
      SettleFirst(states, s0, scopes[1..], held, charge);
    }
  }

  lemma SettleFirst(states: map<string, ScopeState>, s0: string, rest: seq<string>, held: Amount, charge: Option<Amount>)
    requires s0 in states && s0 !in rest && GiveBack(states[s0], held, charge).Some?
    ensures Settled(states[s0 := GiveBack(states[s0], held, charge).value], rest, held, charge)
         == Settled(states, [s0] + rest, held, charge)
  {
    var left := Settled(states[s0 := GiveBack(states[s0], held, charge).value], rest, held, charge);
    var right := Settled(states, [s0] + rest, held, charge);
    assert forall s :: s in [s0] + rest <==> s == s0 || s in rest;
    assert left.Keys == right.Keys;
    forall s | s in states ensures left[s] == right[s] {
      if s != s0 { assert s in [s0] + rest <==> s in rest; }
    }
  }

  /** Commit and rollback never stop halfway: every scope is settled and the reservation is gone. */
  lemma FinalizeCompletes(l: Ledger, r: Reservation, charge: Option<Amount>)
    requires Exact(l) && Stored(l, r)
    ensures Finalized(l, r, charge) ==
            (l.(states := Settled(l.states, r.scopes, r.amount, charge), reservations := l.reservations - {r.id}), None)
    ensures forall s :: s in r.scopes ==> s in l.states && GiveBack(l.states[s], r.amount, charge).Some?
  {
    forall s | s in r.scopes ensures s in l.states && GiveBack(l.states[s], r.amount, charge).Some? {
      HeldIsCovered(l, r, s);
    }
    SettlesEveryScope(l.states, r.scopes, r.amount, charge);
  }

  lemma SettledScopeExact(l: Ledger, r: Reservation, charge: Option<Amount>, scope: string)
    requires Exact(l) && Stored(l, r) && scope in l.states
    ensures ScopeExact(Settled(l.states, r.scopes, r.amount, charge)[scope], l.reservations - {r.id}, scope)
  {
    forall res ensures Outstanding(l.reservations, scope, res)
                    == Share(r, scope, res) + Outstanding(l.reservations - {r.id}, scope, res) {
      TakeOut(l.reservations, r.id, scope, res);
    }
    if scope in r.scopes { HeldIsCovered(l, r, scope); }
  }

  lemma FinalizeKeepsExact(l: Ledger, r: Reservation, charge: Option<Amount>)
    requires Exact(l)
    ensures Exact(Finalized(l, r, charge).0)
  {
    if Stored(l, r) {
      FinalizeCompletes(l, r, charge);
      forall s | s in l.states ensures ScopeExact(Settled(l.states, r.scopes, r.amount, charge)[s], l.reservations - {r.id}, s) {
        SettledScopeExact(l, r, charge, s);
      }
    }
  }

  lemma StateOfExact(l: Ledger, scope: string)
    requires Exact(l)
    ensures ScopeExact(StateOf(l, scope), l.reservations, scope)
  {
    if scope !in l.states { FreshIsExact(l, scope); }
  }

  lemma ReserveKeepsExact(l: Ledger, r: Reservation)
    requires Exact(l) && r.id !in l.reservations && NoDup(r.scopes)
    ensures Exact(l.(states := Raised(l, r.scopes, r.amount, true), reservations := l.reservations[r.id := r]))
  {
    var l' := l.(states := Raised(l, r.scopes, r.amount, true), reservations := l.reservations[r.id := r]);
    forall s | s in l'.states ensures ScopeExact(l'.states[s], l'.reservations, s) {
      StateOfExact(l, s);
      AddOf(StateOf(l, s).reserved, r.amount);
      forall res ensures Outstanding(l'.reservations, s, res) == Share(r, s, res) + Outstanding(l.reservations, s, res) {
        PutIn(l.reservations, r, s, res);
      }
    }
  }

  lemma ConsumeKeepsExact(l: Ledger, scopes: seq<string>, a: Amount)
    requires Exact(l)
    ensures Exact(l.(states := Raised(l, scopes, a, false)))
  {
    forall s | s in Raised(l, scopes, a, false) ensures ScopeExact(Raised(l, scopes, a, false)[s], l.reservations, s) {
      StateOfExact(l, s);
    }
  }

  lemma StepKeepsExact(l: Ledger, c: Command)
    requires Exact(l)
    ensures Exact(Step(l, c))
  {
    match c
    case Configure(_, _) =>
    case Reserve(raw, a, id) =>
      if Reserved(l, raw, a, id).1.None? { ReserveKeepsExact(l, Reservation(id, Normalized(raw).value, a)); }
    case Commit(r, actual) => FinalizeKeepsExact(l, r, Some(if actual.Some? then actual.value else r.amount));
    case Rollback(r) => FinalizeKeepsExact(l, r, None);
    case Consume(raw, a) =>
      if Normalized(raw).Some? { ConsumeKeepsExact(l, Normalized(raw).value, a); }
    case Clear(_) =>
  }

  /** Ledger exactness in every reachable state. */
  lemma {:induction false} AlwaysExact(defaults: Option<Limits>, cs: seq<Command>)
    ensures Exact(After(defaults, cs))
  {
    if cs != [] {
      AlwaysExact(defaults, cs[..|cs| - 1]);
      StepKeepsExact(After(defaults, cs[..|cs| - 1]), cs[|cs| - 1]);
    }
  }

  /** A rollback undoes its reserve, whatever the scopes held before. */
  lemma RollbackUndoesReserve(l: Ledger, raw: seq<string>, a: Amount, id: string)
    requires Exact(l) && Reserved(l, raw, a, id).1.None?
    ensures var (l', failure) := RolledBack(Reserved(l, raw, a, id).0, Reservation(id, Normalized(raw).value, a));
            && failure.None? && l'.reservations == l.reservations && l'.limits == l.limits
            && forall s :: StateOf(l', s) == StateOf(l, s)
  {
    RolledBackAtOnce(l, Reservation(id, Normalized(raw).value, a));
  }

  lemma RolledBackAtOnce(l: Ledger, r: Reservation)
    requires Exact(l) && r.id !in l.reservations && NoDup(r.scopes)
    ensures var held := l.(states := Raised(l, r.scopes, r.amount, true), reservations := l.reservations[r.id := r]);
            var l' := l.(states := Settled(held.states, r.scopes, r.amount, None));
            RolledBack(held, r) == (l', None) && forall s :: StateOf(l', s) == StateOf(l, s)
  {
    var held := l.(states := Raised(l, r.scopes, r.amount, true), reservations := l.reservations[r.id := r]);
    ReserveKeepsExact(l, r);
    FinalizeCompletes(held, r, None);
    assert held.reservations - {r.id} == l.reservations;
    forall s ensures StateOf(l.(states := Settled(held.states, r.scopes, r.amount, None)), s) == StateOf(l, s) {
      RaisedThenSettled(l, r.scopes, r.amount, s);
    }
  }

  lemma HoldThenGiveBack(st: ScopeState, a: Amount)
    ensures GiveBack(Hold(st, a), a, None) == Some(st)
  {
    AddThenSubtract(st.reserved, a);
  }

  lemma RaisedThenSettled(l: Ledger, scopes: seq<string>, a: Amount, s: string)
    ensures StateOf(l.(states := Settled(Raised(l, scopes, a, true), scopes, a, None)), s) == StateOf(l, s)
  {
    HoldThenGiveBack(StateOf(l, s), a);
  }

  // No overselling.

  /** Every scope is within its limits, explicit or default. */
  ghost predicate Within(l: Ledger) {
    forall s :: LimitsFor(l, s).Some? ==> Fits(StateOf(l, s), ZERO, LimitsFor(l, s).value)
  }

  /** A commit never settles more than was reserved. */
  ghost predicate Modest(c: Command) {
    c.Commit? && c.actual.Some? ==> AtMost(c.actual.value, c.reservation.amount)
  }

  lemma FitsEmpty(l: Limits)
    ensures Fits(FRESH, ZERO, l)
  {
  }

  lemma {:induction false} NoRefusalFits(l: Ledger, scopes: seq<string>, a: Amount, s: string)
    requires FirstRefusal(l, scopes, a).None? && s in scopes && LimitsFor(l, s).Some?
    ensures Fits(StateOf(l, s), a, LimitsFor(l, s).value)
  {
    if s == scopes[0] {
      ChecksAreComplete(s, StateOf(l, s), a, LimitsFor(l, s).value);
    } else {
      assert scopes == [scopes[0]] + scopes[1..];
      NoRefusalFits(l, scopes[1..], a, s);
    }
  }

  lemma RaisedFits(st: ScopeState, a: Amount, limits: Limits)
    requires Fits(st, a, limits)
    ensures Fits(Hold(st, a), ZERO, limits) && Fits(Charge(st, a), ZERO, limits)
  {
    AddOf(st.reserved, a);
    AddOf(st.committed, a);
    forall w ensures !Over(Hold(st, a), ZERO, limits, w) && !Over(Charge(st, a), ZERO, limits, w) {
      assert !Over(st, a, limits, w);
    }
  }

  lemma GiveBackFits(st: ScopeState, held: Amount, charge: Option<Amount>, limits: Limits)
    requires Fits(st, ZERO, limits) && GiveBack(st, held, charge).Some?
    requires charge.Some? ==> AtMost(charge.value, held)
    ensures Fits(GiveBack(st, held, charge).value, ZERO, limits)
  {
    var after := GiveBack(st, held, charge).value;
    if charge.Some? { AddOf(st.committed, charge.value); }
    forall w ensures !Over(after, ZERO, limits, w) {
      assert !Over(st, ZERO, limits, w);
    }
  }

  lemma FinalizeKeepsWithin(l: Ledger, r: Reservation, charge: Option<Amount>)
    requires Exact(l) && Within(l) && (charge.Some? ==> AtMost(charge.value, r.amount))
    ensures Within(Finalized(l, r, charge).0)
  {
    if Stored(l, r) {
      FinalizeCompletes(l, r, charge);
      var l' := Finalized(l, r, charge).0;
      forall s | LimitsFor(l', s).Some? ensures Fits(StateOf(l', s), ZERO, LimitsFor(l', s).value) {
        assert Fits(StateOf(l, s), ZERO, LimitsFor(l, s).value);
        if s in r.scopes { GiveBackFits(l.states[s], r.amount, charge, LimitsFor(l, s).value); }
      }
    }
  }

  lemma RaiseKeepsWithin(l: Ledger, scopes: seq<string>, a: Amount, hold: bool, l': Ledger)
    requires Within(l) && FirstRefusal(l, scopes, a).None?
    requires l' == l.(states := Raised(l, scopes, a, hold), reservations := l'.reservations)
    ensures Within(l')
  {
    forall s | LimitsFor(l', s).Some? ensures Fits(StateOf(l', s), ZERO, LimitsFor(l', s).value) {
      assert Fits(StateOf(l, s), ZERO, LimitsFor(l, s).value);
      if s in scopes {
        NoRefusalFits(l, scopes, a, s);
        RaisedFits(StateOf(l, s), a, LimitsFor(l, s).value);
      }
    }
  }

  lemma ClearKeepsWithin(l: Ledger, scope: string)
    requires Within(l)
    ensures Within(l.(states := l.states - {scope}))
  {
    var l' := l.(states := l.states - {scope});
    forall s | LimitsFor(l', s).Some? ensures Fits(StateOf(l', s), ZERO, LimitsFor(l', s).value) {
      assert Fits(StateOf(l, s), ZERO, LimitsFor(l, s).value);
      FitsEmpty(LimitsFor(l', s).value);
    }
  }

  lemma ConfigureKeepsWithin(l: Ledger, raw: string, limits: Limits)
    requires Within(l)
    ensures Within(Configured(l, raw, limits).0)
  {
    var l' := Configured(l, raw, limits).0;
    ChecksAreComplete(Strip(raw), StateOf(l, Strip(raw)), ZERO, limits);
    forall s | LimitsFor(l', s).Some? ensures Fits(StateOf(l', s), ZERO, LimitsFor(l', s).value) {
      if s != Strip(raw) { assert LimitsFor(l', s) == LimitsFor(l, s); }
    }
  }

  lemma StepKeepsWithin(l: Ledger, c: Command)
    requires Exact(l) && Within(l) && Modest(c)
    ensures Within(Step(l, c))
  {
    match c
    case Configure(raw, limits) => ConfigureKeepsWithin(l, raw, limits);
    case Reserve(raw, a, id) =>
      if Reserved(l, raw, a, id).1.None? { RaiseKeepsWithin(l, Normalized(raw).value, a, true, Step(l, c)); }
    case Commit(r, actual) => FinalizeKeepsWithin(l, r, Some(if actual.Some? then actual.value else r.amount));
    case Rollback(r) => FinalizeKeepsWithin(l, r, None);
    case Consume(raw, a) =>
      if Consumed(l, raw, a).1.None? && !IsZero(a) { RaiseKeepsWithin(l, Normalized(raw).value, a, false, Step(l, c)); }
    case Clear(raw) => ClearKeepsWithin(l, Strip(raw));
  }

  /** While commits stay within what they reserved, no reachable state oversells any scope. */
  lemma {:induction false} NeverOversold(defaults: Option<Limits>, cs: seq<Command>)
    requires forall c :: c in cs ==> Modest(c)
    ensures Within(After(defaults, cs))
  {
    if cs == [] {
      if defaults.Some? { FitsEmpty(defaults.value); }
    } else {
      NeverOversold(defaults, cs[..|cs| - 1]);
      AlwaysExact(defaults, cs[..|cs| - 1]);
      StepKeepsWithin(After(defaults, cs[..|cs| - 1]), cs[|cs| - 1]);
    }
  }

  lemma {:induction false} WithinMeansNoRefusal(l: Ledger, scopes: seq<string>)
    requires Within(l)
    ensures FirstRefusal(l, scopes, ZERO).None?
  {
    if scopes != [] {
      if LimitsFor(l, scopes[0]).Some? {
        ChecksAreComplete(scopes[0], StateOf(l, scopes[0]), ZERO, LimitsFor(l, scopes[0]).value);
      }
      WithinMeansNoRefusal(l, scopes[1..]);
    }
  }

  /** Then a commit or a rollback fails exactly when its reservation is not outstanding. */
  lemma FinalizingSucceeds(l: Ledger, c: Command)
    requires Exact(l) && Within(l) && Modest(c)
    ensures c.Commit? ==> Apply(l, c).1 == if Stored(l, c.reservation) then None else Some(ReservationError)
    ensures c.Rollback? ==> Apply(l, c).1 == if Stored(l, c.reservation) then None else Some(ReservationError)
  {
    match c {
      case Commit(r, actual) =>
        if Stored(l, r) {
          FinalizeCompletes(l, r, Some(if actual.Some? then actual.value else r.amount));
          StepKeepsWithin(l, c);
          WithinMeansNoRefusal(Step(l, c), r.scopes);
        }
      case Rollback(r) => if Stored(l, r) { FinalizeCompletes(l, r, None); }
      case _ =>
    }
  }

  /** A command that fails changes nothing; the exception is a commit over a limit, which is settled in full first. */
  lemma FailureChangesNothing(l: Ledger, c: Command)
    requires Exact(l) && Apply(l, c).1.Some?
    ensures c.Commit? && Stored(l, c.reservation) ==>
              && Apply(l, c).1.value.LimitExceeded?
              && Step(l, c) == l.(states := Settled(l.states, c.reservation.scopes, c.reservation.amount,
                                                    Some(if c.actual.Some? then c.actual.value else c.reservation.amount)),
                                  reservations := l.reservations - {c.reservation.id})
    ensures !(c.Commit? && Stored(l, c.reservation)) ==> Step(l, c) == l
  {
    match c {
      case Commit(r, actual) =>
        if Stored(l, r) { FinalizeCompletes(l, r, Some(if actual.Some? then actual.value else r.amount)); }
      case Rollback(r) => if Stored(l, r) { FinalizeCompletes(l, r, None); }
      case _ =>
    }
  }

  // What was charged.

  /** What one command charges to `scope`, whatever the limits say. */
  function ChargedBy(l: Ledger, c: Command, scope: string, res: Resource): nat {
    match c
    case Commit(r, actual) =>
      if Stored(l, r) && scope in r.scopes then Of(if actual.Some? then actual.value else r.amount, res) else 0
    case Consume(raw, a) =>
      if Consumed(l, raw, a).1.None? && scope in Stripped(raw) then Of(a, res) else 0
    case _ => 0
  }

  predicate Clears(l: Ledger, c: Command, scope: string) {
    c.Clear? && Strip(c.scope) == scope && Cleared(l, c.scope).1.None?
  }

  function Charged(defaults: Option<Limits>, cs: seq<Command>, scope: string, res: Resource): nat {
    if cs == [] then 0 else
      var before, c := After(defaults, cs[..|cs| - 1]), cs[|cs| - 1];
      if Clears(before, c, scope) then 0
      else Charged(defaults, cs[..|cs| - 1], scope, res) + ChargedBy(before, c, scope, res)
  }

  /** One command charges what `ChargedBy` says, unless it clears the scope. */
  ghost predicate ChargesRight(l: Ledger, c: Command, scope: string, res: Resource) {
    Of(StateOf(Step(l, c), scope).committed, res) ==
    if Clears(l, c, scope) then 0 else Of(StateOf(l, scope).committed, res) + ChargedBy(l, c, scope, res)
  }

  lemma SettlingCharges(l: Ledger, c: Command, scope: string, res: Resource)
    requires Exact(l) && (c.Commit? || c.Rollback?)
    ensures ChargesRight(l, c, scope, res)
  {
    if c.Commit? {
      FinalizeCharges(l, c.reservation, Some(if c.actual.Some? then c.actual.value else c.reservation.amount), scope, res);
    } else {
      FinalizeCharges(l, c.reservation, None, scope, res);
    }
  }

  lemma StepCharges(l: Ledger, c: Command, scope: string, res: Resource)
    requires Exact(l)
    ensures ChargesRight(l, c, scope, res)
  {
    match c
    case Commit(_, _) => SettlingCharges(l, c, scope, res);
    case Rollback(_) => SettlingCharges(l, c, scope, res);
    case Consume(_, _) => ConsumeCharges(l, c, scope, res);
    case Reserve(_, _, _) => ReserveCharges(l, c, scope, res);
    case Configure(_, _) =>
    case Clear(_) => ClearCharges(l, c, scope, res);
  }

  lemma RaiseCharges(l: Ledger, scopes: seq<string>, a: Amount, scope: string, res: Resource)
    ensures Of(StateOf(l.(states := Raised(l, scopes, a, false)), scope).committed, res) ==
            Of(StateOf(l, scope).committed, res) + if scope in scopes then Of(a, res) else 0
  {
    AddOf(StateOf(l, scope).committed, a);
  }

  lemma ConsumeCharges(l: Ledger, c: Command, scope: string, res: Resource)
    requires c.Consume?
    ensures Of(StateOf(Consumed(l, c.scopes, c.amount).0, scope).committed, res) ==
            Of(StateOf(l, scope).committed, res) + ChargedBy(l, c, scope, res)
  {
    ConsumedStates(l, c.scopes, c.amount);
    if IsZero(c.amount) {
      assert Of(ZERO, res) == 0;
    } else if Consumed(l, c.scopes, c.amount).1.None? {
      RaiseCharges(l, Stripped(c.scopes), c.amount, scope, res);
    }
  }

  lemma ConsumedStates(l: Ledger, raw: seq<string>, a: Amount)
    ensures Consumed(l, raw, a).0 ==
            if Consumed(l, raw, a).1.None? && !IsZero(a) then l.(states := Raised(l, Stripped(raw), a, false)) else l
  {
  }

  lemma ClearCharges(l: Ledger, c: Command, scope: string, res: Resource)
    requires c.Clear?
    ensures Of(StateOf(Cleared(l, c.scope).0, scope).committed, res) ==
            if Clears(l, c, scope) then 0 else Of(StateOf(l, scope).committed, res)
  {
  }

  lemma FinalizeCharges(l: Ledger, r: Reservation, charge: Option<Amount>, scope: string, res: Resource)
    requires Exact(l)
    ensures Of(StateOf(Finalized(l, r, charge).0, scope).committed, res) ==
            Of(StateOf(l, scope).committed, res)
            + if Stored(l, r) && scope in r.scopes && charge.Some? then Of(charge.value, res) else 0
  {
    if Stored(l, r) { FinalizeCompletes(l, r, charge); }
    if charge.Some? { AddOf(StateOf(l, scope).committed, charge.value); }
  }

  lemma ReserveCharges(l: Ledger, c: Command, scope: string, res: Resource)
    requires c.Reserve?
    ensures Of(StateOf(Reserved(l, c.scopes, c.amount, c.id).0, scope).committed, res) == Of(StateOf(l, scope).committed, res)
  {
  }

  /** Limits or not, a scope's committed amount is every charge since it was last cleared. */
  lemma {:induction false} CommittedIsCharged(defaults: Option<Limits>, cs: seq<Command>, scope: string, res: Resource)
    ensures Of(StateOf(After(defaults, cs), scope).committed, res) == Charged(defaults, cs, scope, res)
  {
    if cs != [] {
      var before := After(defaults, cs[..|cs| - 1]);
      AlwaysExact(defaults, cs[..|cs| - 1]);
      CommittedIsCharged(defaults, cs[..|cs| - 1], scope, res);
      StepCharges(before, cs[|cs| - 1], scope, res);
    }
  }

  /** What has been charged to `scope` exceeds its limit on `res`. */
  predicate Overspent(l: Ledger, scope: string, res: Resource) {
    var limits := LimitsFor(l, scope);
    limits.Some? && LimitOn(limits.value, res).Some?
    && Of(StateOf(l, scope).committed, res) > LimitOn(limits.value, res).value
  }

  /** An overspent scope refuses every reservation and every charge that names it, and changes nothing. */
  lemma OverspentRefuses(l: Ledger, raw: seq<string>, a: Amount, id: string, scope: string, res: Resource)
    requires Overspent(l, scope, res) && scope in Stripped(raw)
    ensures Reserved(l, raw, a, id).0 == l && Reserved(l, raw, a, id).1.Some?
    ensures Consumed(l, raw, a).0 == l && (IsZero(a) || Consumed(l, raw, a).1.Some?)
  {
    assert Over(StateOf(l, scope), a, LimitsFor(l, scope).value, Usage(res));
    if FirstRefusal(l, Stripped(raw), a).None? {
      NoRefusalFits(l, Stripped(raw), a, scope);
    }
  }

  /** The n-th command clears `scope`, or replaces its limits by ones it fits. */
  predicate RelievedAt(defaults: Option<Limits>, cs: seq<Command>, n: nat, scope: string)
    requires n < |cs|
  {
    Relieves(After(defaults, cs[..n]), cs[n], scope)
  }

  predicate Relieves(l: Ledger, c: Command, scope: string) {
    || Clears(l, c, scope)
    || (c.Configure? && Strip(c.scope) == scope && Configured(l, c.scope, c.limits).1.None?)
  }

  /** An overspent scope stays overspent until it is relieved. */
  lemma {:induction false} OverspentUntil(defaults: Option<Limits>, cs: seq<Command>, i: nat, m: nat, scope: string, res: Resource)
    requires i <= m <= |cs| && Overspent(After(defaults, cs[..i]), scope, res)
    requires forall n :: i <= n < m ==> !RelievedAt(defaults, cs, n, scope)
    ensures Overspent(After(defaults, cs[..m]), scope, res)
  {
    if m > i {
      OverspentUntil(defaults, cs, i, m - 1, scope, res);
      AfterNext(defaults, cs, m - 1);
      AlwaysExact(defaults, cs[..m - 1]);
      assert !RelievedAt(defaults, cs, m - 1, scope);
      StaysOverspent(After(defaults, cs[..m - 1]), cs[m - 1], scope, res);
    }
  }

  lemma AfterNext(defaults: Option<Limits>, cs: seq<Command>, m: nat)
    requires m < |cs|
    ensures After(defaults, cs[..m + 1]) == Step(After(defaults, cs[..m]), cs[m])
  {
    assert cs[..m + 1][..m] == cs[..m];
  }

  lemma StaysOverspent(l: Ledger, c: Command, scope: string, res: Resource)
    requires Exact(l) && Overspent(l, scope, res) && !Relieves(l, c, scope)
    ensures Overspent(Step(l, c), scope, res)
  {
    StepCharges(l, c, scope, res);
    LimitsKept(l, c, scope);
  }

  lemma LimitsKept(l: Ledger, c: Command, scope: string)
    requires !Relieves(l, c, scope)
    ensures LimitsFor(Step(l, c), scope) == LimitsFor(l, scope)
  {
  }
}
