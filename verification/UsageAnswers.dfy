/**
 When the ledger says yes. For every operation: the exact condition under which
 it succeeds, said in the fields of limits and amounts, and what a refusal names.
 */
module UsageAnswers {
  import opened Common
  import opened Text
  import opened Usage
  import opened UsageRuns

  // What the limits mean, field by field.

  predicate AtMostLimit(value: int, limit: Option<Positive>) {
    limit.Some? ==> value <= limit.value
  }

  /** Committed, reserved and requested together stay within the limit on one quantity; costs in one currency only. */
  predicate FitsField(st: ScopeState, a: Amount, l: Limits, w: Watched) {
    var c, r := st.committed, st.reserved;
    match w
    case ConcurrentCalls => AtMostLimit(st.active + a.modelCalls, l.maxConcurrentModelCalls)
    case Usage(ModelCalls) => AtMostLimit(c.modelCalls + r.modelCalls + a.modelCalls, l.maxModelCalls)
    case Usage(InputTokens) => AtMostLimit(c.inputTokens + r.inputTokens + a.inputTokens, l.maxInputTokens)
    case Usage(OutputTokens) => AtMostLimit(c.outputTokens + r.outputTokens + a.outputTokens, l.maxOutputTokens)
    case Usage(TotalTokens) => AtMostLimit(c.totalTokens + r.totalTokens + a.totalTokens, l.maxTotalTokens)
    case Usage(CacheHitTokens) => AtMostLimit(c.cacheHitTokens + r.cacheHitTokens + a.cacheHitTokens, l.maxCacheHitTokens)
    case Usage(CacheMissTokens) => AtMostLimit(c.cacheMissTokens + r.cacheMissTokens + a.cacheMissTokens, l.maxCacheMissTokens)
    case Usage(ReasoningTokens) => AtMostLimit(c.reasoningTokens + r.reasoningTokens + a.reasoningTokens, l.maxReasoningTokens)
    case Usage(ToolCalls) => AtMostLimit(c.toolCalls + r.toolCalls + a.toolCalls, l.maxToolCalls)
    case Usage(AgentTasks) => AtMostLimit(c.agentTasks + r.agentTasks + a.agentTasks, l.maxAgentTasks)
    case Usage(Attempts) => AtMostLimit(c.attempts + r.attempts + a.attempts, l.maxAttempts)
    case Usage(Cost(currency)) =>
      currency == l.costCurrency ==>
        AtMostLimit(CostFor(c, currency) + CostFor(r, currency) + CostFor(a, currency), l.maxCostMicros)
  }

  ghost predicate FitsEvery(st: ScopeState, a: Amount, l: Limits) {
    forall w :: FitsField(st, a, l, w)
  }

  lemma FitsOneField(st: ScopeState, a: Amount, l: Limits, w: Watched)
    ensures FitsField(st, a, l, w) <==> !Over(st, a, l, w)
  {
  }

  lemma FitsFieldByField(st: ScopeState, a: Amount, l: Limits)
    ensures Fits(st, a, l) <==> FitsEvery(st, a, l)
  {
    forall w ensures FitsField(st, a, l, w) <==> !Over(st, a, l, w) { FitsOneField(st, a, l, w); }
  }

  /** Every scope with limits, explicit or default, has room for `a`. */
  ghost predicate RoomOn(l: Ledger, scopes: seq<string>, a: Amount) {
    forall s :: s in scopes && LimitsFor(l, s).Some? ==> FitsEvery(StateOf(l, s), a, LimitsFor(l, s).value)
  }

  /** The excess names a scope and a quantity that really is over its limit there, with the figures. */
  ghost predicate NamesExcess(l: Ledger, scopes: seq<string>, a: Amount, e: Excess) {
    && e.scope in scopes && LimitsFor(l, e.scope).Some?
    && Ceiling(LimitsFor(l, e.scope).value, e.watched) == Some(e.limit)
    && e.current == Current(StateOf(l, e.scope), e.watched) && e.requested == Requested(a, e.watched)
    && e.current + e.requested > e.limit
  }

  lemma {:induction false} ExcessIsNamed(scope: string, st: ScopeState, a: Amount, l: Limits, checks: seq<Watched>)
    ensures var e := FirstExcess(scope, st, a, l, checks);
            e.Some? ==> && e.value.scope == scope && Ceiling(l, e.value.watched) == Some(e.value.limit)
                        && e.value.current == Current(st, e.value.watched) && e.value.requested == Requested(a, e.value.watched)
                        && e.value.current + e.value.requested > e.value.limit
  {
    if checks != [] { ExcessIsNamed(scope, st, a, l, checks[1..]); }
  }

  /** A scope-by-scope check refuses exactly when some scope has no room, and then names it. */
  lemma {:induction false} RefusesWithoutRoom(l: Ledger, scopes: seq<string>, a: Amount)
    ensures FirstRefusal(l, scopes, a).None? <==> RoomOn(l, scopes, a)
    ensures FirstRefusal(l, scopes, a).Some? ==> NamesExcess(l, scopes, a, FirstRefusal(l, scopes, a).value)
  {
    if scopes != [] {
      var s, limits := scopes[0], LimitsFor(l, scopes[0]);
      assert scopes == [s] + scopes[1..];
      RefusesWithoutRoom(l, scopes[1..], a);
      if limits.Some? {
        ChecksAreComplete(s, StateOf(l, s), a, limits.value);
        FitsFieldByField(StateOf(l, s), a, limits.value);
        ExcessIsNamed(s, StateOf(l, s), a, limits.value, Checks(limits.value));
      }
    }
  }

  // Scopes.

  /** The scopes as they are used: stripped, none blank, none twice, at least one. */
  predicate ScopesGiven(raw: seq<string>, scopes: seq<string>) {
    && raw != [] && |scopes| == |raw| && NoDup(scopes)
    && forall i | 0 <= i < |raw| :: scopes[i] == Strip(raw[i]) && scopes[i] != ""
  }

  lemma {:induction false} StrippedEach(raw: seq<string>)
    ensures |Stripped(raw)| == |raw| && forall i :: 0 <= i < |raw| ==> Stripped(raw)[i] == Strip(raw[i])
  {
    if raw != [] { StrippedEach(raw[1..]); }
  }

  lemma NormalizedExactly(raw: seq<string>, scopes: seq<string>)
    ensures Normalized(raw) == Some(scopes) <==> ScopesGiven(raw, scopes)
  {
    StrippedEach(raw);
    if ScopesGiven(raw, scopes) {
      assert scopes == Stripped(raw);
    }
  }

  // The operations.

  /** Reserve succeeds exactly for given scopes with room, something to reserve, and a new identifier that is not blank;
      it then holds the amount on exactly these scopes. A refusal for want of room names the room wanted. */
  lemma ReserveAnswers(l: Ledger, raw: seq<string>, a: Amount, id: string, scopes: seq<string>)
    requires ScopesGiven(raw, scopes)
    ensures var (l', failure) := Reserved(l, raw, a, id);
            && (failure.None? <==> a != ZERO && Strip(id) != "" && id !in l.reservations && RoomOn(l, scopes, a))
            && (failure.None? ==> l'.reservations == l.reservations[id := Reservation(id, scopes, a)] && l'.limits == l.limits)
            && (failure.Some? && failure.value.LimitExceeded? ==> NamesExcess(l, scopes, a, failure.value.excess))
            && (failure == Some(ReservationError) <==> a != ZERO && Strip(id) != "" && id in l.reservations)
  {
    NormalizedExactly(raw, scopes);
    RefusesWithoutRoom(l, scopes, a);
  }

  /** A caller's identifier is used as it is, however it looks, unless it is empty. */
  lemma IdentifierAsGiven(requested: string, generated: string)
    ensures Identifier(Some(requested), generated) == (if requested == "" then generated else requested)
    ensures Identifier(None, generated) == generated
  {
  }

  /** What a successful reserve does to one scope, field by field. */
  lemma ReserveHolds(l: Ledger, raw: seq<string>, a: Amount, id: string, s: string)
    requires Reserved(l, raw, a, id).1.None?
    ensures var st, st' := StateOf(l, s), StateOf(Reserved(l, raw, a, id).0, s);
            if s in Stripped(raw) then
              st'.committed == st.committed && st'.active == st.active + a.modelCalls
              && forall res :: Of(st'.reserved, res) == Of(st.reserved, res) + Of(a, res)
            else st' == st
  {
    AddOf(StateOf(l, s).reserved, a);
  }

  /** Consume succeeds exactly for given scopes with room, or for nothing at all. */
  lemma ConsumeAnswers(l: Ledger, raw: seq<string>, a: Amount, scopes: seq<string>)
    requires ScopesGiven(raw, scopes)
    ensures var failure := Consumed(l, raw, a).1;
            && (failure.None? <==> a == ZERO || RoomOn(l, scopes, a))
            && (failure.Some? ==> failure.value.LimitExceeded? && NamesExcess(l, scopes, a, failure.value.excess))
  {
    NormalizedExactly(raw, scopes);
    RefusesWithoutRoom(l, scopes, a);
  }

  /** Bad scopes are refused by both. */
  lemma BadScopesRefused(l: Ledger, raw: seq<string>, a: Amount, id: string)
    requires forall scopes :: !ScopesGiven(raw, scopes)
    ensures Reserved(l, raw, a, id) == (l, Some(BadValue)) && Consumed(l, raw, a) == (l, Some(BadValue))
  {
    if Normalized(raw).Some? { NormalizedExactly(raw, Normalized(raw).value); }
  }

  /** What a scope is left with when it is settled. */
  lemma SettledFields(st: ScopeState, held: Amount, charge: Option<Amount>)
    requires GiveBack(st, held, charge).Some?
    ensures var st' := GiveBack(st, held, charge).value;
            && st'.active == st.active - held.modelCalls
            && (forall res :: Of(st'.reserved, res) == Of(st.reserved, res) - Of(held, res))
            && (forall res :: Of(st'.committed, res) == Of(st.committed, res) + if charge.Some? then Of(charge.value, res) else 0)
  {
    if charge.Some? { AddOf(st.committed, charge.value); }
  }

  /** Settling an outstanding reservation gives back what it held on each of its scopes, charges them, and leaves the
      others alone. */
  lemma SettlingFields(l: Ledger, r: Reservation, charge: Option<Amount>, s: string)
    requires Exact(l) && Stored(l, r)
    ensures var st, st' := StateOf(l, s), StateOf(Finalized(l, r, charge).0, s);
            if s in r.scopes then
              && st'.active == st.active - r.amount.modelCalls
              && (forall res :: Of(st'.reserved, res) == Of(st.reserved, res) - Of(r.amount, res))
              && (forall res :: Of(st'.committed, res) == Of(st.committed, res) + if charge.Some? then Of(charge.value, res) else 0)
            else st' == st
  {
    FinalizeCompletes(l, r, charge);
    if s in r.scopes { SettledFields(l.states[s], r.amount, charge); }
  }

  /** Commit settles an outstanding reservation, and then complains exactly if some scope it names is left over a limit,
      naming that. */
  lemma CommitAnswers(l: Ledger, r: Reservation, actual: Option<Amount>)
    requires Exact(l) && Stored(l, r)
    ensures var charge := if actual.Some? then actual.value else r.amount;
            var settled := l.(states := Settled(l.states, r.scopes, r.amount, Some(charge)), reservations := l.reservations - {r.id});
            var failure := Committed(l, r, actual).1;
            && (failure.None? <==> RoomOn(settled, r.scopes, ZERO))
            && (failure.Some? ==> failure.value.LimitExceeded? && NamesExcess(settled, r.scopes, ZERO, failure.value.excess))
  {
    var charge := if actual.Some? then actual.value else r.amount;
    FinalizeCompletes(l, r, Some(charge));
    RefusesWithoutRoom(Finalized(l, r, Some(charge)).0, r.scopes, ZERO);
  }

  /** Limits are accepted exactly if the scope, as it stands, is within them. */
  lemma ConfigureAnswers(l: Ledger, raw: string, limits: Limits)
    ensures var (l', failure) := Configured(l, raw, limits);
            && (failure.None? <==> Strip(raw) != "" && FitsEvery(StateOf(l, Strip(raw)), ZERO, limits))
            && (failure.None? ==>
                  && LimitsFor(l', Strip(raw)) == Some(limits) && (forall s :: s != Strip(raw) ==> LimitsFor(l', s) == LimitsFor(l, s))
                  && l'.states == l.states && l'.reservations == l.reservations)
            && (failure.Some? ==> l' == l)
  {
    ChecksAreComplete(Strip(raw), StateOf(l, Strip(raw)), ZERO, limits);
    FitsFieldByField(StateOf(l, Strip(raw)), ZERO, limits);
  }

  /** A scope that was never configured has the default limits. */
  lemma DefaultsUntilConfigured(defaults: Option<Limits>, cs: seq<Command>, s: string)
    requires forall c :: c in cs && c.Configure? ==> Strip(c.scope) != s
    ensures LimitsFor(After(defaults, cs), s) == defaults
  {
    if cs != [] {
      assert cs[|cs| - 1] in cs;
      DefaultsUntilConfigured(defaults, cs[..|cs| - 1], s);
      KeepsLimits(After(defaults, cs[..|cs| - 1]), cs[|cs| - 1], s);
    }
  }

  lemma KeepsLimits(l: Ledger, c: Command, s: string)
    requires c.Configure? ==> Strip(c.scope) != s
    ensures LimitsFor(Step(l, c), s) == LimitsFor(l, s) && Step(l, c).defaults == l.defaults
  {
  }

  /** A scope is cleared exactly if no call is active on it and no outstanding reservation names it. */
  lemma ClearAnswers(l: Ledger, raw: string)
    ensures var (l', failure) := Cleared(l, raw);
            && (failure.None? <==> Strip(raw) != "" && StateOf(l, Strip(raw)).active == 0
                                   && forall id :: id in l.reservations ==> Strip(raw) !in l.reservations[id].scopes)
            && (failure.None? ==> StateOf(l', Strip(raw)) == FRESH && forall s :: s != Strip(raw) ==> StateOf(l', s) == StateOf(l, s))
            && l'.reservations == l.reservations && l'.limits == l.limits
            && (failure.Some? ==> l' == l)
  {
  }
}
