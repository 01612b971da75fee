/**
 Resolving conflicting intents: the best candidate of each name is kept, the
 kept ones are ranked, and only the first two are compared. Confidences are
 reals here; the original's are floats.
 */
module IntentResolution {
  import opened Common
  import opened Text

  datatype Effect = Clarify | Answer | Read | Write

  /** `source` and `attributes` are carried along and never looked into. */
  datatype Candidate = Candidate(
    name: string, effect: Effect, confidence: real, reason: string, priority: int,
    source: string, signals: seq<string>, attributes: string)

  datatype Why = NoCandidates | LowConfidence | TooClose(top: string, runnerUp: string) | Chosen(name: string)

  /** A candidate taken over, which loses only its priority and source, or a request to clarify. */
  datatype Decision =
    | Adopted(name: string, effect: Effect, confidence: real, reason: string, signals: seq<string>, attributes: string)
    | AskBack(name: string, confidence: real, why: Why, signals: seq<string>, names: seq<string>)

  datatype Resolution = Resolution(primary: Decision, candidates: seq<Candidate>, ambiguous: bool, why: Why)

  datatype Resolver = Resolver(minConfidence: real, margin: real, clarifyName: string)

  predicate HigherRank(c: Candidate, d: Candidate) {
    if c.priority != d.priority then c.priority > d.priority else c.confidence > d.confidence
  }

  function EffectPriority(e: Effect): int {
    match e case Clarify => 0 case Answer => 1 case Read => 2 case Write => 3
  }

  /** The ranking: priority, confidence, effect, name, all descending. */
  predicate Above(c: Candidate, d: Candidate) {
    || HigherRank(c, d)
    || (!HigherRank(d, c)
        && (|| EffectPriority(c.effect) > EffectPriority(d.effect)
            || (c.effect == d.effect && TextBelow(d.name, c.name))))
  }

  /** What the table of kept candidates becomes; a name keeps its place. */
  function Placed(kept: seq<Candidate>, c: Candidate): seq<Candidate> {
    if kept == [] then [c]
    else if kept[0].name != c.name then [kept[0]] + Placed(kept[1..], c)
    else [if HigherRank(c, kept[0]) then c else kept[0]] + kept[1..]
  }

  function Kept(cs: seq<Candidate>): seq<Candidate> {
    if cs == [] then [] else Placed(Kept(cs[..|cs| - 1]), cs[|cs| - 1])
  }

  function Inserted(ranked: seq<Candidate>, c: Candidate): seq<Candidate> {
    if ranked == [] || Above(c, ranked[0]) then [c] + ranked else [ranked[0]] + Inserted(ranked[1..], c)
  }

  function Ranked(kept: seq<Candidate>): seq<Candidate> {
    if kept == [] then [] else Inserted(Ranked(kept[1..]), kept[0])
  }

  function FirstOther(ranked: seq<Candidate>, name: string): Option<Candidate> {
    if ranked == [] then None
    else if ranked[0].name != name then Some(ranked[0])
    else FirstOther(ranked[1..], name)
  }

  function Prefix<T>(s: seq<T>, n: nat): seq<T> {
    if |s| <= n then s else s[..n]
  }

  function Names(cs: seq<Candidate>): seq<string> {
    seq(|cs|, i requires 0 <= i < |cs| => cs[i].name)
  }

  /** At most two signals from each of these candidates. */
  function Signals(cs: seq<Candidate>): seq<string> {
    if cs == [] then [] else Prefix(cs[0].signals, 2) + Signals(cs[1..])
  }

  /** `to_decision`. */
  function DecisionOf(c: Candidate): Decision {
    Adopted(c.name, c.effect, c.confidence, c.reason, c.signals, c.attributes)
  }

  function Clarification(r: Resolver, ranked: seq<Candidate>, confidence: real, why: Why): Resolution {
    Resolution(AskBack(r.clarifyName, confidence, why, Signals(Prefix(ranked, 3)), Names(ranked)), ranked, true, why)
  }

  function Distance(a: real, b: real): real {
    if a < b then b - a else a - b
  }

  function Judged(r: Resolver, ranked: seq<Candidate>): Resolution {
    if ranked == [] then Clarification(r, ranked, 0.0, NoCandidates) else
      var top := ranked[0];
      if top.confidence < r.minConfidence then Clarification(r, ranked, top.confidence, LowConfidence) else
        var runnerUp := FirstOther(ranked[1..], top.name);
        if runnerUp.Some? && runnerUp.value.priority == top.priority
           && Distance(top.confidence, runnerUp.value.confidence) <= r.margin
        then Clarification(r, ranked, top.confidence, TooClose(top.name, runnerUp.value.name))
        else Resolution(DecisionOf(top), ranked, false, Chosen(top.name))
  }

  function Resolve(r: Resolver, cs: seq<Candidate>): Resolution {
    Judged(r, Ranked(Kept(cs)))
  }

  lemma {:induction false} PlacedBeyond(table: seq<Candidate>, c: Candidate, j: nat)
    requires j <= |table| && forall i :: 0 <= i < j ==> table[i].name != c.name
    ensures Placed(table, c) == table[..j] + Placed(table[j..], c)
  {
    if j > 0 {
      PlacedBeyond(table[1..], c, j - 1);
      assert table[1..][j - 1..] == table[j..];
      assert table[..j] == [table[0]] + table[1..][..j - 1];
    }
  }

  lemma PlacedAt(table: seq<Candidate>, c: Candidate, j: nat)
    requires j < |table| && table[j].name == c.name && forall i :: 0 <= i < j ==> table[i].name != c.name
    ensures Placed(table, c) == table[j := if HigherRank(c, table[j]) then c else table[j]]
  {
    PlacedBeyond(table, c, j);
    var rest := table[j..];
    assert rest[0] == table[j] && rest[1..] == table[j + 1..];
  }

  /** Enter a candidate in the table under its name, unless a better one of that name is there. */
  method Place(table: seq<Candidate>, c: Candidate) returns (kept: seq<Candidate>)
    ensures kept == Placed(table, c)
  {
    var j := 0;
    while j < |table| && table[j].name != c.name
      invariant j <= |table|
      invariant forall i :: 0 <= i < j ==> table[i].name != c.name
    {
      j := j + 1;
    }
    if j == |table| {
      PlacedBeyond(table, c, j);
      return table + [c];
    }
    PlacedAt(table, c, j);
    kept := if HigherRank(c, table[j]) then table[j := c] else table;
  }

  /** `_deduplicate`: one pass over the candidates, filling a table by name. */
  method Deduplicate(cs: seq<Candidate>) returns (kept: seq<Candidate>)
    ensures kept == Kept(cs)
  {
    kept := [];
    for i := 0 to |cs|
      invariant kept == Kept(cs[..i])
    {
      kept := Place(kept, cs[i]);
      assert cs[..i + 1][..i] == cs[..i];
    }
    assert cs[..|cs|] == cs;
  }

  // The ranking is an order.

  lemma AboveTotal(c: Candidate, d: Candidate)
    ensures c.name != d.name ==> Above(c, d) || Above(d, c)
    ensures !(Above(c, d) && Above(d, c))
  {
    TextTotal(c.name, d.name);
  }

  lemma AboveTrans(a: Candidate, b: Candidate, c: Candidate)
    requires Above(a, b) && Above(b, c)
    ensures Above(a, c)
  {
    if TextBelow(b.name, a.name) && TextBelow(c.name, b.name) { TextTrans(c.name, b.name, a.name); }
  }

  ghost predicate DistinctNames(s: seq<Candidate>) {
    forall i, j :: 0 <= i < j < |s| ==> s[i].name != s[j].name
  }

  ghost predicate Descending(s: seq<Candidate>) {
    forall i, j :: 0 <= i < j < |s| ==> Above(s[i], s[j])
  }

  ghost predicate SameMembers(s: seq<Candidate>, t: seq<Candidate>) {
    forall c :: c in s <==> c in t
  }

  lemma {:induction false} InsertedDescends(ranked: seq<Candidate>, c: Candidate)
    requires Descending(ranked) && forall d :: d in ranked ==> d.name != c.name
    ensures Descending(Inserted(ranked, c)) && SameMembers(Inserted(ranked, c), [c] + ranked)
  {
    if ranked != [] {
      AboveTotal(c, ranked[0]);
      assert forall d :: d in ranked <==> d == ranked[0] || d in ranked[1..];
      if Above(c, ranked[0]) {
        forall d | d in ranked ensures Above(c, d) {
          if d != ranked[0] { AboveTrans(c, ranked[0], d); }
        }
      } else {
        InsertedDescends(ranked[1..], c);
        forall d | d in Inserted(ranked[1..], c) ensures Above(ranked[0], d) { }
      }
    }
  }

  lemma {:induction false} RankedDescends(kept: seq<Candidate>)
    requires DistinctNames(kept)
    ensures Descending(Ranked(kept)) && SameMembers(Ranked(kept), kept)
  {
    if kept != [] {
      RankedDescends(kept[1..]);
      InsertedDescends(Ranked(kept[1..]), kept[0]);
      assert kept == [kept[0]] + kept[1..];
    }
  }

  /** A descending list is determined by its members. */
  lemma {:induction false} DescendingUnique(s: seq<Candidate>, t: seq<Candidate>)
    requires Descending(s) && Descending(t) && SameMembers(s, t)
    ensures s == t
  {
    assert s != [] ==> s[0] in t;
    assert t != [] ==> t[0] in s;
    if s != [] {
      AboveTotal(s[0], t[0]);
      assert s[0] == t[0];
      TailMembers(s, t);
      TailMembers(t, s);
      DescendingUnique(s[1..], t[1..]);
      assert s == [s[0]] + s[1..] && t == [t[0]] + t[1..];
    }
  }

  lemma TailMembers(s: seq<Candidate>, t: seq<Candidate>)
    requires Descending(s) && s != [] && t != [] && s[0] == t[0] && SameMembers(s, t)
    ensures forall c :: c in s[1..] ==> c in t[1..]
  {
    forall c | c in s[1..] ensures c in t[1..] {
      AboveTotal(s[0], s[0]);
      assert c in t;
      assert t == [t[0]] + t[1..];
    }
  }

  // Which candidates are kept.

  /** `t` is a candidate that no candidate of its name outranks. */
  ghost predicate Best(t: Candidate, cs: seq<Candidate>) {
    t in cs && forall c :: c in cs && c.name == t.name ==> !HigherRank(c, t)
  }

  /** The first candidate of this name. */
  function Find(s: seq<Candidate>, name: string): (found: Option<Candidate>)
    ensures found.Some? ==> found.value in s && found.value.name == name
    ensures found.None? ==> forall t :: t in s ==> t.name != name
  {
    if s == [] then None else if s[0].name == name then Some(s[0]) else Find(s[1..], name)
  }

  ghost predicate KeepsBest(kept: seq<Candidate>, cs: seq<Candidate>) {
    && DistinctNames(kept)
    && (forall t :: t in kept ==> Best(t, cs))
    && (forall c :: c in cs ==> Find(kept, c.name).Some?)
  }

  /** `t` is in the table once `c` has been entered in `kept`. */
  ghost predicate SurvivesPlacing(kept: seq<Candidate>, c: Candidate, t: Candidate) {
    || (t in kept && (t.name != c.name || !HigherRank(c, t)))
    || (t == c && forall d :: d in kept && d.name == c.name ==> HigherRank(c, d))
  }

  lemma PlacedAtHead(kept: seq<Candidate>, c: Candidate)
    requires DistinctNames(kept) && kept != [] && kept[0].name == c.name
    ensures DistinctNames(Placed(kept, c))
    ensures forall t :: t in Placed(kept, c) <==> SurvivesPlacing(kept, c, t)
  {
    assert forall t :: t in kept <==> t == kept[0] || t in kept[1..];
    assert forall t :: t in kept[1..] ==> t.name != c.name;
  }

  lemma {:induction false} PlacedMembers(kept: seq<Candidate>, c: Candidate)
    requires DistinctNames(kept)
    ensures DistinctNames(Placed(kept, c))
    ensures forall t :: t in Placed(kept, c) <==> SurvivesPlacing(kept, c, t)
  {
    if kept != [] && kept[0].name == c.name {
      PlacedAtHead(kept, c);
    } else if kept != [] {
      assert forall t :: t in kept <==> t == kept[0] || t in kept[1..];
      PlacedMembers(kept[1..], c);
      forall t | t in Placed(kept[1..], c) ensures t.name != kept[0].name {
        assert SurvivesPlacing(kept[1..], c, t);
      }
    }
  }

  lemma {:induction false} KeptAreBest(cs: seq<Candidate>)
    ensures KeepsBest(Kept(cs), cs)
  {
    if cs != [] {
      var n := |cs| - 1;
      KeptAreBest(cs[..n]);
      PlacedMembers(Kept(cs[..n]), cs[n]);
      assert cs == cs[..n] + [cs[n]];
      PlacedKeepsBest(Kept(cs[..n]), cs[..n], cs[n]);
    }
  }

  lemma PlacedKeepsBest(kept: seq<Candidate>, cs: seq<Candidate>, c: Candidate)
    requires KeepsBest(kept, cs)
    ensures KeepsBest(Placed(kept, c), cs + [c])
  {
    PlacedMembers(kept, c);
    var placed := Placed(kept, c);
    forall t | t in placed ensures Best(t, cs + [c]) {
      forall d | d in cs + [c] && d.name == t.name ensures !HigherRank(d, t) {
        if t !in kept && d in cs { assert Find(kept, d.name).Some?; }
      }
    }
    forall d | d in cs + [c] ensures Find(placed, d.name).Some? {
      if d in cs && d.name != c.name {
        assert Find(kept, d.name).value in placed;
      } else {
        var k := Find(kept, c.name);
        assert if k.Some? && !HigherRank(c, k.value) then k.value in placed else c in placed;
      }
    }
  }

  // The verdict looks at two candidates and speaks of all.

  /** `t` may be adopted: confident enough, best of its name, and clearly ahead of every other name. */
  ghost predicate ClearlyAhead(r: Resolver, t: Candidate, cs: seq<Candidate>) {
    && Best(t, cs) && t.confidence >= r.minConfidence
    && forall c :: c in cs && c.name != t.name ==> Behind(r, c, t)
  }

  predicate Behind(r: Resolver, c: Candidate, t: Candidate) {
    c.priority < t.priority || (c.priority == t.priority && c.confidence + r.margin < t.confidence)
  }

  lemma RankedKeeps(cs: seq<Candidate>) returns (ranked: seq<Candidate>)
    ensures ranked == Ranked(Kept(cs)) && Descending(ranked)
    ensures forall t :: t in ranked ==> Best(t, cs)
    ensures forall c :: c in cs ==> Find(ranked, c.name).Some?
    ensures forall t, u :: t in ranked && u in ranked && t != u ==> t.name != u.name
    ensures forall t :: t in ranked <==> t in Kept(cs)
  {
    KeptAreBest(cs);
    RankedDescends(Kept(cs));
    ranked := Ranked(Kept(cs));
    forall c | c in cs ensures Find(ranked, c.name).Some? {
      assert Find(Kept(cs), c.name).value in ranked;
    }
  }

  lemma SecondIsRunnerUp(ranked: seq<Candidate>)
    requires ranked != []
    requires forall t, u :: t in ranked && u in ranked && t != u ==> t.name != u.name
    requires Descending(ranked)
    ensures FirstOther(ranked[1..], ranked[0].name) == if |ranked| == 1 then None else Some(ranked[1])
  {
    if |ranked| > 1 {
      AboveTotal(ranked[0], ranked[0]);
      assert ranked[0] != ranked[1];
    }
  }

  /** Whatever is adopted is clearly ahead of every candidate of another name, also those never compared with it. */
  lemma AdoptedIsAhead(r: Resolver, cs: seq<Candidate>)
    requires r.margin >= 0.0 && !Resolve(r, cs).ambiguous
    ensures var result := Resolve(r, cs);
            && result.candidates != [] && result.primary == DecisionOf(result.candidates[0])
            && ClearlyAhead(r, result.candidates[0], cs)
  {
    var ranked := RankedKeeps(cs);
    SecondIsRunnerUp(ranked);
    forall c | c in cs && c.name != ranked[0].name ensures Behind(r, c, ranked[0]) {
      RunnerUpSuffices(r, ranked, c);
    }
  }

  /** A candidate behind whatever is kept of its name is behind the top if the second in rank is. */
  lemma RunnerUpSuffices(r: Resolver, ranked: seq<Candidate>, c: Candidate)
    requires r.margin >= 0.0 && Descending(ranked) && ranked != [] && c.name != ranked[0].name
    requires Find(ranked, c.name).Some? && !HigherRank(c, Find(ranked, c.name).value)
    requires |ranked| > 1 ==> Behind(r, ranked[1], ranked[0])
    ensures Behind(r, c, ranked[0])
  {
    NotAboveRunnerUp(ranked, Find(ranked, c.name).value);
  }

  lemma NotAboveRunnerUp(ranked: seq<Candidate>, k: Candidate)
    requires Descending(ranked) && k in ranked && k != ranked[0]
    ensures |ranked| > 1 && !HigherRank(k, ranked[1]) && !HigherRank(ranked[1], ranked[0])
  {
    var j :| 0 <= j < |ranked| && ranked[j] == k;
    assert Above(ranked[0], ranked[1]);
    if j > 1 { assert Above(ranked[1], ranked[j]); }
    AboveTotal(ranked[1], k);
    AboveTotal(ranked[0], ranked[1]);
  }

  lemma AheadIsTop(r: Resolver, cs: seq<Candidate>, t: Candidate, ranked: seq<Candidate>)
    requires ClearlyAhead(r, t, cs) && r.margin >= 0.0 && Descending(ranked)
    requires forall u :: u in ranked ==> Best(u, cs)
    requires forall c :: c in cs ==> Find(ranked, c.name).Some?
    ensures ranked != [] && ranked[0].name == t.name
    ensures ranked[0].priority == t.priority && ranked[0].confidence == t.confidence
  {
    var k := Find(ranked, t.name).value;
    assert Best(k, cs) && Best(ranked[0], cs);
    assert ranked[0].name == t.name || Behind(r, ranked[0], t);
    TopIsHighest(ranked, k);
    SameRank(t, k);
    if ranked[0].name == t.name { SameRank(t, ranked[0]); }
  }

  lemma TopIsHighest(ranked: seq<Candidate>, k: Candidate)
    requires Descending(ranked) && k in ranked
    ensures !HigherRank(k, ranked[0])
  {
    if k != ranked[0] { AboveTotal(ranked[0], k); }
  }

  lemma SameRank(c: Candidate, d: Candidate)
    requires !HigherRank(c, d) && !HigherRank(d, c)
    ensures c.priority == d.priority && c.confidence == d.confidence
  {
  }

  /** A candidate is adopted exactly when some candidate is clearly ahead of all others. */
  lemma AdoptsExactlyWhenAhead(r: Resolver, cs: seq<Candidate>)
    requires r.margin >= 0.0
    ensures !Resolve(r, cs).ambiguous <==> exists t :: ClearlyAhead(r, t, cs)
  {
    if !Resolve(r, cs).ambiguous { AdoptedIsAhead(r, cs); }
    if t :| ClearlyAhead(r, t, cs) {
      var ranked := RankedKeeps(cs);
      AheadIsTop(r, cs, t, ranked);
      SecondIsRunnerUp(ranked);
      if |ranked| > 1 {
        assert ranked[1] in ranked && ranked[0] in ranked;
        AboveTotal(ranked[0], ranked[0]);
        assert Behind(r, ranked[1], t);
      }
    }
  }

  // Does the order of the candidates matter?

  /** No name has two different best candidates. */
  ghost predicate NoTies(cs: seq<Candidate>) {
    forall c, d :: Best(c, cs) && Best(d, cs) && c.name == d.name ==> c == d
  }

  lemma SameBest(cs: seq<Candidate>, cs': seq<Candidate>, t: Candidate)
    requires SameMembers(cs, cs') && Best(t, cs)
    ensures Best(t, cs')
  {
  }

  lemma KeptUnlessTied(cs: seq<Candidate>, cs': seq<Candidate>, t: Candidate)
    requires SameMembers(cs, cs') && NoTies(cs) && t in Kept(cs)
    ensures t in Kept(cs')
  {
    var same := KeptOfName(cs, t);
    SameBest(cs, cs', t);
    var u := KeptOfName(cs', t);
    SameBest(cs', cs, u);
  }

  lemma KeptOfName(cs: seq<Candidate>, c: Candidate) returns (t: Candidate)
    requires c in cs || c in Kept(cs)
    ensures t in Kept(cs) && t.name == c.name && Best(t, cs)
    ensures c in Kept(cs) ==> t == c
  {
    KeptAreBest(cs);
    t := Find(Kept(cs), c.name).value;
  }

  lemma OrderIrrelevant(r: Resolver, cs: seq<Candidate>, cs': seq<Candidate>)
    requires NoTies(cs) && SameMembers(cs, cs')
    ensures Resolve(r, cs') == Resolve(r, cs)
  {
    forall c, d | Best(c, cs') && Best(d, cs') && c.name == d.name ensures c == d {
      SameBest(cs', cs, c);
      SameBest(cs', cs, d);
    }
    forall t ensures t in Kept(cs) <==> t in Kept(cs') {
      if t in Kept(cs) { KeptUnlessTied(cs, cs', t); }
      if t in Kept(cs') { KeptUnlessTied(cs', cs, t); }
    }
    KeptAreBest(cs);
    KeptAreBest(cs');
    RankedDescends(Kept(cs));
    RankedDescends(Kept(cs'));
    DescendingUnique(Ranked(Kept(cs)), Ranked(Kept(cs')));
  }

  /** A best candidate that comes first is the one kept. */
  lemma {:induction false} FirstBestIsKept(cs: seq<Candidate>)
    requires cs != [] && Best(cs[0], cs)
    ensures cs[0] in Kept(cs)
  {
    var n := |cs| - 1;
    if n > 0 {
      FirstBestIsKept(cs[..n]);
      KeptAreBest(cs[..n]);
      PlacedMembers(Kept(cs[..n]), cs[n]);
    } else {
      assert Kept(cs[..n]) == [];
    }
  }

  function ToFront(cs: seq<Candidate>, i: nat): seq<Candidate>
    requires i < |cs|
  {
    [cs[i]] + cs[..i] + cs[i + 1..]
  }

  lemma ToFrontPermutes(cs: seq<Candidate>, i: nat)
    requires i < |cs|
    ensures multiset(ToFront(cs, i)) == multiset(cs) && SameMembers(ToFront(cs, i), cs)
  {
    assert cs == cs[..i] + [cs[i]] + cs[i + 1..];
    assert multiset(ToFront(cs, i)) == multiset(cs);
    forall c ensures c in ToFront(cs, i) <==> c in cs { assert c in multiset(ToFront(cs, i)) <==> c in multiset(cs); }
  }

  lemma FrontIsKept(cs: seq<Candidate>, i: nat)
    requires i < |cs| && Best(cs[i], cs)
    ensures Find(Ranked(Kept(ToFront(cs, i))), cs[i].name) == Some(cs[i])
  {
    ToFrontPermutes(cs, i);
    SameBest(cs, ToFront(cs, i), cs[i]);
    FirstBestIsKept(ToFront(cs, i));
    var ranked := RankedKeeps(ToFront(cs, i));
  }

  lemma ListsEverything(r: Resolver, cs: seq<Candidate>)
    ensures Resolve(r, cs).candidates == Ranked(Kept(cs))
  {
  }

  lemma TieShows(r: Resolver, cs: seq<Candidate>) returns (i: nat, j: nat)
    requires !NoTies(cs)
    ensures i < |cs| && j < |cs| && Resolve(r, ToFront(cs, i)) != Resolve(r, ToFront(cs, j))
  {
    i, j := TiedPlaces(cs);
    FrontIsKept(cs, i);
    FrontIsKept(cs, j);
    ListsEverything(r, ToFront(cs, i));
    ListsEverything(r, ToFront(cs, j));
  }

  lemma TiedPlaces(cs: seq<Candidate>) returns (i: nat, j: nat)
    requires !NoTies(cs)
    ensures i < |cs| && j < |cs| && Best(cs[i], cs) && Best(cs[j], cs) && cs[i].name == cs[j].name && cs[i] != cs[j]
  {
    var c, d :| Best(c, cs) && Best(d, cs) && c.name == d.name && c != d;
    i :| 0 <= i < |cs| && cs[i] == c;
    j :| 0 <= j < |cs| && cs[j] == d;
  }

  /** The resolution is the same for every order of the candidates exactly when no name has two different best ones. */
  lemma OrderMattersExactlyForTies(r: Resolver, cs: seq<Candidate>)
    ensures NoTies(cs) <==> forall cs' :: multiset(cs') == multiset(cs) ==> Resolve(r, cs') == Resolve(r, cs)
  {
    if NoTies(cs) {
      forall cs' | multiset(cs') == multiset(cs) ensures Resolve(r, cs') == Resolve(r, cs) {
        forall c ensures c in cs <==> c in cs' { assert c in multiset(cs) <==> c in multiset(cs'); }
        OrderIrrelevant(r, cs, cs');
      }
    } else {
      var i, j := TieShows(r, cs);
      ToFrontPermutes(cs, i);
      ToFrontPermutes(cs, j);
    }
  }

  // What a resolution reports.

  /** `c` is listed before `d`: the higher priority, else the higher confidence, else the graver effect, else the name
      later in dictionary order. */
  ghost predicate ListedBefore(c: Candidate, d: Candidate) {
    || c.priority > d.priority
    || (c.priority == d.priority
        && (|| c.confidence > d.confidence
            || (c.confidence == d.confidence
                && (|| Graver(c.effect, d.effect) || (c.effect == d.effect && Precedes(d.name, c.name))))))
  }

  /** Writing is graver than reading, reading than answering, answering than asking back. */
  predicate Graver(e: Effect, f: Effect) {
    match e
    case Write => !f.Write?
    case Read => f.Answer? || f.Clarify?
    case Answer => f.Clarify?
    case Clarify => false
  }

  lemma AboveExactly(c: Candidate, d: Candidate)
    ensures Above(c, d) <==> ListedBefore(c, d)
  {
    TextBelowExactly(d.name, c.name);
  }

  /** The candidates reported are the best of each name, in that order, each name once. */
  lemma ReportsInOrder(r: Resolver, cs: seq<Candidate>)
    ensures var listed := Resolve(r, cs).candidates;
            && (forall t :: t in listed ==> Best(t, cs))
            && (forall c :: c in cs ==> exists t :: t in listed && t.name == c.name)
            && DistinctNames(listed)
            && forall i, j :: 0 <= i < j < |listed| ==> ListedBefore(listed[i], listed[j])
  {
    var listed := RankedKeeps(cs);
    ListsEverything(r, cs);
    forall i, j | 0 <= i < j < |listed| ensures ListedBefore(listed[i], listed[j]) && listed[i].name != listed[j].name {
      AboveExactly(listed[i], listed[j]);
      AboveTotal(listed[i], listed[i]);
    }
    forall c | c in cs ensures exists t :: t in listed && t.name == c.name {
      assert Find(listed, c.name).value in listed;
    }
  }

  /** Why nothing is adopted, and how confident the question is. */
  lemma SaysWhy(r: Resolver, cs: seq<Candidate>)
    ensures var result := Resolve(r, cs);
            var listed := result.candidates;
            match result.why
            case NoCandidates => result.ambiguous && cs == [] && result.primary.AskBack? && result.primary.confidence == 0.0
            case LowConfidence =>
              result.ambiguous && listed != [] && listed[0].confidence < r.minConfidence
              && result.primary.AskBack? && result.primary.confidence == listed[0].confidence
            case TooClose(top, runnerUp) =>
              && result.ambiguous && |listed| > 1 && top == listed[0].name && runnerUp == listed[1].name
              && listed[0].confidence >= r.minConfidence && listed[0].priority == listed[1].priority
              && listed[0].confidence - listed[1].confidence <= r.margin
              && result.primary.AskBack? && result.primary.confidence == listed[0].confidence
            case Chosen(name) => !result.ambiguous && listed != [] && name == listed[0].name && result.primary == DecisionOf(listed[0])
  {
    var listed := RankedKeeps(cs);
    ListsEverything(r, cs);
    assert cs != [] ==> Find(listed, cs[0].name).Some?;
    if listed != [] {
      SecondIsRunnerUp(listed);
      if |listed| > 1 {
        assert Above(listed[0], listed[1]);
        AboveTotal(listed[0], listed[1]);
      }
    }
  }

  function AtMostTwo(signals: seq<string>): seq<string> {
    if |signals| < 2 then signals else [signals[0], signals[1]]
  }

  /** A question carries the configured name, the names of all candidates, and two signals each of the first three. */
  lemma AsksWith(r: Resolver, cs: seq<Candidate>)
    requires Resolve(r, cs).ambiguous
    ensures var result := Resolve(r, cs);
            var listed := result.candidates;
            && result.primary.AskBack? && result.primary.name == r.clarifyName && result.primary.why == result.why
            && |result.primary.names| == |listed|
            && (forall i :: 0 <= i < |listed| ==> result.primary.names[i] == listed[i].name)
            && result.primary.signals ==
               (if |listed| > 0 then AtMostTwo(listed[0].signals) else [])
               + (if |listed| > 1 then AtMostTwo(listed[1].signals) else [])
               + (if |listed| > 2 then AtMostTwo(listed[2].signals) else [])
  {
    ListsEverything(r, cs);
    SignalsOfThree(Ranked(Kept(cs)));
  }

  lemma SignalsOfThree(listed: seq<Candidate>)
    ensures Signals(Prefix(listed, 3)) ==
            (if |listed| > 0 then AtMostTwo(listed[0].signals) else [])
            + (if |listed| > 1 then AtMostTwo(listed[1].signals) else [])
            + (if |listed| > 2 then AtMostTwo(listed[2].signals) else [])
  {
    var three := Prefix(listed, 3);
    if |three| > 0 { FirstSignals(three); }
    if |three| > 1 { FirstSignals(three[1..]); }
    if |three| > 2 {
      FirstSignals([three[2]]);
      assert three[1..][1..] == [three[2]] && [three[2]][1..] == [];
    }
  }

  lemma FirstSignals(cs: seq<Candidate>)
    requires cs != []
    ensures Signals(cs) == AtMostTwo(cs[0].signals) + Signals(cs[1..])
  {
    assert Prefix(cs[0].signals, 2) == AtMostTwo(cs[0].signals);
  }
}
