/**
 Redis sorted sets, as the queue scripts read them: a member with its score,
 listed by score and, among equal scores, by member.
 */
module SortedSets {
  import opened Common
  import opened Text

  /** Clock readings and scores. They are only compared and added. */
  type Time = int

  datatype Rank = Rank(score: Time, member: string)

  predicate Below(a: Rank, b: Rank) {
    a.score < b.score || (a.score == b.score && TextBelow(a.member, b.member))
  }

  /** Ranks order their members without ties. */
  ghost predicate Distinct(ranks: map<string, Rank>) {
    forall m, n :: m in ranks && n in ranks && m != n ==> ranks[m] != ranks[n]
  }

  predicate IsLeast(ranks: map<string, Rank>, m: string) {
    m in ranks && forall n | n in ranks :: n == m || Below(ranks[m], ranks[n])
  }

  lemma {:induction false} LeastExists(ranks: map<string, Rank>)
    requires Distinct(ranks) && ranks.Keys != {}
    ensures exists m :: IsLeast(ranks, m)
    decreases |ranks|
  {
    var x :| x in ranks;
    var rest := ranks - {x};
    if rest.Keys == {} {
      assert forall n :: n in ranks ==> n == x || n in rest.Keys;
      assert IsLeast(ranks, x);
    } else {
      assert rest.Keys == ranks.Keys - {x};
      LeastExists(rest);
      var y :| IsLeast(rest, y);
      BelowTotal(ranks[x], ranks[y]);
      if Below(ranks[x], ranks[y]) {
        forall n | n in ranks && n != x ensures Below(ranks[x], ranks[n]) {
          assert n in rest;
          if n != y { BelowTrans(ranks[x], ranks[y], ranks[n]); }
        }
        assert IsLeast(ranks, x);
      } else {
        assert forall n :: n in ranks ==> n == x || n in rest;
        assert IsLeast(ranks, y);
      }
    }
  }

  lemma BelowTotal(a: Rank, b: Rank)
    ensures a == b || Below(a, b) || Below(b, a)
    ensures !(Below(a, b) && Below(b, a))
  {
    TextTotal(a.member, b.member);
  }

  lemma BelowTrans(a: Rank, b: Rank, c: Rank)
    requires Below(a, b) && Below(b, c)
    ensures Below(a, c)
  {
    if a.score == b.score == c.score {
      TextTrans(a.member, b.member, c.member);
    }
  }

  lemma LeastUnique(ranks: map<string, Rank>)
    ensures forall m, n :: IsLeast(ranks, m) && IsLeast(ranks, n) ==> m == n
  {
    forall m, n | IsLeast(ranks, m) && IsLeast(ranks, n) ensures m == n {
      if m != n { BelowTotal(ranks[m], ranks[n]); }
    }
  }

  /** The members in rank order. */
  function InOrder(ranks: map<string, Rank>): (order: seq<string>)
    requires Distinct(ranks)
    decreases |ranks|
  {
    if |ranks| == 0 then [] else
      LeastExists(ranks);
      LeastUnique(ranks);
      var m :| m in ranks && IsLeast(ranks, m);
      [m] + InOrder(ranks - {m})
  }

  /** The list starts with the least member and goes on with the rest. */
  lemma InOrderStep(ranks: map<string, Rank>)
    requires Distinct(ranks) && ranks.Keys != {}
    ensures |InOrder(ranks)| > 0
    ensures IsLeast(ranks, InOrder(ranks)[0])
    ensures InOrder(ranks)[1..] == InOrder(ranks - {InOrder(ranks)[0]})
  {
    LeastExists(ranks);
    LeastUnique(ranks);
    assert |ranks.Keys| != 0;
  }

  lemma {:induction false} InOrderMembers(ranks: map<string, Rank>)
    requires Distinct(ranks)
    ensures forall m :: m in InOrder(ranks) <==> m in ranks
    decreases |ranks|
  {
    if ranks.Keys != {} {
      InOrderStep(ranks);
      var order := InOrder(ranks);
      InOrderMembers(ranks - {order[0]});
      assert order == [order[0]] + order[1..];
      forall m ensures m in order <==> m in ranks {
        assert m in order <==> m == order[0] || m in order[1..];
      }
    }
  }

  /** Each listed member ranks below all that follow it, so none is listed twice. */
  lemma {:induction false} InOrderSorts(ranks: map<string, Rank>, i: nat, j: nat)
    requires Distinct(ranks)
    requires i < j < |InOrder(ranks)|
    ensures InOrder(ranks)[i] in ranks && InOrder(ranks)[j] in ranks
    ensures InOrder(ranks)[i] != InOrder(ranks)[j]
    ensures Below(ranks[InOrder(ranks)[i]], ranks[InOrder(ranks)[j]])
    decreases |ranks|
  {
    InOrderStep(ranks);
    var order := InOrder(ranks);
    var rest := ranks - {order[0]};
    assert order[j] == order[1..][j - 1];
    if i == 0 {
      InOrderMembers(rest);
      assert order[j] in rest;
    } else {
      assert order[i] == order[1..][i - 1];
      InOrderSorts(rest, i - 1, j - 1);
    }
  }

  lemma InOrderNoDup(ranks: map<string, Rank>)
    requires Distinct(ranks)
    ensures NoDup(InOrder(ranks))
  {
    forall i, j | 0 <= i < j < |InOrder(ranks)| ensures InOrder(ranks)[i] != InOrder(ranks)[j] {
      InOrderSorts(ranks, i, j);
    }
  }

  /** `name` carries the members of `ranks` onto those of `renamed`, rank for rank. */
  ghost predicate Renames(ranks: map<string, Rank>, renamed: map<string, Rank>, name: map<string, string>) {
    && (forall m :: m in ranks ==> m in name && name[m] in renamed && renamed[name[m]] == ranks[m])
    && (forall n :: n in renamed ==> exists m :: m in ranks && m in name && name[m] == n)
  }

  lemma RenamedLeast(ranks: map<string, Rank>, renamed: map<string, Rank>, name: map<string, string>, m: string)
    requires Distinct(ranks) && Distinct(renamed) && Renames(ranks, renamed, name)
    requires IsLeast(ranks, m)
    ensures m in name && IsLeast(renamed, name[m])
    ensures Renames(ranks - {m}, renamed - {name[m]}, name)
  {
    forall n | n in renamed ensures n == name[m] || Below(renamed[name[m]], renamed[n]) {
      var k :| k in ranks && k in name && name[k] == n;
    }
    var rest := ranks - {m};
    forall k | k in rest ensures k in name && name[k] in renamed && name[k] != name[m] {
      assert ranks[k] != ranks[m];
    }
    forall n | n in renamed && n != name[m] ensures exists k :: k in rest && k in name && name[k] == n {
      var k :| k in ranks && k in name && name[k] == n;
      assert k in rest;
    }
  }

  /** Renaming members without changing their ranks renames the ordered list. */
  lemma {:induction false} InOrderRenamed(ranks: map<string, Rank>, renamed: map<string, Rank>, name: map<string, string>)
    requires Distinct(ranks) && Distinct(renamed) && Renames(ranks, renamed, name)
    ensures forall m :: m in InOrder(ranks) ==> m in name
    ensures InOrder(renamed) == Named(InOrder(ranks), name)
    decreases |ranks|
  {
    InOrderMembers(ranks);
    if ranks.Keys == {} {
      assert renamed.Keys == {};
    } else {
      InOrderStep(ranks);
      RenamedLeast(ranks, renamed, name, InOrder(ranks)[0]);
      RenamedStep(ranks, renamed, name);
      InOrderRenamed(ranks - {InOrder(ranks)[0]}, renamed - {InOrder(renamed)[0]}, name);
    }
  }

  lemma RenamedStep(ranks: map<string, Rank>, renamed: map<string, Rank>, name: map<string, string>)
    requires Distinct(ranks) && Distinct(renamed)
    requires |InOrder(ranks)| > 0 && InOrder(ranks)[0] in name
    requires IsLeast(renamed, name[InOrder(ranks)[0]])
    ensures |InOrder(renamed)| > 0 && InOrder(renamed)[0] == name[InOrder(ranks)[0]]
    ensures InOrder(renamed)[1..] == InOrder(renamed - {InOrder(renamed)[0]})
  {
    assert name[InOrder(ranks)[0]] in renamed.Keys;
    InOrderStep(renamed);
    LeastUnique(renamed);
  }

  function Named(members: seq<string>, name: map<string, string>): (names: seq<string>)
    requires forall m :: m in members ==> m in name
  {
    if members == [] then [] else [name[members[0]]] + Named(members[1..], name)
  }

  function UpTo(scores: map<string, Time>, now: Time): map<string, Rank> {
    map m | m in scores && scores[m] <= now :: Rank(scores[m], m)
  }

  /** ZRANGEBYSCORE key -inf now. */
  function RangeUpTo(scores: map<string, Time>, now: Time): (members: seq<string>) {
    InOrder(UpTo(scores, now))
  }

  lemma BelowExactly(a: Rank, b: Rank)
    ensures Below(a, b) <==> a.score < b.score || (a.score == b.score && Precedes(a.member, b.member))
  {
    TextBelowExactly(a.member, b.member);
  }

  /** `a` is listed before `b`: a lower score, or the same score and earlier in dictionary order. */
  ghost predicate Earlier(scores: map<string, Time>, a: string, b: string)
    requires a in scores && b in scores
  {
    scores[a] < scores[b] || (scores[a] == scores[b] && Precedes(a, b))
  }

  lemma RangeMembers(scores: map<string, Time>, now: Time)
    ensures forall m :: m in RangeUpTo(scores, now) <==> m in scores && scores[m] <= now
    ensures NoDup(RangeUpTo(scores, now))
  {
    InOrderMembers(UpTo(scores, now));
    InOrderNoDup(UpTo(scores, now));
  }

  /** The range lists the members up to `now`, each once, in ascending order. */
  lemma RangeIsAscending(scores: map<string, Time>, now: Time, i: nat, j: nat)
    requires i < j < |RangeUpTo(scores, now)|
    ensures var range := RangeUpTo(scores, now);
            range[i] in scores && range[j] in scores && Earlier(scores, range[i], range[j])
  {
    var ranks := UpTo(scores, now);
    InOrderSorts(ranks, i, j);
    BelowExactly(ranks[InOrder(ranks)[i]], ranks[InOrder(ranks)[j]]);
  }
}
