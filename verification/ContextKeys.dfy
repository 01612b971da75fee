/** The scope of a model context, the key made from it, and the Redis keys made from that. */
module ContextKeys {
  import opened Common
  import opened Text
  import opened Utf8

  datatype Scope = Scope(run: string, participant: string, tenant: string, task: Option<string>, invocation: Option<string>)

  datatype Made = Made(scope: Scope) | EmptyField

  function StripOptional(s: Option<string>): Option<string> {
    match s
    case None => None
    case Some(v) => Some(Strip(v))
  }

  /** Construction strips every field and refuses one left empty. */
  function MakeScope(run: string, participant: string, tenant: string, task: Option<string>, invocation: Option<string>): Made {
    if Blank(run) || Blank(participant) || Blank(tenant) then EmptyField
    else if (task.Some? && Blank(task.value)) || (invocation.Some? && Blank(invocation.value)) then EmptyField
    else Made(Scope(Strip(run), Strip(participant), Strip(tenant), StripOptional(task), StripOptional(invocation)))
  }

  // Percent-encoding.

  /** The unreserved characters of section 2.3 of RFC 3986. */
  predicate Unreserved(b: Byte) {
    || 'A' as int <= b <= 'Z' as int
    || 'a' as int <= b <= 'z' as int
    || '0' as int <= b <= '9' as int
    || b in {'-' as int, '.' as int, '_' as int, '~' as int}
  }

  function HexDigit(n: int): char
    requires 0 <= n < 16
  {
    if n < 10 then ('0' as int + n) as char else ('A' as int + n - 10) as char
  }

  function QuoteByte(b: Byte): string {
    if Unreserved(b) then [b as char] else ['%', HexDigit(b / 16), HexDigit(b % 16)]
  }

  function QuoteBytes(bs: seq<Byte>): string {
    if bs == [] then "" else QuoteByte(bs[0]) + QuoteBytes(bs[1..])
  }

  function Quote(s: string): string {
    QuoteBytes(Encode(s))
  }

  /** `task_id or "-"`. */
  function TaskPart(task: Option<string>): string {
    if task.None? || task.value == "" then "-" else task.value
  }

  function Key(scope: Scope): string {
    Quote(scope.tenant) + ":" + Quote(scope.run) + ":" + Quote(scope.participant) + ":" + Quote(TaskPart(scope.task))
  }

  predicate OneSegment(s: string) {
    ':' !in s
  }

  lemma {:induction false} QuoteIsOneSegment(bs: seq<Byte>)
    ensures OneSegment(QuoteBytes(bs))
  {
    if bs != [] { QuoteIsOneSegment(bs[1..]); }
  }

  lemma {:induction false} QuoteBytesInjective(a: seq<Byte>, b: seq<Byte>)
    requires QuoteBytes(a) == QuoteBytes(b)
    ensures a == b
  {
    if a != [] && b != [] {
      var x, y := QuoteByte(a[0]), QuoteByte(b[0]);
      assert x <= QuoteBytes(a) && y <= QuoteBytes(a);
      assert x[0] == y[0];
      assert a[0] == b[0] by {
        if x[0] == '%' { assert x[1] == QuoteBytes(a)[1] == y[1] && x[2] == QuoteBytes(a)[2] == y[2]; }
      }
      assert QuoteBytes(a)[|x|..] == QuoteBytes(a[1..]) && QuoteBytes(b)[|x|..] == QuoteBytes(b[1..]);
      QuoteBytesInjective(a[1..], b[1..]);
      assert a == [a[0]] + a[1..] && b == [b[0]] + b[1..];
    }
  }

  /** Percent-encoding loses nothing. */
  lemma QuoteInjective(s: string, t: string)
    ensures Quote(s) == Quote(t) <==> s == t
  {
    if Quote(s) == Quote(t) {
      QuoteBytesInjective(Encode(s), Encode(t));
      DecodesExactlyEncodings(Encode(s), s);
      DecodesExactlyEncodings(Encode(s), t);
    }
  }

  lemma SplitsAtFirst(a: string, s: string, b: string, t: string)
    requires OneSegment(a) && OneSegment(b) && a + ":" + s == b + ":" + t
    ensures a == b && s == t
  {
    var all := a + ":" + s;
    assert all[|a|] == ':' && all[|b|] == ':';
    assert forall i :: 0 <= i < |a| ==> all[i] == a[i];
    assert forall i :: 0 <= i < |b| ==> all[i] == b[i];
    assert |a| == |b|;
    assert a == all[..|a|] && b == all[..|a|];
    assert s == all[|a| + 1..] && t == all[|a| + 1..];
  }

  lemma SplitsAtLast(s: string, a: string, t: string, b: string)
    requires OneSegment(a) && OneSegment(b) && s + ":" + a == t + ":" + b
    ensures s == t && a == b
  {
    var all := s + ":" + a;
    assert all[|s|] == ':' && all[|t|] == ':';
    assert forall i :: |s| < i < |all| ==> all[i] == a[i - |s| - 1];
    assert forall i :: |t| < i < |all| ==> all[i] == b[i - |t| - 1];
    assert |s| == |t|;
    assert s == all[..|s|] && t == all[..|s|];
    assert a == all[|s| + 1..] && b == all[|s| + 1..];
  }

  lemma QuotesAreSegments(a: Scope)
    ensures OneSegment(Quote(a.tenant)) && OneSegment(Quote(a.run)) && OneSegment(Quote(a.participant))
  {
    QuoteIsOneSegment(Encode(a.tenant));
    QuoteIsOneSegment(Encode(a.run));
    QuoteIsOneSegment(Encode(a.participant));
  }

  lemma FourSplit(t: string, r: string, p: string, k: string, t': string, r': string, p': string, k': string)
    requires OneSegment(t) && OneSegment(r) && OneSegment(p) && OneSegment(t') && OneSegment(r') && OneSegment(p')
    requires t + ":" + r + ":" + p + ":" + k == t' + ":" + r' + ":" + p' + ":" + k'
    ensures t == t' && r == r' && p == p' && k == k'
  {
    var (s1, s1') := (p + ":" + k, p' + ":" + k');
    var (s2, s2') := (r + ":" + s1, r' + ":" + s1');
    assert t + ":" + r + ":" + p + ":" + k == t + ":" + s2;
    assert t' + ":" + r' + ":" + p' + ":" + k' == t' + ":" + s2';
    SplitsAtFirst(t, s2, t', s2');
    SplitsAtFirst(r, s1, r', s1');
    SplitsAtFirst(p, k, p', k');
  }

  /** Two scopes share a key exactly when they agree on tenant, run, participant and task, an absent task being "-". */
  lemma KeysEqualIff(a: Scope, b: Scope)
    ensures Key(a) == Key(b) <==>
            && a.tenant == b.tenant && a.run == b.run && a.participant == b.participant
            && TaskPart(a.task) == TaskPart(b.task)
  {
    if Key(a) == Key(b) {
      QuotesAreSegments(a);
      QuotesAreSegments(b);
      FourSplit(Quote(a.tenant), Quote(a.run), Quote(a.participant), Quote(TaskPart(a.task)),
                Quote(b.tenant), Quote(b.run), Quote(b.participant), Quote(TaskPart(b.task)));
      QuoteInjective(a.tenant, b.tenant);
      QuoteInjective(a.run, b.run);
      QuoteInjective(a.participant, b.participant);
      QuoteInjective(TaskPart(a.task), TaskPart(b.task));
    }
  }

  /** Among scopes that construction accepts, only a task named "-" shares the key of no task at all. */
  lemma OnlyDashIsNoTask(run: string, participant: string, tenant: string, task: string, invocation: Option<string>)
    requires MakeScope(run, participant, tenant, Some(task), invocation).Made?
    ensures MakeScope(run, participant, tenant, None, invocation).Made?
    ensures (Key(MakeScope(run, participant, tenant, Some(task), invocation).scope)
             == Key(MakeScope(run, participant, tenant, None, invocation).scope)) <==> Strip(task) == "-"
  {
    KeysEqualIff(MakeScope(run, participant, tenant, Some(task), invocation).scope,
                 MakeScope(run, participant, tenant, None, invocation).scope);
  }

  /** What construction accepts, and what it keeps. */
  lemma MakesExactly(run: string, participant: string, tenant: string, task: Option<string>, invocation: Option<string>)
    ensures var made := MakeScope(run, participant, tenant, task, invocation);
            && (made.Made? <==>
                  && Strip(run) != "" && Strip(participant) != "" && Strip(tenant) != ""
                  && (task.Some? ==> Strip(task.value) != "") && (invocation.Some? ==> Strip(invocation.value) != ""))
            && (made.Made? ==>
                  && made.scope.run == Strip(run) && made.scope.participant == Strip(participant) && made.scope.tenant == Strip(tenant)
                  && (made.scope.task == if task.Some? then Some(Strip(task.value)) else None)
                  && (made.scope.invocation == if invocation.Some? then Some(Strip(invocation.value)) else None))
  {
  }

  // Reading a key back.

  function HexValue(c: char): Option<int> {
    if '0' <= c <= '9' then Some(c as int - '0' as int)
    else if 'A' <= c <= 'F' then Some(c as int - 'A' as int + 10)
    else None
  }

  /** Percent-decoding, section 2.1 of RFC 3986: upper-case digits only, as that section asks of producers. */
  function UnquoteBytes(s: string): Option<seq<Byte>> {
    if s == "" then Some([])
    else if s[0] == '%' then
      if |s| < 3 || HexValue(s[1]).None? || HexValue(s[2]).None? || UnquoteBytes(s[3..]).None? then None
      else Some([HexValue(s[1]).value * 16 + HexValue(s[2]).value] + UnquoteBytes(s[3..]).value)
    else if s[0] as int >= 0x80 || UnquoteBytes(s[1..]).None? then None
    else Some([s[0] as int] + UnquoteBytes(s[1..]).value)
  }

  lemma HexDigitRead(n: int)
    requires 0 <= n < 16
    ensures HexValue(HexDigit(n)) == Some(n)
  {
  }

  lemma {:induction false} UnquoteUndoesQuote(bs: seq<Byte>)
    ensures UnquoteBytes(QuoteBytes(bs)) == Some(bs)
  {
    if bs != [] {
      var b, rest := bs[0], QuoteBytes(bs[1..]);
      UnquoteUndoesQuote(bs[1..]);
      HexDigitRead(b / 16);
      HexDigitRead(b % 16);
      assert QuoteBytes(bs)[|QuoteByte(b)|..] == rest;
      assert [b] + bs[1..] == bs;
    }
  }

  /** Only what has to be is encoded: exactly the unreserved bytes are kept as their characters. */
  lemma KeepsUnreserved(b: Byte)
    ensures var c := b as char;
            QuoteBytes([b]) == [c] <==>
            'A' <= c <= 'Z' || 'a' <= c <= 'z' || '0' <= c <= '9' || c == '-' || c == '.' || c == '_' || c == '~'
  {
    assert [b][1..] == [];
    assert QuoteBytes([b]) == QuoteByte(b);
  }

  /** Splitting at every colon. */
  function Segments(s: string): (parts: seq<string>)
    ensures |parts| >= 1
  {
    if s == "" then [""] else
      var rest := Segments(s[1..]);
      if s[0] == ':' then [""] + rest else [[s[0]] + rest[0]] + rest[1..]
  }

  lemma {:induction false} FirstSegment(a: string, s: string)
    requires OneSegment(a)
    ensures Segments(a + ":" + s) == [a] + Segments(s)
  {
    var all := a + ":" + s;
    if a == "" {
      assert all[1..] == s;
    } else {
      assert all[1..] == a[1..] + ":" + s;
      FirstSegment(a[1..], s);
      assert [a[0]] + a[1..] == a;
    }
  }

  lemma {:induction false} OnlySegment(a: string)
    requires OneSegment(a)
    ensures Segments(a) == [a]
  {
    if a != "" {
      OnlySegment(a[1..]);
      assert [a[0]] + a[1..] == a;
    }
  }

  function Unquoted(s: string): Option<string> {
    match UnquoteBytes(s)
    case None => None
    case Some(bs) => Decode(bs)
  }

  lemma UnquotedQuote(s: string)
    ensures Unquoted(Quote(s)) == Some(s) && OneSegment(Quote(s))
  {
    UnquoteUndoesQuote(Encode(s));
    DecodeUndoesEncode(s);
    QuoteIsOneSegment(Encode(s));
  }

  lemma FourSegments(t: string, r: string, p: string, k: string)
    requires OneSegment(t) && OneSegment(r) && OneSegment(p) && OneSegment(k)
    ensures Segments(t + ":" + r + ":" + p + ":" + k) == [t, r, p, k]
  {
    assert t + ":" + r + ":" + p + ":" + k == t + ":" + (r + ":" + (p + ":" + k));
    FirstSegment(t, r + ":" + (p + ":" + k));
    FirstSegment(r, p + ":" + k);
    FirstSegment(p, k);
    OnlySegment(k);
  }

  /** Read back, a key is four segments: tenant, run, participant and task, a dash standing for no task. */
  lemma KeyReadsBack(scope: Scope)
    ensures var parts := Segments(Key(scope));
            && |parts| == 4
            && Unquoted(parts[0]) == Some(scope.tenant) && Unquoted(parts[1]) == Some(scope.run)
            && Unquoted(parts[2]) == Some(scope.participant)
            && Unquoted(parts[3]) == Some(if scope.task == None || scope.task == Some("") then "-" else scope.task.value)
  {
    UnquotedQuote(scope.tenant);
    UnquotedQuote(scope.run);
    UnquotedQuote(scope.participant);
    UnquotedQuote(TaskPart(scope.task));
    FourSegments(Quote(scope.tenant), Quote(scope.run), Quote(scope.participant), Quote(TaskPart(scope.task)));
  }

  // The keys a context has in Redis.

  function Decimal(n: nat): string {
    if n < 10 then [('0' as int + n) as char] else Decimal(n / 10) + Decimal(n % 10)
  }

  function LatestKey(prefix: string, key: string): string {
    prefix + ":contexts:" + key + ":latest"
  }

  function VersionKey(prefix: string, key: string, revision: nat): string {
    prefix + ":contexts:" + key + ":versions:" + Decimal(revision)
  }

  lemma {:induction false} DecimalIsDigits(n: nat)
    ensures Decimal(n) != "" && forall c :: c in Decimal(n) ==> '0' <= c <= '9'
  {
    if n >= 10 { DecimalIsDigits(n / 10); }
  }

  lemma {:induction false} DecimalInjective(m: nat, n: nat)
    requires Decimal(m) == Decimal(n)
    ensures m == n
  {
    DecimalIsDigits(m / 10);
    DecimalIsDigits(n / 10);
    if m >= 10 && n >= 10 {
      var d := Decimal(m);
      assert Decimal(m / 10) == d[..|d| - 1] && Decimal(n / 10) == d[..|d| - 1];
      assert Decimal(m % 10) == d[|d| - 1..] && Decimal(n % 10) == d[|d| - 1..];
      DecimalInjective(m / 10, n / 10);
    }
  }

  /** No two contexts share a key in Redis, no two revisions of one do, and no head is a version. */
  lemma RedisKeysAreApart(prefix: string, key: string, r: nat, key': string, r': nat)
    ensures LatestKey(prefix, key) == LatestKey(prefix, key') <==> key == key'
    ensures VersionKey(prefix, key, r) == VersionKey(prefix, key', r') <==> key == key' && r == r'
    ensures LatestKey(prefix, key) != VersionKey(prefix, key', r')
  {
    if LatestKey(prefix, key) == LatestKey(prefix, key') { HeadsApart(prefix, key, key'); }
    if VersionKey(prefix, key, r) == VersionKey(prefix, key', r') { VersionsApart(prefix, key, r, key', r'); }
    HeadIsNoVersion(prefix, key, key', r');
  }

  lemma PrefixApart(prefix: string, key: string, key': string)
    requires prefix + ":contexts:" + key == prefix + ":contexts:" + key'
    ensures key == key'
  {
    var k := prefix + ":contexts:" + key;
    assert k[|prefix| + 10..] == key;
    assert k[|prefix| + 10..] == key';
  }

  lemma HeadsApart(prefix: string, key: string, key': string)
    requires LatestKey(prefix, key) == LatestKey(prefix, key')
    ensures key == key'
  {
    var k, k' := prefix + ":contexts:" + key, prefix + ":contexts:" + key';
    var all := LatestKey(prefix, key);
    assert all[..|all| - 7] == k && all[..|all| - 7] == k';
    PrefixApart(prefix, key, key');
  }

  lemma VersionsApart(prefix: string, key: string, r: nat, key': string, r': nat)
    requires VersionKey(prefix, key, r) == VersionKey(prefix, key', r')
    ensures key == key' && r == r'
  {
    var k, k' := prefix + ":contexts:" + key, prefix + ":contexts:" + key';
    DecimalIsDigits(r);
    DecimalIsDigits(r');
    assert VersionKey(prefix, key, r) == (k + ":versions") + ":" + Decimal(r);
    assert VersionKey(prefix, key', r') == (k' + ":versions") + ":" + Decimal(r');
    SplitsAtLast(k + ":versions", Decimal(r), k' + ":versions", Decimal(r'));
    DecimalInjective(r, r');
    var all := k + ":versions";
    assert all[..|all| - 9] == k && all[..|all| - 9] == k';
    PrefixApart(prefix, key, key');
  }

  lemma HeadIsNoVersion(prefix: string, key: string, key': string, r: nat)
    ensures LatestKey(prefix, key) != VersionKey(prefix, key', r)
  {
    DecimalIsDigits(r);
    var all := LatestKey(prefix, key);
    var last := VersionKey(prefix, key', r);
    assert all[|all| - 1] == 't';
    assert last[|last| - 1] == Decimal(r)[|Decimal(r)| - 1];
    assert last[|last| - 1] in Decimal(r);
  }
}
