/**
 The Redis context store. Each context has immutable versions and a head that
 names the latest, each with its own expiry. The save script is one atomic step;
 a key whose expiry has come is gone, so the clock moves between events too.
 */
module ContextStore {
  import opened Common
  import opened Text

  type Time = int

  datatype Snapshot = Snapshot(key: string, revision: nat, payload: string)

  datatype Head = Head(revision: nat, expiresAt: Time)

  datatype Version = Version(snapshot: Snapshot, expiresAt: Time)

  /** Expired entries may linger here; nothing sees them. */
  datatype Keys = Keys(latest: Option<Head>, versions: map<nat, Version>)

  const EMPTY := Keys(None, map[])

  datatype Reply = Saved(revision: nat) | Conflict | Invalid

  predicate LatestLive(k: Keys, now: Time) {
    k.latest.Some? && now < k.latest.value.expiresAt
  }

  predicate VersionLive(k: Keys, r: nat, now: Time) {
    r in k.versions && now < k.versions[r].expiresAt
  }

  /** The save script. */
  function SaveScript(k: Keys, now: Time, expected: nat, snapshot: Snapshot, ttl: int): (Keys, Reply) {
    if ttl < 1 || snapshot.revision != expected + 1 then (k, Invalid)
    else if LatestLive(k, now) && k.latest.value.revision != expected then (k, Conflict)
    else if !LatestLive(k, now) && expected != 0 then (k, Conflict)
    else
      (Keys(Some(Head(snapshot.revision, now + ttl)),
            k.versions[snapshot.revision := Version(snapshot, now + ttl)]), Saved(snapshot.revision))
  }

  function LoadLatest(k: Keys, now: Time): Option<nat> {
    if LatestLive(k, now) then Some(k.latest.value.revision) else None
  }

  /** `Malformed` is a stored snapshot that does not carry the key and the revision it is kept under. */
  datatype Loaded = Absent | Found(snapshot: Snapshot) | BadArgument | Malformed

  function LoadVersion(k: Keys, now: Time, key: string, r: int): Loaded {
    if r < 1 then BadArgument
    else if !VersionLive(k, r, now) then Absent
    else if k.versions[r].snapshot.key != key || k.versions[r].snapshot.revision != r then Malformed
    else Found(k.versions[r].snapshot)
  }

  class RedisContextStore {
    const ttl: int
    /** Each context has Redis keys of its own. */
    var contexts: map<string, Keys>

    constructor (ttl: int)
      ensures this.ttl == ttl && contexts == map[]
    {
      this.ttl := ttl;
      contexts := map[];
    }

    function KeysOf(key: string): Keys
      reads this
    {
      if key in contexts then contexts[key] else EMPTY
    }

    /** `save`: the caller's own check first, then the script on the keys of the snapshot's context. */
    method Save(now: Time, expected: int, snapshot: Snapshot) returns (reply: Reply)
      modifies this
      ensures expected < 0 || snapshot.revision != expected + 1 ==> reply == Invalid && KeysOf(snapshot.key) == old(KeysOf(snapshot.key))
      ensures expected >= 0 && snapshot.revision == expected + 1 ==>
                (KeysOf(snapshot.key), reply) == SaveScript(old(KeysOf(snapshot.key)), now, expected, snapshot, ttl)
      ensures forall key :: key != snapshot.key ==> KeysOf(key) == old(KeysOf(key))
    {
      if expected < 0 || snapshot.revision != expected + 1 || ttl < 1 { return Invalid; }
      var k := if snapshot.key in contexts then contexts[snapshot.key] else EMPTY;
      if k.latest.Some? && now < k.latest.value.expiresAt {
        if k.latest.value.revision != expected { return Conflict; }
      } else if expected != 0 {
        return Conflict;
      }
      k := k.(versions := k.versions[snapshot.revision := Version(snapshot, now + ttl)]);
      k := k.(latest := Some(Head(snapshot.revision, now + ttl)));
      contexts := contexts[snapshot.key := k];
      return Saved(snapshot.revision);
    }

    /** `load` of a given revision, or, at an instant, of the latest. */
    method Load(now: Time, key: string, revision: Option<int>) returns (loaded: Loaded)
      ensures loaded ==
              var k := KeysOf(key);
              if Blank(key) then BadArgument
              else if revision.Some? then LoadVersion(k, now, key, revision.value)
              else if LoadLatest(k, now).Some? then LoadVersion(k, now, key, LoadLatest(k, now).value) else Absent
    {
      if Blank(key) { return BadArgument; }
      var k := KeysOf(key);
      var selected := revision;
      if selected.None? {
        if !(k.latest.Some? && now < k.latest.value.expiresAt) { return Absent; }
        selected := Some(k.latest.value.revision);
      }
      var r := selected.value;
      if r < 1 { return BadArgument; }
      if !(r in k.versions && now < k.versions[r].expiresAt) { return Absent; }
      var snapshot := k.versions[r].snapshot;
      return if snapshot.key != key || snapshot.revision != r then Malformed else Found(snapshot);
    }
  }

  // What saves and loads answer.

  /** A save succeeds exactly if it takes the next revision after the live head, or revision 1 where no head is live. */
  lemma SavesExactly(k: Keys, now: Time, expected: nat, snapshot: Snapshot, ttl: int)
    ensures var reply := SaveScript(k, now, expected, snapshot, ttl).1;
            && (reply == Invalid <==> ttl < 1 || snapshot.revision != expected + 1)
            && (reply.Saved? <==> ttl >= 1 && snapshot.revision == expected + 1
                                  && match LoadLatest(k, now) case Some(r) => r + 1 == snapshot.revision case None => snapshot.revision == 1)
            && (!reply.Saved? ==> SaveScript(k, now, expected, snapshot, ttl).0 == k)
            && (reply.Saved? ==> reply.revision == snapshot.revision)
  {
  }

  /** What was saved is found, as the latest and under its revision, from then on until its time to live is over, and not
      any more; the other revisions are as they were. */
  lemma SavedUntilItExpires(k: Keys, now: Time, expected: nat, snapshot: Snapshot, ttl: int, t: Time, r: int)
    requires SaveScript(k, now, expected, snapshot, ttl).1.Saved?
    ensures var k' := SaveScript(k, now, expected, snapshot, ttl).0;
            && LoadLatest(k', t) == (if t < now + ttl then Some(snapshot.revision) else None)
            && LoadVersion(k', t, snapshot.key, snapshot.revision) == (if t < now + ttl then Found(snapshot) else Absent)
            && (r != snapshot.revision ==> LoadVersion(k', t, snapshot.key, r) == LoadVersion(k, t, snapshot.key, r))
  {
  }

  /** A load finds exactly a stored version of this revision that has not expired, and only under its own key and revision. */
  lemma FindsExactly(k: Keys, now: Time, key: string, r: int, snapshot: Snapshot)
    ensures LoadVersion(k, now, key, r) == Found(snapshot) <==>
            && r >= 1 && r in k.versions && now < k.versions[r].expiresAt
            && k.versions[r].snapshot == snapshot && snapshot.key == key && snapshot.revision == r
    ensures LoadVersion(k, now, key, r) == Absent <==> r >= 1 && (r in k.versions ==> k.versions[r].expiresAt <= now)
    ensures LoadVersion(k, now, key, r) == BadArgument <==> r < 1
  {
  }

  // One context: the clock and the saves, in any order.

  datatype Event =
    | Tick(elapsed: nat)
    | Save(expected: nat, snapshot: Snapshot, ttl: int)

  datatype World = World(key: string, keys: Keys, now: Time)

  function Next(w: World, e: Event): World {
    match e
    case Tick(elapsed) => w.(now := w.now + elapsed)
    case Save(expected, snapshot, ttl) =>
      if snapshot.key != w.key then w else w.(keys := SaveScript(w.keys, w.now, expected, snapshot, ttl).0)
  }

  function After(w: World, events: seq<Event>): World {
    if events == [] then w else Next(After(w, events[..|events| - 1]), events[|events| - 1])
  }

  predicate Named(key: string, r: nat, snapshot: Snapshot) {
    snapshot.key == key && snapshot.revision == r
  }

  /** The live versions are an interval that ends at the latest, expiring in order; with no latest there is none. */
  ghost predicate Consistent(w: World) {
    var k := w.keys;
    if LatestLive(k, w.now) then
      var latest := k.latest.value;
      && latest.revision >= 1
      && VersionLive(k, latest.revision, w.now) && k.versions[latest.revision].expiresAt == latest.expiresAt
      && (forall r: nat :: VersionLive(k, r, w.now) ==> 1 <= r <= latest.revision && Named(w.key, r, k.versions[r].snapshot))
      && (forall r: nat, q: nat :: VersionLive(k, r, w.now) && r <= q <= latest.revision ==>
                           VersionLive(k, q, w.now) && k.versions[r].expiresAt <= k.versions[q].expiresAt)
    else
      forall r: nat :: !VersionLive(k, r, w.now)
  }

  /** A save gives the head at least as long to live as it had. */
  predicate Prolongs(w: World, e: Event) {
    e.Save? && e.snapshot.key == w.key && LatestLive(w.keys, w.now) ==> w.now + e.ttl >= w.keys.latest.value.expiresAt
  }

  predicate Succeeds(w: World, e: Event) {
    e.Save? && e.snapshot.key == w.key && SaveScript(w.keys, w.now, e.expected, e.snapshot, e.ttl).1.Saved?
  }

  lemma OldestFirst(w: World, r: nat)
    requires Consistent(w) && VersionLive(w.keys, r, w.now)
    ensures LatestLive(w.keys, w.now) && r <= w.keys.latest.value.revision
    ensures w.keys.versions[r].expiresAt <= w.keys.latest.value.expiresAt
  {
  }

  lemma TickConsistent(w: World, elapsed: nat)
    requires Consistent(w)
    ensures Consistent(Next(w, Tick(elapsed)))
  {
    var w' := Next(w, Tick(elapsed));
    forall r: nat | VersionLive(w'.keys, r, w'.now) ensures LatestLive(w'.keys, w'.now) {
      assert VersionLive(w.keys, r, w.now);
      OldestFirst(w, r);
    }
  }

  lemma SaveConsistent(w: World, e: Event)
    requires Consistent(w) && Prolongs(w, e) && Succeeds(w, e)
    ensures Consistent(Next(w, e))
  {
    var k' := Next(w, e).keys;
    var top := e.snapshot.revision;
    forall r: nat | VersionLive(k', r, w.now) && r != top
      ensures VersionLive(w.keys, r, w.now) && 1 <= r < top
      ensures k'.versions[r] == w.keys.versions[r] && Named(w.key, r, k'.versions[r].snapshot)
      ensures k'.versions[r].expiresAt <= k'.versions[top].expiresAt
    {
      OldestFirst(w, r);
    }
  }

  lemma NextConsistent(w: World, e: Event)
    requires Consistent(w) && Prolongs(w, e)
    ensures Consistent(Next(w, e))
  {
    match e
    case Tick(elapsed) => TickConsistent(w, elapsed);
    case Save(_, _, _) => if Succeeds(w, e) { SaveConsistent(w, e); }
  }

  /** A successful save never overwrites a live version. */
  lemma SavesFreshVersion(w: World, e: Event)
    requires Consistent(w) && Succeeds(w, e)
    ensures !VersionLive(w.keys, e.snapshot.revision, w.now)
  {
  }

  ghost predicate AllProlong(w: World, events: seq<Event>) {
    forall n :: 0 <= n < |events| ==> Prolongs(After(w, events[..n]), events[n])
  }

  lemma {:induction false} AlwaysConsistent(w: World, events: seq<Event>)
    requires Consistent(w) && AllProlong(w, events)
    ensures Consistent(After(w, events))
  {
    if events != [] {
      var n := |events| - 1;
      assert forall i :: 0 <= i < n ==> events[..n][..i] == events[..i];
      AlwaysConsistent(w, events[..n]);
      NextConsistent(After(w, events[..n]), events[n]);
    }
  }

  /** A version is immutable for as long as it lives, also across a history that starts again at revision 1. */
  lemma {:induction false} LiveVersionsAreImmutable(w: World, events: seq<Event>, r: nat)
    requires Consistent(w) && AllProlong(w, events)
    requires VersionLive(w.keys, r, w.now) && After(w, events).now < w.keys.versions[r].expiresAt
    ensures r in After(w, events).keys.versions && After(w, events).keys.versions[r] == w.keys.versions[r]
  {
    if events != [] {
      var n := |events| - 1;
      assert forall i :: 0 <= i < n ==> events[..n][..i] == events[..i];
      var before := After(w, events[..n]);
      assert before.now <= After(w, events).now;
      LiveVersionsAreImmutable(w, events[..n], r);
      AlwaysConsistent(w, events[..n]);
      if Succeeds(before, events[n]) { SavesFreshVersion(before, events[n]); }
    }
  }

  // One constant time to live.

  /** Everything expires within `ttl` from now. */
  ghost predicate WithinTtl(w: World, ttl: int) {
    w.keys.latest.Some? ==> w.keys.latest.value.expiresAt <= w.now + ttl
  }

  lemma {:induction false} ConstantTtlProlongs(key: string, events: seq<Event>, start: Time, ttl: int)
    requires ttl >= 1 && forall e :: e in events && e.Save? ==> e.ttl == ttl
    ensures AllProlong(World(key, EMPTY, start), events) && WithinTtl(After(World(key, EMPTY, start), events), ttl)
  {
    if events != [] {
      var n := |events| - 1;
      var w := World(key, EMPTY, start);
      ConstantTtlProlongs(key, events[..n], start, ttl);
      forall i | 0 <= i < |events| ensures Prolongs(After(w, events[..i]), events[i]) {
        if i < n {
          assert events[..n][..i] == events[..i] && events[..n][i] == events[i];
          assert Prolongs(After(w, events[..n][..i]), events[..n][i]);
        } else {
          assert events[i] in events;
        }
      }
      assert events[n] in events;
    }
  }

  /** With one time to live, in every reachable state the versions agree with the head. */
  lemma StoreIsConsistent(key: string, events: seq<Event>, start: Time, ttl: int)
    requires ttl >= 1 && forall e :: e in events && e.Save? ==> e.ttl == ttl
    ensures Consistent(After(World(key, EMPTY, start), events))
  {
    ConstantTtlProlongs(key, events, start, ttl);
    AlwaysConsistent(World(key, EMPTY, start), events);
  }

  /** With one time to live, no save that can follow any run overwrites a live version. */
  lemma NoSaveOverwrites(key: string, events: seq<Event>, start: Time, ttl: int, e: Event)
    requires ttl >= 1 && forall e :: e in events && e.Save? ==> e.ttl == ttl
    requires Succeeds(After(World(key, EMPTY, start), events), e)
    ensures var w := After(World(key, EMPTY, start), events); !VersionLive(w.keys, e.snapshot.revision, w.now)
  {
    StoreIsConsistent(key, events, start, ttl);
    SavesFreshVersion(After(World(key, EMPTY, start), events), e);
  }

  /** `load` of the latest reads the head and then the version; in between anything may happen. What it finds, for as
      long as the version the head named lives, is that very snapshot. */
  lemma LoadFindsTheLatest(w: World, events: seq<Event>)
    requires Consistent(w) && AllProlong(w, events) && LoadLatest(w.keys, w.now).Some?
    ensures var r := LoadLatest(w.keys, w.now).value;
            && r in w.keys.versions
            && (After(w, events).now < w.keys.versions[r].expiresAt ==>
                  LoadVersion(After(w, events).keys, After(w, events).now, w.key, r) == Found(w.keys.versions[r].snapshot))
  {
    var r := LoadLatest(w.keys, w.now).value;
    assert VersionLive(w.keys, r, w.now);
    if After(w, events).now < w.keys.versions[r].expiresAt {
      LiveVersionsAreImmutable(w, events, r);
    }
  }

  // Shortening the time to live breaks it.

  /** Saving again from revision 1 up to `n`, all at one instant. */
  function Climb(key: string, n: nat, payload: string): seq<Event> {
    if n == 0 then [] else Climb(key, n - 1, payload) + [Save(n - 1, Snapshot(key, n, payload), 1)]
  }

  lemma {:induction false} ClimbReaches(w: World, n: nat, payload: string)
    requires !LatestLive(w.keys, w.now)
    ensures var w' := After(w, Climb(w.key, n, payload));
            && w'.now == w.now && w'.key == w.key
            && (if n == 0 then w' == w else LatestLive(w'.keys, w.now) && w'.keys.latest.value.revision == n)
            && (forall r :: r > n ==> (r in w'.keys.versions <==> r in w.keys.versions)
                                      && (r in w.keys.versions ==> w'.keys.versions[r] == w.keys.versions[r]))
  {
    if n > 0 {
      ClimbReaches(w, n - 1, payload);
      var c := Climb(w.key, n, payload);
      assert c[..|c| - 1] == Climb(w.key, n - 1, payload);
    }
  }

  /** If a save shortens the head's life, the head can be gone while the version it pointed to before is live, and
      a history that starts again will overwrite that version: prolonging is exactly what keeps versions immutable. */
  lemma ShorteningOverwrites(w: World, e: Event, payload: string) returns (events: seq<Event>, last: Event)
    requires Consistent(w) && Succeeds(w, e) && !Prolongs(w, e)
    ensures var r := w.keys.latest.value.revision;
            var w' := After(Next(w, e), events);
            && VersionLive(w'.keys, r, w'.now) && w'.keys.versions[r] == w.keys.versions[r]
            && Succeeds(w', last) && last.snapshot == Snapshot(w.key, r, payload)
  {
    var r := w.keys.latest.value.revision;
    var w1 := Next(w, e);
    var w2 := Next(w1, Tick(e.ttl));
    assert w1.keys.versions[r] == w.keys.versions[r];
    assert !LatestLive(w2.keys, w2.now);
    ClimbReaches(w2, r - 1, payload);
    events := [Tick(e.ttl)] + Climb(w.key, r - 1, payload);
    AfterTick(w1, e.ttl, Climb(w.key, r - 1, payload));
    last := Save(r - 1, Snapshot(w.key, r, payload), 1);
  }

  lemma {:induction false} AfterTick(w: World, elapsed: nat, events: seq<Event>)
    ensures After(w, [Tick(elapsed)] + events) == After(Next(w, Tick(elapsed)), events)
  {
    var all := [Tick(elapsed)] + events;
    if events == [] {
      assert all[..0] == [];
      assert After(w, []) == w;
      assert all == [Tick(elapsed)];
    } else {
      assert all[..|all| - 1] == [Tick(elapsed)] + events[..|events| - 1];
      AfterTick(w, elapsed, events[..|events| - 1]);
    }
  }
}
