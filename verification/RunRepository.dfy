/**
 The versioned run record, replaced only by compare-and-set. Each script is one
 atomic step over one record and the creation-time index.
 */
module RunRepository {
  import opened Common

  type Time = int

  datatype RunStatus = Queued | Running | Paused | Blocked | Completed | Failed | CancelledRun | TimedOut {
    predicate Settled() { !Queued? && !Running? }
  }

  datatype Record = Record(
    runId: string, version: int, status: RunStatus, createdAt: Time, updatedAt: Time,
    request: string, result: string, error: string)

  datatype Reply =
    | Created
    | Swapped
    | Stale
    | Missing
    | DuplicateRun
    | BadArgument
    | CreationTimeChanged
    | WrongType
    | Corrupted

  /** The compare-and-set script on the record stored under the replacement's run. */
  function CompareAndSwap(current: Option<Record>, expected: int, replacement: Record): (Option<Record>, Reply) {
    if current.None? then (current, Missing)
    else if current.value.version != expected then (current, Stale)
    else if current.value.createdAt != replacement.createdAt then (current, CreationTimeChanged)
    else (Some(replacement), Swapped)
  }

  // The keys in Redis: one string per record, and one sorted set for the index.

  datatype Value = Json(record: Record) | SortedSet(times: map<string, Time>)

  type Keys = map<string, Value>

  const INDEX := "index"

  function IndexKey(prefix: string): string {
    prefix + ":runs:" + INDEX
  }

  function RecordKey(prefix: string, runId: string): string {
    prefix + ":runs:" + runId
  }

  /** ZADD fails on a key that holds a string. */
  function AddToIndex(keys: Keys, prefix: string, runId: string, time: Time): (Keys, bool) {
    var key := IndexKey(prefix);
    if key !in keys then (keys[key := SortedSet(map[runId := time])], true)
    else if keys[key].Json? then (keys, false)
    else (keys[key := SortedSet(keys[key].times[runId := time])], true)
  }

  /** The create script; a failing command leaves what was written before it. */
  function CreateScript(keys: Keys, prefix: string, record: Record): (Keys, Reply) {
    var key := RecordKey(prefix, record.runId);
    if key in keys then (keys, DuplicateRun) else
      var (after, added) := AddToIndex(keys[key := Json(record)], prefix, record.runId, record.createdAt);
      (after, if added then Created else WrongType)
  }

  /** The compare-and-set script; GET fails on a sorted set. */
  function SwapScript(keys: Keys, prefix: string, runId: string, expected: int, replacement: Record): (Keys, Reply) {
    var key := RecordKey(prefix, runId);
    if key in keys && keys[key].SortedSet? then (keys, WrongType)
    else if key in keys && keys[key].record.runId != runId then (keys, Corrupted)
    else
      var (stored, reply) := CompareAndSwap(if key in keys then Some(keys[key].record) else None, expected, replacement);
      if reply != Swapped then (keys, reply) else
        var (after, added) := AddToIndex(keys[key := Json(replacement)], prefix, runId, replacement.createdAt);
        (after, if added then Swapped else WrongType)
  }

  predicate BadSwap(runId: string, expected: int, replacement: Record) {
    expected < 0 || replacement.runId != runId || replacement.version != expected + 1
  }

  class RedisRunRepository {
    const prefix: string
    var keys: Keys

    constructor (prefix: string)
      ensures this.prefix == prefix && keys == map[]
    {
      this.prefix := prefix;
      keys := map[];
    }

    method Create(record: Record) returns (reply: Reply)
      modifies this
      ensures (keys, reply) == CreateScript(old(keys), prefix, record)
    {
      var key := RecordKey(prefix, record.runId);
      if key in keys { return DuplicateRun; }
      keys := keys[key := Json(record)];
      var added := Add(record.runId, record.createdAt);
      return if added then Created else WrongType;
    }

    method Add(runId: string, time: Time) returns (added: bool)
      modifies this
      ensures (keys, added) == AddToIndex(old(keys), prefix, runId, time)
    {
      var key := IndexKey(prefix);
      if key in keys && keys[key].Json? { return false; }
      var times := if key in keys then keys[key].times else map[];
      keys := keys[key := SortedSet(times[runId := time])];
      return true;
    }

    method CompareAndSet(runId: string, expected: int, replacement: Record) returns (reply: Reply)
      modifies this
      ensures (keys, reply) ==
              if BadSwap(runId, expected, replacement) then (old(keys), BadArgument)
              else SwapScript(old(keys), prefix, runId, expected, replacement)
    {
      if expected < 0 || replacement.runId != runId || replacement.version != expected + 1 { return BadArgument; }
      var key := RecordKey(prefix, runId);
      if key !in keys { return Missing; }
      if keys[key].SortedSet? { return WrongType; }
      var current := keys[key].record;
      if current.runId != runId { return Corrupted; }
      if current.version != expected { return Stale; }
      if current.createdAt != replacement.createdAt { return CreationTimeChanged; }
      keys := keys[key := Json(replacement)];
      var added := Add(runId, replacement.createdAt);
      return if added then Swapped else WrongType;
    }
  }

  // What a repository should be: records by run.

  /** Record keys are apart, and the run called "index" is the one whose record key is the key of the index. */
  lemma RecordKeysApart(prefix: string, runId: string, other: string)
    ensures RecordKey(prefix, runId) == RecordKey(prefix, other) <==> runId == other
    ensures RecordKey(prefix, runId) == IndexKey(prefix) <==> runId == INDEX
  {
    var p := prefix + ":runs:";
    assert RecordKey(prefix, runId)[|p|..] == runId && RecordKey(prefix, other)[|p|..] == other;
    assert IndexKey(prefix)[|p|..] == INDEX;
  }

  /** Under its key, run `r` has exactly what `records` has for it. */
  predicate HoldsRun(keys: Keys, prefix: string, records: map<string, Record>, r: string) {
    var key := RecordKey(prefix, r);
    if r in records then key in keys && keys[key] == Json(records[r]) else key !in keys
  }

  /** The keys hold exactly these records, each under its own run, and index them by creation time. */
  ghost predicate Holds(keys: Keys, prefix: string, records: map<string, Record>) {
    && INDEX !in records
    && (forall r :: r in records ==> records[r].runId == r)
    && (forall r :: r != INDEX ==> HoldsRun(keys, prefix, records, r))
    && (if IndexKey(prefix) in keys then keys[IndexKey(prefix)] == SortedSet(Times(records)) && records != map[]
        else records == map[])
  }

  function Times(records: map<string, Record>): map<string, Time> {
    map r | r in records :: records[r].createdAt
  }

  function Lookup(records: map<string, Record>, runId: string): Option<Record> {
    if runId in records then Some(records[runId]) else None
  }

  /** What create and compare-and-set are meant to do. */
  function CreatedIn(records: map<string, Record>, record: Record): (map<string, Record>, Reply) {
    if record.runId in records then (records, DuplicateRun) else (records[record.runId := record], Created)
  }

  function SwappedIn(records: map<string, Record>, runId: string, expected: int, replacement: Record): (map<string, Record>, Reply) {
    if runId !in records then (records, Missing)
    else if expected != records[runId].version then (records, Stale)
    else if replacement.createdAt != records[runId].createdAt then (records, CreationTimeChanged)
    else (records[runId := replacement], Swapped)
  }

  lemma StoringHolds(keys: Keys, prefix: string, records: map<string, Record>, record: Record)
    requires Holds(keys, prefix, records) && record.runId != INDEX
    ensures var (after, added) := AddToIndex(keys[RecordKey(prefix, record.runId) := Json(record)], prefix, record.runId, record.createdAt);
            added && Holds(after, prefix, records[record.runId := record])
  {
    var key, more := RecordKey(prefix, record.runId), records[record.runId := record];
    var after := AddToIndex(keys[key := Json(record)], prefix, record.runId, record.createdAt).0;
    RecordKeysApart(prefix, record.runId, record.runId);
    forall r | r != INDEX ensures HoldsRun(after, prefix, more, r) {
      RecordKeysApart(prefix, r, record.runId);
      assert HoldsRun(keys, prefix, records, r);
    }
    assert Times(more) == Times(records)[record.runId := record.createdAt];
    assert IndexKey(prefix) !in keys ==> Times(records) == map[];
    assert after[IndexKey(prefix)] == SortedSet(Times(more));
    assert record.runId in more;
  }

  /** On a repository that holds `records`, create does what it is meant to exactly for a run not called "index". That
      run is reported a duplicate, though it was never stored; or, on an empty repository, fails. */
  lemma CreatesExactlyUnlessIndex(keys: Keys, prefix: string, records: map<string, Record>, record: Record)
    requires Holds(keys, prefix, records)
    ensures var (after, reply) := CreateScript(keys, prefix, record);
            var (meant, answer) := CreatedIn(records, record);
            && (reply == answer && Holds(after, prefix, meant) <==> record.runId != INDEX)
            && (record.runId == INDEX ==>
                  if records == map[] then reply == WrongType && Spoiled(after, prefix) else reply == DuplicateRun && after == keys)
  {
    RecordKeysApart(prefix, record.runId, record.runId);
    assert record.runId != INDEX ==> HoldsRun(keys, prefix, records, record.runId);
    if record.runId != INDEX && record.runId !in records { StoringHolds(keys, prefix, records, record); }
  }

  /** Compare-and-set answers as it is meant to exactly for a run not called "index" or on an empty repository, and
      always keeps the repository. */
  lemma SwapsExactlyUnlessIndex(keys: Keys, prefix: string, records: map<string, Record>, runId: string, expected: int, replacement: Record)
    requires Holds(keys, prefix, records) && !BadSwap(runId, expected, replacement)
    ensures var (after, reply) := SwapScript(keys, prefix, runId, expected, replacement);
            var (meant, answer) := SwappedIn(records, runId, expected, replacement);
            && Holds(after, prefix, meant)
            && (reply == answer <==> runId != INDEX || records == map[])
            && (reply != answer ==> reply == WrongType)
  {
    RecordKeysApart(prefix, runId, runId);
    assert runId != INDEX ==> HoldsRun(keys, prefix, records, runId);
    if runId != INDEX && SwappedIn(records, runId, expected, replacement).1 == Swapped {
      StoringHolds(keys, prefix, records, replacement);
    }
  }

  /** A record sits where the index should be. */
  predicate Spoiled(keys: Keys, prefix: string) {
    IndexKey(prefix) in keys && keys[IndexKey(prefix)].Json?
  }
}
