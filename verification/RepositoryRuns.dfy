/**
 Whole runs of the record repository, from empty keys: when it stays in order,
 and what happens to it otherwise.
 */
module RepositoryRuns {
  import opened Common
  import opened RunRepository

  datatype Command =
    | Create(record: Record)
    | CompareAndSet(runId: string, expected: int, replacement: Record)

  function Step(keys: Keys, prefix: string, c: Command): (Keys, Reply) {
    match c
    case Create(record) => CreateScript(keys, prefix, record)
    case CompareAndSet(runId, expected, replacement) =>
      if BadSwap(runId, expected, replacement) then (keys, BadArgument) else SwapScript(keys, prefix, runId, expected, replacement)
  }

  /** From then on nothing is ever created or replaced without an error. */
  lemma StaysSpoiled(keys: Keys, prefix: string, c: Command)
    requires Spoiled(keys, prefix)
    ensures Spoiled(Step(keys, prefix, c).0, prefix)
    ensures Step(keys, prefix, c).1 != Created && Step(keys, prefix, c).1 != Swapped
  {
  }

  function After(prefix: string, cs: seq<Command>): Keys {
    if cs == [] then map[] else Step(After(prefix, cs[..|cs| - 1]), prefix, cs[|cs| - 1]).0
  }

  function FirstCreate(cs: seq<Command>): Option<Record> {
    if cs == [] then None else
      var earlier, c := FirstCreate(cs[..|cs| - 1]), cs[|cs| - 1];
      if earlier.Some? then earlier else if c.Create? then Some(c.record) else None
  }

  predicate StartsWithIndex(cs: seq<Command>) {
    FirstCreate(cs).Some? && FirstCreate(cs).value.runId == INDEX
  }

  /** The records after the commands, those on the run called "index" left out. */
  function Meant(cs: seq<Command>): map<string, Record> {
    if cs == [] then map[] else
      var records := Meant(cs[..|cs| - 1]);
      match cs[|cs| - 1]
      case Create(record) => if record.runId == INDEX then records else CreatedIn(records, record).0
      case CompareAndSet(runId, expected, replacement) =>
        if BadSwap(runId, expected, replacement) then records else SwappedIn(records, runId, expected, replacement).0
  }

  /** Whatever the commands, the keys hold the records that are meant, unless the first create was of the run called
      "index": then they are spoiled. */
  lemma {:induction false} HoldsUnlessStartedWithIndex(prefix: string, cs: seq<Command>)
    ensures if StartsWithIndex(cs) then Spoiled(After(prefix, cs), prefix) else Holds(After(prefix, cs), prefix, Meant(cs))
    ensures !StartsWithIndex(cs) ==> (Meant(cs) == map[] <==> FirstCreate(cs).None?)
  {
    if cs != [] {
      var n := |cs| - 1;
      HoldsUnlessStartedWithIndex(prefix, cs[..n]);
      if StartsWithIndex(cs[..n]) {
        StaysSpoiled(After(prefix, cs[..n]), prefix, cs[n]);
      } else {
        StepHolds(After(prefix, cs[..n]), prefix, Meant(cs[..n]), cs[n]);
      }
    }
  }

  lemma StepHolds(keys: Keys, prefix: string, records: map<string, Record>, c: Command)
    requires Holds(keys, prefix, records)
    ensures c.Create? && c.record.runId == INDEX ==>
              if records == map[] then Spoiled(Step(keys, prefix, c).0, prefix) else Holds(Step(keys, prefix, c).0, prefix, records)
    ensures c.Create? && c.record.runId != INDEX ==>
              Holds(Step(keys, prefix, c).0, prefix, CreatedIn(records, c.record).0) && CreatedIn(records, c.record).0 != map[]
    ensures c.CompareAndSet? && !BadSwap(c.runId, c.expected, c.replacement) ==>
              var meant := SwappedIn(records, c.runId, c.expected, c.replacement).0;
              Holds(Step(keys, prefix, c).0, prefix, meant) && (meant == map[] <==> records == map[])
  {
    match c
    case Create(record) => CreatesExactlyUnlessIndex(keys, prefix, records, record);
    case CompareAndSet(runId, expected, replacement) =>
      if !BadSwap(runId, expected, replacement) { SwapsExactlyUnlessIndex(keys, prefix, records, runId, expected, replacement); }
  }

  ghost predicate InOrder(keys: Keys, prefix: string) {
    exists records :: Holds(keys, prefix, records)
  }

  lemma InOrderOrSpoiled(keys: Keys, prefix: string, records: map<string, Record>)
    ensures Holds(keys, prefix, records) ==> InOrder(keys, prefix)
    ensures !(InOrder(keys, prefix) && Spoiled(keys, prefix))
  {
  }

  /** A repository is in order after a run of commands exactly when the first create was not of the run called "index". */
  lemma InOrderExactlyUnlessIndexFirst(prefix: string, cs: seq<Command>)
    ensures InOrder(After(prefix, cs), prefix) <==> !StartsWithIndex(cs)
  {
    HoldsUnlessStartedWithIndex(prefix, cs);
    InOrderOrSpoiled(After(prefix, cs), prefix, Meant(cs));
  }
}
