/**
 The runtime container: borrow, hot-replace, retire, drain and close. Events are
 the stretches between two awaits: leaving a lock does not suspend, so retiring
 a slot and checking that it is idle is one event, but every component that
 `aclose` closes suspends its loop over the retired slots.
 */
module ComponentContainer {
  import opened Common

  type SlotId = nat

  /** `closes` counts the calls of the component's close; `drainedInLine` records that the last borrower left while
      `aclose` still had the slot ahead of it. */
  datatype Slot = Slot(component: nat, active: nat, retired: bool, closes: nat, drainedInLine: bool)

  datatype Mutation = Free | Starting(name: string, component: nat)

  /** `inLine` is what the loop of `aclose` has not visited yet. */
  datatype State = State(
    slots: map<SlotId, Slot>, current: map<string, SlotId>, nextSlot: SlotId,
    borrows: map<nat, SlotId>, mutation: Mutation, closed: bool, inLine: seq<SlotId>)

  datatype Event =
    | Register(name: string, component: nat, replace: bool, mustExist: bool)
    | Started(ok: bool)
    | Unregister(name: string)
    | Acquire(name: string, borrow: nat)
    | Release(borrow: nat)
    | CloseAll(order: seq<SlotId>)
    | Resume

  const EMPTY := State(map[], map[], 0, map[], Free, false, [])

  function Put(s: State, id: SlotId, slot: Slot): State {
    s.(slots := s.slots[id := slot])
  }

  /** Retire a slot that has left the table; an idle one is closed at once. */
  function Retired(s: State, id: SlotId): State
    requires id in s.slots
  {
    var slot := s.slots[id];
    Put(s, id, slot.(retired := true, closes := slot.closes + if slot.active == 0 then 1 else 0))
  }

  /** Install the started component and retire the one it replaces. */
  function Installed(s: State, name: string, component: nat): State
    requires name in s.current ==> s.current[name] in s.slots
  {
    var s1 := if name in s.current then Retired(s, s.current[name]) else s;
    s1.(slots := s1.slots[s.nextSlot := Slot(component, 0, false, 0, false)],
        current := s1.current[name := s.nextSlot], nextSlot := s.nextSlot + 1)
  }

  /** The loop of `aclose` up to its next suspension: busy slots are passed over, the first idle one is closed. */
  function Swept(s: State): State
    requires forall id :: id in s.inLine ==> id in s.slots
    decreases |s.inLine|
  {
    if s.inLine == [] then s else
      var id := s.inLine[0];
      var s1 := s.(inLine := s.inLine[1..]);
      if s.slots[id].active == 0 then Put(s1, id, s.slots[id].(closes := s.slots[id].closes + 1))
      else Swept(s1)
  }

  predicate InSomeOrder(order: seq<SlotId>, ids: set<SlotId>) {
    NoDup(order) && (forall id | id in order :: id in ids) && (forall id | id in ids :: id in order)
  }

  function RetiredAll(slots: map<SlotId, Slot>, ids: set<SlotId>): map<SlotId, Slot> {
    map id | id in slots :: if id in ids then slots[id].(retired := true) else slots[id]
  }

  /** One event; one that its locks or checks refuse changes nothing. */
  function Next(s: State, e: Event): State
    requires Sane(s)
  {
    match e
    case Register(name, component, replace, mustExist) =>
      if !s.mutation.Free? || s.closed || (mustExist && name !in s.current)
         || (name in s.current && (!replace || s.slots[s.current[name]].component == component)) then s
      else s.(mutation := Starting(name, component))
    case Started(ok) =>
      if s.mutation.Free? then s
      else if !ok then s.(mutation := Free)
      else Installed(s, s.mutation.name, s.mutation.component).(mutation := Free)
    case Unregister(name) =>
      if !s.mutation.Free? || name !in s.current then s
      else Retired(s.(current := s.current - {name}), s.current[name])
    case Acquire(name, borrow) =>
      if s.closed || name !in s.current || borrow in s.borrows then s else
        var id := s.current[name];
        Put(s, id, s.slots[id].(active := s.slots[id].active + 1)).(borrows := s.borrows[borrow := id])
    case Release(borrow) =>
      if borrow !in s.borrows then s else
        BorrowedIsActive(s, borrow);
        Returned(s, borrow)
    case CloseAll(order) =>
      if !s.mutation.Free? || s.closed || !InSomeOrder(order, s.current.Values) then s
      else Swept(s.(closed := true, current := map[], slots := RetiredAll(s.slots, s.current.Values), inLine := order))
    case Resume => Swept(s)
  }

  /** The last borrower of a retired slot closes it. */
  function Returned(s: State, borrow: nat): State
    requires borrow in s.borrows && s.borrows[borrow] in s.slots && s.slots[s.borrows[borrow]].active > 0
  {
    var id := s.borrows[borrow];
    var slot := s.slots[id].(active := s.slots[id].active - 1);
    var closing := slot.retired && slot.active == 0;
    Put(s, id, slot.(closes := slot.closes + (if closing then 1 else 0), drainedInLine := closing && id in s.inLine))
    .(borrows := s.borrows - {borrow})
  }

  function Borrowers(s: State, id: SlotId): set<nat> {
    Owners(s.borrows, id)
  }

  function Owners(borrows: map<nat, SlotId>, id: SlotId): set<nat> {
    set b | b in borrows && borrows[b] == id
  }

  lemma OwnersMore(borrows: map<nat, SlotId>, b: nat, own: SlotId, id: SlotId)
    requires b !in borrows
    ensures |Owners(borrows[b := own], id)| == |Owners(borrows, id)| + if own == id then 1 else 0
  {
    if own == id {
      assert Owners(borrows[b := own], id) == Owners(borrows, id) + {b};
    } else {
      assert Owners(borrows[b := own], id) == Owners(borrows, id);
    }
  }

  lemma OwnersLess(borrows: map<nat, SlotId>, b: nat, id: SlotId)
    requires b in borrows
    ensures |Owners(borrows - {b}, id)| == |Owners(borrows, id)| - if borrows[b] == id then 1 else 0
  {
    OwnersMore(borrows - {b}, b, borrows[b], id);
    assert (borrows - {b})[b := borrows[b]] == borrows;
  }

  /** How often a slot has been closed, exactly. */
  predicate ClosesRight(slot: Slot, waiting: bool) {
    && (slot.drainedInLine ==> slot.retired && slot.active == 0)
    && slot.closes ==
       if !slot.retired || slot.active > 0 then 0
       else (if slot.drainedInLine then 1 else 0) + (if waiting then 0 else 1)
  }

  /** The table points to exactly the slots that are not retired. */
  ghost predicate TableSane(s: State) {
    && (forall n :: n in s.current ==> s.current[n] in s.slots && !s.slots[s.current[n]].retired)
    && (forall n, m :: n in s.current && m in s.current && n != m ==> s.current[n] != s.current[m])
    && (forall id :: id in s.slots && !s.slots[id].retired ==> exists n :: n in s.current && s.current[n] == id)
    && (forall id :: id in s.slots ==> id < s.nextSlot)
    && (s.closed ==> s.current == map[] && s.mutation.Free?)
  }

  /** Every slot counts its borrowers. */
  ghost predicate CountsSane(s: State) {
    && (forall b :: b in s.borrows ==> s.borrows[b] in s.slots)
    && (forall id :: id in s.slots ==> s.slots[id].active == |Borrowers(s, id)|)
  }

  ghost predicate LineSane(s: State) {
    && (forall id :: id in s.inLine ==> id in s.slots && s.slots[id].retired)
    && NoDup(s.inLine)
    && (!s.closed ==> s.inLine == [])
  }

  /** Closing is only ever left to a slot that is retired and idle, and every such slot has been closed. */
  ghost predicate ClosesSane(s: State) {
    forall id :: id in s.slots ==> ClosesRight(s.slots[id], id in s.inLine)
  }

  ghost predicate Sane(s: State) {
    TableSane(s) && CountsSane(s) && LineSane(s) && ClosesSane(s)
  }

  lemma BorrowedIsActive(s: State, borrow: nat)
    requires CountsSane(s) && borrow in s.borrows
    ensures s.slots[s.borrows[borrow]].active > 0
  {
    assert borrow in Borrowers(s, s.borrows[borrow]);
  }

  lemma SameBorrows(s: State, s': State)
    requires CountsSane(s) && s'.borrows == s.borrows && s.slots.Keys <= s'.slots.Keys
    requires forall id :: id in s.slots ==> s'.slots[id].active == s.slots[id].active
    requires forall id :: id in s'.slots && id !in s.slots ==> s'.slots[id].active == 0
    ensures CountsSane(s')
  {
    forall id | id in s'.slots ensures s'.slots[id].active == |Borrowers(s', id)| {
      assert Borrowers(s', id) == Borrowers(s, id);
      if id !in s.slots { assert Borrowers(s', id) == {}; }
    }
  }

  lemma InstallSane(s: State, name: string, component: nat)
    requires Sane(s) && !s.closed
    ensures Sane(Installed(s, name, component).(mutation := Free))
  {
    var s' := Installed(s, name, component).(mutation := Free);
    SameBorrows(s, s');
    InstallTable(s, name, component);
    InstallCloses(s, name, component);
  }

  lemma InstallCloses(s: State, name: string, component: nat)
    requires TableSane(s) && LineSane(s) && ClosesSane(s) && !s.closed
    ensures ClosesSane(Installed(s, name, component))
  {
    var s' := Installed(s, name, component);
    forall id | id in s'.slots ensures ClosesRight(s'.slots[id], id in s'.inLine) {
      if id in s.slots { assert ClosesRight(s.slots[id], id in s.inLine); }
    }
  }

  lemma InstallTable(s: State, name: string, component: nat)
    requires TableSane(s) && !s.closed
    ensures TableSane(Installed(s, name, component).(mutation := Free))
  {
    var s' := Installed(s, name, component).(mutation := Free);
    forall id | id in s'.slots && !s'.slots[id].retired ensures exists n :: n in s'.current && s'.current[n] == id {
      InstalledCurrent(s, name, component, id);
    }
  }

  lemma InstalledCurrent(s: State, name: string, component: nat, id: SlotId)
    requires TableSane(s)
    requires id in Installed(s, name, component).slots && !Installed(s, name, component).slots[id].retired
    ensures exists n :: n in Installed(s, name, component).current && Installed(s, name, component).current[n] == id
  {
    var s' := Installed(s, name, component);
    if id == s.nextSlot {
      assert s'.current[name] == id;
    } else {
      var n :| n in s.current && s.current[n] == id;
      assert s'.current[n] == id;
    }
  }

  lemma UnregisterSane(s: State, name: string)
    requires Sane(s) && name in s.current
    ensures Sane(Retired(s.(current := s.current - {name}), s.current[name]))
  {
    var s' := Retired(s.(current := s.current - {name}), s.current[name]);
    SameBorrows(s, s');
    UnregisterTable(s, name);
    forall id | id in s'.slots ensures ClosesRight(s'.slots[id], id in s'.inLine) {
      assert ClosesRight(s.slots[id], id in s.inLine);
    }
  }

  lemma UnregisterTable(s: State, name: string)
    requires TableSane(s) && name in s.current
    ensures TableSane(Retired(s.(current := s.current - {name}), s.current[name]))
  {
    var s' := Retired(s.(current := s.current - {name}), s.current[name]);
    forall id | id in s'.slots && !s'.slots[id].retired ensures exists n :: n in s'.current && s'.current[n] == id {
      var n :| n in s.current && s.current[n] == id;
      assert s'.current[n] == id;
    }
  }

  lemma AcquireSane(s: State, name: string, borrow: nat)
    requires Sane(s)
    ensures Sane(Next(s, Acquire(name, borrow)))
  {
    var s' := Next(s, Acquire(name, borrow));
    if s' != s {
      AcquireCounts(s, s', s.current[name], borrow);
      KeepsTable(s, s');
      forall id | id in s'.slots ensures ClosesRight(s'.slots[id], id in s'.inLine) {
        assert ClosesRight(s.slots[id], id in s.inLine);
      }
    }
  }

  lemma AcquireCounts(s: State, s': State, own: SlotId, borrow: nat)
    requires CountsSane(s) && own in s.slots && borrow !in s.borrows
    requires s' == Put(s, own, s.slots[own].(active := s.slots[own].active + 1)).(borrows := s.borrows[borrow := own])
    ensures CountsSane(s')
  {
    forall id | id in s'.slots ensures s'.slots[id].active == |Borrowers(s', id)| {
      OwnersMore(s.borrows, borrow, own, id);
    }
  }

  /** Events that only borrow or return leave the table as it is. */
  lemma KeepsTable(s: State, s': State)
    requires TableSane(s) && s'.slots.Keys == s.slots.Keys && s'.nextSlot == s.nextSlot
    requires s'.current == s.current && s'.closed == s.closed && s'.mutation == s.mutation
    requires forall id :: id in s.slots ==> s'.slots[id].retired == s.slots[id].retired
    ensures TableSane(s')
  {
    forall id | id in s'.slots && !s'.slots[id].retired ensures exists n :: n in s'.current && s'.current[n] == id {
      var n :| n in s.current && s.current[n] == id;
      assert s'.current[n] == id;
    }
  }

  lemma ReleaseSane(s: State, borrow: nat)
    requires Sane(s) && borrow in s.borrows && s.slots[s.borrows[borrow]].active > 0
    ensures Sane(Returned(s, borrow))
  {
    var s' := Returned(s, borrow);
    ReleaseCounts(s, s', s.borrows[borrow], borrow);
    KeepsTable(s, s');
    forall id | id in s'.slots ensures ClosesRight(s'.slots[id], id in s'.inLine) {
      assert ClosesRight(s.slots[id], id in s.inLine);
    }
  }

  lemma ReleaseCounts(s: State, s': State, own: SlotId, borrow: nat)
    requires CountsSane(s) && borrow in s.borrows && s.borrows[borrow] == own && s.slots[own].active > 0
    requires s'.borrows == s.borrows - {borrow} && s'.slots.Keys == s.slots.Keys
    requires s'.slots[own].active == s.slots[own].active - 1
    requires forall id :: id in s.slots && id != own ==> s'.slots[id].active == s.slots[id].active
    ensures CountsSane(s')
  {
    forall id | id in s'.slots ensures s'.slots[id].active == |Borrowers(s', id)| {
      OwnersLess(s.borrows, borrow, id);
    }
  }

  lemma {:induction false} SweptSane(s: State)
    requires Sane(s)
    ensures Sane(Swept(s)) && Swept(s).closed == s.closed && Swept(s).current == s.current
    decreases |s.inLine|
  {
    if s.inLine != [] {
      var id := s.inLine[0];
      var s1 := s.(inLine := s.inLine[1..]);
      assert ClosesRight(s.slots[id], true);
      assert forall x :: x in s.inLine <==> x == id || x in s1.inLine;
      assert id !in s1.inLine;
      SweptHead(s, s1, id);
      if s.slots[id].active != 0 { SweptSane(s1); }
    }
  }

  lemma SweptHead(s: State, s1: State, id: SlotId)
    requires Sane(s) && id in s.inLine && s1 == s.(inLine := s1.inLine) && NoDup(s1.inLine)
    requires forall x :: x in s.inLine <==> x == id || x in s1.inLine
    requires id !in s1.inLine && s.inLine != []
    ensures s.slots[id].active != 0 ==> Sane(s1)
    ensures s.slots[id].active == 0 ==> Sane(Put(s1, id, s.slots[id].(closes := s.slots[id].closes + 1)))
  {
    SameBorrows(s, s1);
    var s' := Put(s1, id, s.slots[id].(closes := s.slots[id].closes + 1));
    SameBorrows(s, s');
    forall x | x in s.slots ensures ClosesRight(s.slots[x], x in s.inLine) { }
  }

  lemma CloseAllSane(s: State, order: seq<SlotId>)
    requires Sane(s) && !s.closed && s.mutation.Free? && InSomeOrder(order, s.current.Values)
    ensures Sane(s.(closed := true, current := map[], slots := RetiredAll(s.slots, s.current.Values), inLine := order))
  {
    var s' := s.(closed := true, current := map[], slots := RetiredAll(s.slots, s.current.Values), inLine := order);
    SameBorrows(s, s');
    forall id | id in s'.slots ensures s'.slots[id].retired && ClosesRight(s'.slots[id], id in s'.inLine) {
      assert ClosesRight(s.slots[id], false);
      if !s.slots[id].retired {
        var n :| n in s.current && s.current[n] == id;
        assert id in s.current.Values;
      }
    }
  }

  lemma NextSane(s: State, e: Event)
    requires Sane(s)
    ensures Sane(Next(s, e))
  {
    match e
    case Register(_, _, _, _) => SameBorrows(s, Next(s, e));
    case Started(ok) =>
      if s.mutation.Starting? {
        if ok { InstallSane(s, s.mutation.name, s.mutation.component); }
        else { SameBorrows(s, Next(s, e)); }
      }
    case Unregister(name) => if s.mutation.Free? && name in s.current { UnregisterSane(s, name); }
    case Acquire(name, borrow) => AcquireSane(s, name, borrow);
    case Release(borrow) =>
      if borrow in s.borrows {
        BorrowedIsActive(s, borrow);
        ReleaseSane(s, borrow);
      }
    case CloseAll(order) =>
      if s.mutation.Free? && !s.closed && InSomeOrder(order, s.current.Values) {
        CloseAllSane(s, order);
        SweptSane(s.(closed := true, current := map[], slots := RetiredAll(s.slots, s.current.Values), inLine := order));
      }
    case Resume => SweptSane(s);
  }

  function Step(s: State, e: Event): (s': State)
    requires Sane(s)
    ensures Sane(s')
  {
    NextSane(s, e);
    Next(s, e)
  }

  function After(events: seq<Event>): (s: State)
    ensures Sane(s)
  {
    if events == [] then EMPTY else Step(After(events[..|events| - 1]), events[|events| - 1])
  }

  /** A component is never closed while anybody borrows it. */
  lemma NeverClosedWhileBorrowed(events: seq<Event>, id: SlotId)
    requires var s := After(events); id in s.slots && s.slots[id].closes > 0
    ensures Borrowers(After(events), id) == {} && After(events).slots[id].retired
  {
    var s := After(events);
    assert ClosesRight(s.slots[id], id in s.inLine);
  }

  /** A retired slot without borrowers that `aclose` no longer has to visit has been closed; exactly once, unless its
      last borrower left while `aclose` was waiting for another component, and then twice. */
  lemma ClosedOnceUnlessDrainedInLine(events: seq<Event>, id: SlotId)
    requires var s := After(events);
             id in s.slots && s.slots[id].retired && Borrowers(s, id) == {} && id !in s.inLine
    ensures var slot := After(events).slots[id]; slot.closes == if slot.drainedInLine then 2 else 1
  {
    var s := After(events);
    assert ClosesRight(s.slots[id], false);
  }

  lemma StaysClosed(s: State, e: Event)
    requires Sane(s) && s.closed
    ensures Next(s, e).closed && Next(s, e).current == map[]
    ensures Next(s, e).slots.Keys == s.slots.Keys && Next(s, e).borrows.Keys <= s.borrows.Keys
  {
    SweptKeeps(s);
  }

  lemma {:induction false} SweptKeeps(s: State)
    requires forall id :: id in s.inLine ==> id in s.slots
    ensures Swept(s).slots.Keys == s.slots.Keys && Swept(s).borrows == s.borrows
    ensures Swept(s).closed == s.closed && Swept(s).current == s.current
    decreases |s.inLine|
  {
    if s.inLine != [] && s.slots[s.inLine[0]].active != 0 {
      SweptKeeps(s.(inLine := s.inLine[1..]));
    }
  }

  lemma AfterNext(events: seq<Event>, e: Event)
    ensures After(events + [e]) == Step(After(events), e)
  {
    assert (events + [e])[..|events|] == events;
  }

  /** Nothing is borrowed anew, and no slot is installed. */
  predicate Shut(s: State, s': State) {
    s'.closed && s'.current == map[] && s'.slots.Keys == s.slots.Keys && s'.borrows.Keys <= s.borrows.Keys
  }

  /** Where events lead from any state that events can lead to. */
  function From(s: State, events: seq<Event>): (s': State)
    requires Sane(s)
    ensures Sane(s')
    decreases |events|
  {
    if events == [] then s else From(Step(s, events[0]), events[1..])
  }

  lemma StepShuts(s: State, e: Event)
    requires Sane(s) && s.closed
    ensures Shut(s, Step(s, e))
  {
    StaysClosed(s, e);
  }

  lemma ShutTrans(s: State, s1: State, s2: State)
    requires Shut(s, s1) && Shut(s1, s2)
    ensures Shut(s, s2)
  {
  }

  /** So it is after `aclose`, whatever happens. */
  lemma {:induction false} ClosedForGood(s: State, events: seq<Event>)
    requires Sane(s) && s.closed
    ensures Shut(s, From(s, events))
    decreases |events|
  {
    if events != [] {
      var s1 := Step(s, events[0]);
      StepShuts(s, events[0]);
      ClosedForGood(s1, events[1..]);
      ShutTrans(s, s1, From(s1, events[1..]));
    }
  }

  /** The last borrower of a slot leaves while `aclose` has it next in line: it is closed twice. */
  lemma DrainedInLineClosesTwice(s: State, borrow: nat)
    requires Sane(s) && borrow in s.borrows && s.inLine == [s.borrows[borrow]]
    requires s.slots[s.borrows[borrow]].active == 1
    ensures var s' := Step(Step(s, Release(borrow)), Resume);
            s.borrows[borrow] in s'.slots && s'.slots[s.borrows[borrow]].closes == 2
  {
    var id := s.borrows[borrow];
    assert id in s.inLine;
    assert ClosesRight(s.slots[id], true);
  }

  /** An idle and a busy slot: closing the idle one suspends `aclose` with the busy one next in line. */
  lemma SuspendsBeforeBusy(s: State, idle: SlotId, busy: SlotId)
    requires Sane(s) && !s.closed && s.mutation.Free? && s.current.Values == {idle, busy} && idle != busy
    requires idle in s.slots && busy in s.slots && s.slots[idle].active == 0
    ensures var s' := Step(s, CloseAll([idle, busy]));
            && s'.inLine == [busy] && s'.borrows == s.borrows
            && busy in s'.slots && s'.slots[busy].active == s.slots[busy].active
  {
    assert InSomeOrder([idle, busy], s.current.Values);
  }

  lemma SuspendedInLine() returns (events: seq<Event>)
    ensures var s := After(events); s.inLine == [1] && s.borrows == map[0 := 1] && s.slots[1].active == 1
  {
    var before := TwoInstalled();
    AfterNext(before, Acquire("b", 0));
    var s := After(before + [Acquire("b", 0)]);
    assert s.current.Values == {0, 1} by { assert s.current["a"] == 0 && s.current["b"] == 1; }
    SuspendsBeforeBusy(s, 0, 1);
    AfterNext(before + [Acquire("b", 0)], CloseAll([0, 1]));
    events := before + [Acquire("b", 0)] + [CloseAll([0, 1])];
  }

  lemma SweepCanCloseTwice() returns (events: seq<Event>)
    ensures var s := After(events); 1 in s.slots && s.slots[1].closes == 2
  {
    var before := SuspendedInLine();
    DrainedInLineClosesTwice(After(before), 0);
    AfterNext(before, Release(0));
    AfterNext(before + [Release(0)], Resume);
    events := before + [Release(0)] + [Resume];
  }

  lemma InstallsAfter(events: seq<Event>, name: string, component: nat) returns (more: seq<Event>)
    requires !After(events).closed && After(events).mutation.Free? && name !in After(events).current
    ensures After(more) == Installed(After(events), name, component)
  {
    var s, register := After(events), Register(name, component, false, false);
    AfterNext(events, register);
    AfterNext(events + [register], Started(true));
    assert After(events + [register]) == s.(mutation := Starting(name, component));
    more := events + [register] + [Started(true)];
  }

  lemma TwoInstalled() returns (events: seq<Event>)
    ensures After(events) ==
            State(map[0 := Slot(0, 0, false, 0, false), 1 := Slot(1, 0, false, 0, false)],
                  map["a" := 0, "b" := 1], 2, map[], Free, false, [])
  {
    events := InstallsAfter([], "a", 0);
    assert After(events) == State(map[0 := Slot(0, 0, false, 0, false)], map["a" := 0], 1, map[], Free, false, []);
    events := InstallsAfter(events, "b", 1);
  }
}
