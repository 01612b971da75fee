/**
 What each operation of the container does: the exact conditions, what a
 replacement takes over, and what it leaves to those who still borrow.
 */
module ContainerOperations {
  import opened Common
  import opened ComponentContainer

  /** The component that a borrower gets now under this name. */
  function ComponentFor(s: State, name: string): Option<nat>
    requires Sane(s)
  {
    if s.closed || name !in s.current then None else Some(s.slots[s.current[name]].component)
  }

  /** A registration is taken up exactly if none is under way, the container is open, and the name is free, or taken by
      another component that may be replaced; nothing else changes before it has started. */
  lemma RegistersExactly(s: State, name: string, component: nat, replace: bool, mustExist: bool)
    requires Sane(s) && s.mutation.Free?
    ensures var s' := Next(s, Register(name, component, replace, mustExist));
            && (s'.mutation == Starting(name, component) <==>
                  && !s.closed
                  && (if name in s.current then replace && s.slots[s.current[name]].component != component else !mustExist))
            && s'.(mutation := Free) == s
  {
  }

  /** One change at a time. */
  lemma OneChangeAtATime(s: State, name: string, component: nat, replace: bool, mustExist: bool, order: seq<SlotId>)
    requires Sane(s) && s.mutation.Starting?
    ensures Next(s, Register(name, component, replace, mustExist)) == s && Next(s, Unregister(name)) == s
    ensures Next(s, CloseAll(order)) == s
  {
  }

  /** What installing a started component leaves behind. */
  predicate TakenOver(s: State, s': State, name: string, component: nat) {
    && s'.mutation == Free && s'.closed == s.closed && s'.borrows == s.borrows
    && name in s'.current && s'.current[name] !in s.slots && s'.current == s.current[name := s'.current[name]]
    && s'.current[name] in s'.slots && s'.slots[s'.current[name]].component == component
    && forall id | id in s.slots :: id in s'.slots && ((name in s.current ==> id != s.current[name]) ==> s'.slots[id] == s.slots[id])
  }

  /** The slot that was replaced: retired, closed at once if nobody borrows it, and as it was for those who do. */
  predicate Replaced(s: State, s': State, former: SlotId)
    requires former in s.slots && former in s'.slots
  {
    s'.slots[former] == s.slots[former].(retired := true, closes := if Borrowers(s, former) == {} then 1 else 0)
  }

  lemma InstallTakesOver(s: State, name: string, component: nat)
    requires TableSane(s)
    ensures TakenOver(s, Installed(s, name, component).(mutation := Free), name, component)
  {
  }

  lemma InstallReplaces(s: State, name: string, component: nat)
    requires TableSane(s) && CountsSane(s) && ClosesSane(s) && name in s.current
    ensures Replaced(s, Installed(s, name, component).(mutation := Free), s.current[name])
  {
    var former := s.current[name];
    assert ClosesRight(s.slots[former], former in s.inLine);
  }

  /** Once it has started, the new component is what is borrowed under its name, and no other name is affected. If it
      fails to start nothing changes. */
  lemma StartedTakesOver(s: State, n: string)
    requires Sane(s) && s.mutation.Starting?
    ensures var s', name := Next(s, Started(true)), s.mutation.name;
            && TakenOver(s, s', name, s.mutation.component)
            && (name in s.current ==> Replaced(s, s', s.current[name]))
            && Sane(s') && ComponentFor(s', name) == Some(s.mutation.component)
            && (n != name ==> ComponentFor(s', n) == ComponentFor(s, n))
    ensures Next(s, Started(false)) == s.(mutation := Free)
  {
    NextSane(s, Started(true));
    InstallTakesOver(s, s.mutation.name, s.mutation.component);
    if s.mutation.name in s.current { InstallReplaces(s, s.mutation.name, s.mutation.component); }
    OthersUnaffected(s, Next(s, Started(true)), s.mutation.name, s.mutation.component, n);
  }

  lemma OthersUnaffected(s: State, s': State, name: string, component: nat, n: string)
    requires Sane(s) && Sane(s') && !s.closed && TakenOver(s, s', name, component)
    ensures ComponentFor(s', name) == Some(component)
    ensures n != name ==> ComponentFor(s', n) == ComponentFor(s, n)
  {
  }

  /** Nobody gets an unregistered component any more; those who borrow it keep it. */
  lemma UnregistersExactly(s: State, name: string, n: string)
    requires Sane(s) && s.mutation.Free? && name in s.current
    ensures var s', former := Next(s, Unregister(name)), s.current[name];
            && Sane(s') && ComponentFor(s', name) == None && (n != name ==> ComponentFor(s', n) == ComponentFor(s, n))
            && s'.borrows == s.borrows && s'.slots[former].retired
            && s'.slots[former].closes == if Borrowers(s, former) == {} then 1 else 0
  {
    NextSane(s, Unregister(name));
    assert ClosesRight(s.slots[s.current[name]], s.current[name] in s.inLine);
  }

  /** A borrower gets the slot that is current, exactly if there is one and the container is open. */
  lemma AcquiresExactly(s: State, name: string, borrow: nat)
    requires Sane(s) && borrow !in s.borrows
    ensures var s' := Next(s, Acquire(name, borrow));
            if ComponentFor(s, name).Some? then
              && s'.borrows == s.borrows[borrow := s.current[name]]
              && Borrowers(s', s.current[name]) == Borrowers(s, s.current[name]) + {borrow}
              && s'.current == s.current && s'.closed == s.closed
            else s' == s
  {
  }

  /** Returning a component takes the one borrow away, and closes the slot exactly if it is retired and nobody else
      borrows it. */
  lemma ReleasesExactly(s: State, borrow: nat)
    requires Sane(s) && borrow in s.borrows
    ensures var s', id := Next(s, Release(borrow)), s.borrows[borrow];
            && s'.borrows == s.borrows - {borrow} && s'.current == s.current
            && s'.slots[id].closes == s.slots[id].closes + (if s.slots[id].retired && Borrowers(s, id) == {borrow} then 1 else 0)
            && (forall x :: x in s.slots && x != id ==> s'.slots[x] == s.slots[x])
  {
    BorrowedIsActive(s, borrow);
    var id := s.borrows[borrow];
    assert borrow in Borrowers(s, id);
    if s.slots[id].active == 1 {
      OnlyOne(Borrowers(s, id), borrow);
    }
  }

  lemma OnlyOne(ids: set<nat>, x: nat)
    requires x in ids && |ids| == 1
    ensures ids == {x}
  {
    assert |ids - {x}| == 0;
  }

  /** Closing the container retires everything that was current and lets nothing be borrowed; the loop has every slot to
      visit once. */
  lemma ClosesExactly(s: State, order: seq<SlotId>, name: string)
    requires Sane(s) && s.mutation.Free? && !s.closed && InSomeOrder(order, s.current.Values)
    ensures var s' := Next(s, CloseAll(order));
            && s'.closed && s'.current == map[] && s'.borrows == s.borrows
            && forall n :: n in s.current ==> s.current[n] in s'.slots && s'.slots[s.current[n]].retired
  {
    var s1 := s.(closed := true, current := map[], slots := RetiredAll(s.slots, s.current.Values), inLine := order);
    CloseAllSane(s, order);
    SweptKeeps(s1);
    SweptKeepsRetired(s1);
    assert forall n :: n in s.current ==> s1.slots[s.current[n]].retired;
  }

  lemma {:induction false} SweptKeepsRetired(s: State)
    requires forall id :: id in s.inLine ==> id in s.slots
    ensures forall id :: id in s.slots ==> id in Swept(s).slots && Swept(s).slots[id].retired == s.slots[id].retired
    decreases |s.inLine|
  {
    if s.inLine != [] && s.slots[s.inLine[0]].active != 0 {
      SweptKeepsRetired(s.(inLine := s.inLine[1..]));
    }
  }

  /** Every resumption brings the loop further, until it has visited every slot. */
  lemma {:induction false} ResumesFurther(s: State)
    requires Sane(s) && s.inLine != []
    ensures |Next(s, Resume).inLine| < |s.inLine|
    decreases |s.inLine|
  {
    if s.slots[s.inLine[0]].active != 0 {
      var s1 := s.(inLine := s.inLine[1..]);
      RestSane(s);
      if s1.inLine == [] { assert Swept(s1) == s1; } else { ResumesFurther(s1); }
    }
  }

  lemma RestSane(s: State)
    requires Sane(s) && s.inLine != [] && s.slots[s.inLine[0]].active != 0
    ensures Sane(s.(inLine := s.inLine[1..]))
  {
    var id, s1 := s.inLine[0], s.(inLine := s.inLine[1..]);
    assert forall x :: x in s.inLine <==> x == id || x in s1.inLine;
    assert id !in s1.inLine;
    SweptHead(s, s1, id);
  }
}
