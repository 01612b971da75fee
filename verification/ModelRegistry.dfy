/**
 The model registry: named clients, leases on them, and hot replacement. Every
 operation runs under the registry's lock, and is one step.
 */
module ModelRegistry {
  import opened Text

  /** A client under a name. The registry's slots are compared by identity, here a number. */
  datatype ModelSlot = ModelSlot(client: nat, activeLeases: nat, retired: bool, drained: bool)

  datatype ModelLease = ModelLease(slot: nat, entered: bool, released: bool)

  datatype State = State(
    slots: map<nat, ModelSlot>, names: map<string, nat>, leases: map<nat, ModelLease>, nextSlot: nat, nextLease: nat)

  const EMPTY := State(map[], map[], map[], 0, 0)

  datatype Command =
    | Register(name: string, client: nat, replace: bool)
    | Swap(name: string, client: nat)
    | Retire(name: string)
    | Acquire(name: string)
    | Enter(lease: nat)
    | Release(lease: nat)

  datatype Failure = BadName | AlreadyRegistered | NotFound | EnteredTwice | AlreadyReleased

  datatype Reply = Done | Refused(failure: Failure) | Retiring(slot: nat) | Leased(lease: nat) | Client(client: nat)

  /** Names and leases point to slots. */
  predicate Linked(s: State) {
    && (forall n :: n in s.names ==> s.names[n] in s.slots)
    && (forall l :: l in s.leases ==> s.leases[l].slot in s.slots)
  }

  /** `_retire_slot`. */
  function Retirement(slot: ModelSlot): ModelSlot {
    slot.(retired := true, drained := slot.drained || slot.activeLeases == 0)
  }

  /** `_release_slot`. */
  function Decrement(slot: ModelSlot): ModelSlot {
    if slot.activeLeases < 1 then slot else
      var fewer := slot.activeLeases - 1;
      slot.(activeLeases := fewer, drained := slot.drained || (slot.retired && fewer == 0))
  }

  function Installed(s: State, name: string, client: nat): State
    requires Linked(s)
  {
    var slots := if name in s.names then s.slots[s.names[name] := Retirement(s.slots[s.names[name]])] else s.slots;
    s.(slots := slots[s.nextSlot := ModelSlot(client, 0, false, false)],
       names := s.names[name := s.nextSlot], nextSlot := s.nextSlot + 1)
  }

  function Removed(s: State, name: string): State
    requires Linked(s) && name in s.names
  {
    s.(slots := s.slots[s.names[name] := Retirement(s.slots[s.names[name]])], names := s.names - {name})
  }

  function Lent(s: State, slot: nat): State
    requires slot in s.slots
  {
    s.(slots := s.slots[slot := s.slots[slot].(activeLeases := s.slots[slot].activeLeases + 1)],
       leases := s.leases[s.nextLease := ModelLease(slot, false, false)], nextLease := s.nextLease + 1)
  }

  function Freed(s: State, lease: nat): State
    requires Linked(s) && lease in s.leases
  {
    var slot := s.leases[lease].slot;
    s.(slots := s.slots[slot := Decrement(s.slots[slot])], leases := s.leases[lease := s.leases[lease].(released := true)])
  }

  /** `Retire` stands for `unregister` as well, which hands back the client instead of the slot. */
  function Step(s: State, c: Command): (State, Reply)
    requires Linked(s)
  {
    match c
    case Register(raw, client, replace) =>
      if Strip(raw) == "" then (s, Refused(BadName))
      else if Strip(raw) in s.names && !replace then (s, Refused(AlreadyRegistered))
      else (Installed(s, Strip(raw), client), Done)
    case Swap(raw, client) =>
      if Strip(raw) == "" then (s, Refused(BadName))
      else if Strip(raw) !in s.names then (s, Refused(NotFound))
      else (Installed(s, Strip(raw), client), Retiring(s.names[Strip(raw)]))
    case Retire(raw) =>
      if Strip(raw) == "" then (s, Refused(BadName))
      else if Strip(raw) !in s.names then (s, Refused(NotFound))
      else (Removed(s, Strip(raw)), Retiring(s.names[Strip(raw)]))
    case Acquire(raw) =>
      if Strip(raw) == "" then (s, Refused(BadName))
      else if Strip(raw) !in s.names then (s, Refused(NotFound))
      else (Lent(s, s.names[Strip(raw)]), Leased(s.nextLease))
    case Enter(l) =>
      if l !in s.leases then (s, Refused(NotFound))
      else if s.leases[l].entered then (s, Refused(EnteredTwice))
      else if s.leases[l].released then (s, Refused(AlreadyReleased))
      else (s.(leases := s.leases[l := s.leases[l].(entered := true)]), Client(s.slots[s.leases[l].slot].client))
    case Release(l) =>
      if l !in s.leases || s.leases[l].released then (s, Done) else (Freed(s, l), Done)
  }

  class Registry {
    var slots: map<nat, ModelSlot>
    var names: map<string, nat>
    var leases: map<nat, ModelLease>
    var nextSlot: nat
    var nextLease: nat

    function Contents(): State
      reads this
    {
      State(slots, names, leases, nextSlot, nextLease)
    }

    constructor ()
      ensures Contents() == EMPTY
    {
      slots, names, leases, nextSlot, nextLease := map[], map[], map[], 0, 0;
    }

    method RetireSlot(id: nat)
      requires id in slots
      modifies this`slots
      ensures slots == old(slots)[id := Retirement(old(slots)[id])]
    {
      var slot := slots[id].(retired := true);
      if slot.activeLeases == 0 { slot := slot.(drained := true); }
      slots := slots[id := slot];
    }

    /** Put a new slot under the name; the old one, if any, retires. */
    method Install(name: string, client: nat)
      requires Linked(Contents()) && nextSlot !in slots
      modifies this`slots, this`names, this`nextSlot
      ensures Contents() == Installed(old(Contents()), name, client)
    {
      var added := nextSlot;
      slots := slots[added := ModelSlot(client, 0, false, false)];
      if name in names { RetireSlot(names[name]); }
      names := names[name := added];
      nextSlot := nextSlot + 1;
    }

    method Register(rawName: string, client: nat, replace: bool) returns (reply: Reply)
      requires Linked(Contents()) && nextSlot !in slots
      modifies this
      ensures (Contents(), reply) == Step(old(Contents()), Command.Register(rawName, client, replace))
    {
      var name := Strip(rawName);
      if name == "" { return Refused(BadName); }
      if name in names && !replace { return Refused(AlreadyRegistered); }
      Install(name, client);
      return Done;
    }

    /** The old client's slot is handed back, retired; it is drained at once if nobody leases it. */
    method Swap(rawName: string, client: nat) returns (reply: Reply)
      requires Linked(Contents()) && nextSlot !in slots
      modifies this
      ensures (Contents(), reply) == Step(old(Contents()), Command.Swap(rawName, client))
    {
      var name := Strip(rawName);
      if name == "" { return Refused(BadName); }
      if name !in names { return Refused(NotFound); }
      reply := Retiring(names[name]);
      Install(name, client);
    }

    method Retire(rawName: string) returns (reply: Reply)
      requires Linked(Contents())
      modifies this
      ensures (Contents(), reply) == Step(old(Contents()), Command.Retire(rawName))
    {
      var name := Strip(rawName);
      if name == "" { return Refused(BadName); }
      if name !in names { return Refused(NotFound); }
      reply := Retiring(names[name]);
      RetireSlot(names[name]);
      names := names - {name};
    }

    /** A lease is on the client that is current now, whatever replaces it later. */
    method Acquire(rawName: string) returns (reply: Reply)
      requires Linked(Contents())
      modifies this
      ensures (Contents(), reply) == Step(old(Contents()), Command.Acquire(rawName))
    {
      var name := Strip(rawName);
      if name == "" { return Refused(BadName); }
      if name !in names { return Refused(NotFound); }
      var id := names[name];
      slots := slots[id := slots[id].(activeLeases := slots[id].activeLeases + 1)];
      leases := leases[nextLease := ModelLease(id, false, false)];
      nextLease := nextLease + 1;
      return Leased(nextLease - 1);
    }

    method Enter(lease: nat) returns (reply: Reply)
      requires Linked(Contents()) && lease in leases
      modifies this`leases
      ensures (Contents(), reply) == Step(old(Contents()), Command.Enter(lease))
    {
      if leases[lease].entered { return Refused(EnteredTwice); }
      if leases[lease].released { return Refused(AlreadyReleased); }
      leases := leases[lease := leases[lease].(entered := true)];
      return Client(slots[leases[lease].slot].client);
    }

    /** Releasing twice is releasing once. */
    method Release(lease: nat)
      requires Linked(Contents()) && lease in leases
      modifies this`slots, this`leases
      ensures Contents() == Step(old(Contents()), Command.Release(lease)).0
    {
      if leases[lease].released { return; }
      leases := leases[lease := leases[lease].(released := true)];
      var id := leases[lease].slot;
      if slots[id].activeLeases < 1 { return; }
      var slot := slots[id].(activeLeases := slots[id].activeLeases - 1);
      if slot.retired && slot.activeLeases == 0 { slot := slot.(drained := true); }
      slots := slots[id := slot];
    }
  }

  // What every step keeps.

  function Unreleased(leases: map<nat, ModelLease>, slot: nat): set<nat> {
    set l | l in leases && leases[l].slot == slot && !leases[l].released
  }

  /** A slot counts its unreleased leases, and is drained exactly when it is retired and has none. */
  ghost predicate SlotSound(slot: ModelSlot, leases: map<nat, ModelLease>, id: nat) {
    && slot.activeLeases == |Unreleased(leases, id)|
    && (slot.drained <==> slot.retired && slot.activeLeases == 0)
  }

  ghost predicate NamesSound(s: State) {
    && Linked(s)
    && (forall id :: id in s.slots ==> id < s.nextSlot)
    && (forall l :: l in s.leases ==> l < s.nextLease)
    && (forall n :: n in s.names ==> !s.slots[s.names[n]].retired)
    && (forall n, m :: n in s.names && m in s.names && n != m ==> s.names[n] != s.names[m])
  }

  ghost predicate Sound(s: State) {
    NamesSound(s) && forall id :: id in s.slots ==> SlotSound(s.slots[id], s.leases, id)
  }

  lemma LeaseAdded(leases: map<nat, ModelLease>, l: nat, slot: nat, id: nat)
    requires l !in leases
    ensures |Unreleased(leases[l := ModelLease(slot, false, false)], id)| == |Unreleased(leases, id)| + if id == slot then 1 else 0
  {
    var more := leases[l := ModelLease(slot, false, false)];
    if id == slot {
      assert Unreleased(more, id) == Unreleased(leases, id) + {l};
    } else {
      assert Unreleased(more, id) == Unreleased(leases, id);
    }
  }

  lemma LeaseReleased(leases: map<nat, ModelLease>, l: nat, id: nat)
    requires l in leases && !leases[l].released
    ensures |Unreleased(leases, id)| ==
            |Unreleased(leases[l := leases[l].(released := true)], id)| + if id == leases[l].slot then 1 else 0
  {
    var fewer := leases[l := leases[l].(released := true)];
    if id == leases[l].slot {
      assert Unreleased(leases, id) == Unreleased(fewer, id) + {l};
    } else {
      assert Unreleased(leases, id) == Unreleased(fewer, id);
    }
  }

  lemma LeaseEntered(leases: map<nat, ModelLease>, l: nat, id: nat)
    requires l in leases
    ensures Unreleased(leases[l := leases[l].(entered := true)], id) == Unreleased(leases, id)
  {
  }

  lemma InstallSlots(s: State, name: string, client: nat, id: nat)
    requires Sound(s) && id in Installed(s, name, client).slots
    ensures SlotSound(Installed(s, name, client).slots[id], s.leases, id)
  {
    if id == s.nextSlot {
      assert Unreleased(s.leases, id) == {};
    } else {
      assert SlotSound(s.slots[id], s.leases, id);
    }
  }

  lemma InstallNames(s: State, name: string, client: nat)
    requires NamesSound(s)
    ensures NamesSound(Installed(s, name, client))
  {
  }

  lemma LentSound(s: State, name: string)
    requires Sound(s) && name in s.names
    ensures Sound(Lent(s, s.names[name]))
  {
    var slot := s.names[name];
    forall id | id in s.slots ensures SlotSound(Lent(s, slot).slots[id], Lent(s, slot).leases, id) {
      assert SlotSound(s.slots[id], s.leases, id);
      LeaseAdded(s.leases, s.nextLease, slot, id);
    }
  }

  lemma FreedSound(s: State, l: nat)
    requires Sound(s) && l in s.leases && !s.leases[l].released
    ensures Sound(Freed(s, l))
  {
    forall id | id in s.slots ensures SlotSound(Freed(s, l).slots[id], Freed(s, l).leases, id) {
      assert SlotSound(s.slots[id], s.leases, id);
      LeaseReleased(s.leases, l, id);
      LeaseReleased(s.leases, l, s.leases[l].slot);
    }
  }

  lemma EnterSound(s: State, l: nat)
    requires Sound(s) && l in s.leases
    ensures Sound(Step(s, Command.Enter(l)).0)
  {
    forall id | id in s.slots ensures SlotSound(s.slots[id], Step(s, Command.Enter(l)).0.leases, id) {
      assert SlotSound(s.slots[id], s.leases, id);
      LeaseEntered(s.leases, l, id);
    }
  }

  lemma InstalledSound(s: State, name: string, client: nat)
    requires Sound(s)
    ensures Sound(Installed(s, name, client))
  {
    InstallNames(s, name, client);
    forall id | id in Installed(s, name, client).slots
      ensures SlotSound(Installed(s, name, client).slots[id], s.leases, id)
    {
      InstallSlots(s, name, client, id);
    }
  }

  lemma RemovedSound(s: State, name: string)
    requires Sound(s) && name in s.names
    ensures Sound(Removed(s, name))
  {
    forall id | id in s.slots ensures SlotSound(Removed(s, name).slots[id], s.leases, id) {
      assert SlotSound(s.slots[id], s.leases, id);
    }
  }

  lemma StepSound(s: State, c: Command)
    requires Sound(s)
    ensures Sound(Step(s, c).0)
  {
    match c
    case Register(raw, client, _) => InstalledSound(s, Strip(raw), client);
    case Swap(raw, client) => InstalledSound(s, Strip(raw), client);
    case Retire(raw) => if Strip(raw) in s.names { RemovedSound(s, Strip(raw)); }
    case Acquire(raw) => if Strip(raw) in s.names { LentSound(s, Strip(raw)); }
    case Enter(l) => if l in s.leases { EnterSound(s, l); }
    case Release(l) => if l in s.leases && !s.leases[l].released { FreedSound(s, l); }
  }

  // Whole runs.

  ghost function After(cs: seq<Command>): (s: State)
    ensures Sound(s)
  {
    if cs == [] then EMPTY else
      var before := After(cs[..|cs| - 1]);
      StepSound(before, cs[|cs| - 1]);
      Step(before, cs[|cs| - 1]).0
  }

  /** What a slot and a lease never lose. */
  ghost predicate Continues(s: State, s': State) {
    && (forall id :: id in s.slots ==> id in s'.slots && SlotContinues(s.slots[id], s'.slots[id]))
    && (forall l :: l in s.leases ==> l in s'.leases && LeaseContinues(s.leases[l], s'.leases[l]))
  }

  predicate SlotContinues(slot: ModelSlot, slot': ModelSlot) {
    slot'.client == slot.client && (slot.retired ==> slot'.retired && slot'.activeLeases <= slot.activeLeases)
    && (slot.drained ==> slot' == slot)
  }

  predicate LeaseContinues(lease: ModelLease, lease': ModelLease) {
    lease'.slot == lease.slot && (lease.released ==> lease'.released) && (lease.entered ==> lease'.entered)
  }

  lemma InstalledContinues(s: State, name: string, client: nat)
    requires Sound(s)
    ensures Continues(s, Installed(s, name, client))
  {
    forall id | id in s.slots ensures SlotContinues(s.slots[id], Installed(s, name, client).slots[id]) {
      assert SlotSound(s.slots[id], s.leases, id);
    }
  }

  lemma FreedContinues(s: State, l: nat)
    requires Sound(s) && l in s.leases
    ensures Continues(s, Freed(s, l))
  {
    forall id | id in s.slots ensures SlotContinues(s.slots[id], Freed(s, l).slots[id]) {
      assert SlotSound(s.slots[id], s.leases, id);
    }
  }

  lemma RemovedContinues(s: State, name: string)
    requires Sound(s) && name in s.names
    ensures Continues(s, Removed(s, name))
  {
    assert SlotSound(s.slots[s.names[name]], s.leases, s.names[name]);
  }

  lemma LentContinues(s: State, name: string)
    requires Sound(s) && name in s.names
    ensures Continues(s, Lent(s, s.names[name]))
  {
    assert SlotSound(s.slots[s.names[name]], s.leases, s.names[name]);
  }

  lemma SameContinues(s: State)
    ensures Continues(s, s)
  {
  }

  lemma StepContinues(s: State, c: Command)
    requires Sound(s)
    ensures Continues(s, Step(s, c).0)
  {
    if Step(s, c).0 == s {
      SameContinues(s);
    } else {
      match c
      case Register(raw, client, _) => InstalledContinues(s, Strip(raw), client);
      case Swap(raw, client) => InstalledContinues(s, Strip(raw), client);
      case Retire(raw) => RemovedContinues(s, Strip(raw));
      case Acquire(raw) => LentContinues(s, Strip(raw));
      case Enter(l) =>
      case Release(l) => FreedContinues(s, l);
    }
  }

  lemma ContinuesOn(s: State, s1: State, s2: State)
    requires Continues(s, s1) && Continues(s1, s2)
    ensures Continues(s, s2)
  {
  }

  lemma {:induction false} RunContinues(cs: seq<Command>, more: seq<Command>)
    ensures Continues(After(cs), After(cs + more))
  {
    if more == [] {
      assert cs + more == cs;
    } else {
      var n := |more| - 1;
      RunContinues(cs, more[..n]);
      assert (cs + more)[..|cs + more| - 1] == cs + more[..n];
      StepContinues(After(cs + more[..n]), more[n]);
      ContinuesOn(After(cs), After(cs + more[..n]), After(cs + more));
    }
  }

  /** Once drained, a slot stays drained and unleased, and no lease on it can be entered any more: its client may be
      closed. */
  lemma DrainedForGood(cs: seq<Command>, more: seq<Command>, id: nat)
    requires id in After(cs).slots && After(cs).slots[id].drained
    ensures var s := After(cs + more);
            && id in s.slots && s.slots[id] == After(cs).slots[id]
            && Unreleased(s.leases, id) == {}
            && (forall l :: l in s.leases && s.leases[l].slot == id ==> Step(s, Command.Enter(l)).1.Refused?)
            && (forall n :: n in s.names ==> s.names[n] != id)
  {
    RunContinues(cs, more);
    var s := After(cs + more);
    assert SlotSound(s.slots[id], s.leases, id);
    forall l | l in s.leases && s.leases[l].slot == id ensures s.leases[l].released {
      assert l !in Unreleased(s.leases, id);
    }
  }

  /** A lease is on the client that was current when it was acquired, whatever is swapped in afterwards; and while it is
      not released, that client's slot is not drained. */
  lemma LeasePinsClient(cs: seq<Command>, rawName: string, more: seq<Command>)
    requires Strip(rawName) != "" && Strip(rawName) in After(cs).names
    ensures var s, l := After(cs + [Command.Acquire(rawName)] + more), After(cs).nextLease;
            && l in s.leases && s.leases[l].slot == After(cs).names[Strip(rawName)] && s.leases[l].slot in s.slots
            && s.slots[s.leases[l].slot].client == After(cs).slots[After(cs).names[Strip(rawName)]].client
            && (!s.leases[l].released ==> !s.slots[s.leases[l].slot].drained)
  {
    var first := cs + [Command.Acquire(rawName)];
    assert first[..|first| - 1] == cs;
    RunContinues(first, more);
    var s, l := After(first + more), After(cs).nextLease;
    var id := s.leases[l].slot;
    assert SlotSound(s.slots[id], s.leases, id);
    if !s.leases[l].released { assert l in Unreleased(s.leases, id); }
  }
}
