/**
 What each operation of the model registry does, seen from its users: which
 client a name stands for, what is refused, and what is handed back.
 */
module RegistryOperations {
  import opened Common
  import opened Text
  import opened ModelRegistry

  function ClientFor(s: State, name: string): Option<nat>
    requires Linked(s)
  {
    if name in s.names then Some(s.slots[s.names[name]].client) else None
  }

  /** A name given with spaces around it is the name without them; a blank one is none. */
  function NameIn(c: Command): Option<string> {
    match c
    case Register(raw, _, _) => Some(Strip(raw))
    case Swap(raw, _) => Some(Strip(raw))
    case Retire(raw) => Some(Strip(raw))
    case Acquire(raw) => Some(Strip(raw))
    case _ => None
  }

  /** What is refused, and why; a refusal changes nothing. */
  lemma RefusesExactly(s: State, c: Command)
    requires Sound(s)
    ensures var (s', reply) := Step(s, c);
            && (reply.Refused? ==> s' == s)
            && (reply == Refused(BadName) <==> NameIn(c) == Some(""))
            && (reply == Refused(AlreadyRegistered) <==> c.Register? && Strip(c.name) != "" && !c.replace && ClientFor(s, Strip(c.name)).Some?)
            && (reply == Refused(EnteredTwice) <==> c.Enter? && c.lease in s.leases && s.leases[c.lease].entered)
            && (reply == Refused(AlreadyReleased) <==>
                  c.Enter? && c.lease in s.leases && !s.leases[c.lease].entered && s.leases[c.lease].released)
            && (c.Swap? || c.Retire? || c.Acquire? ==>
                  (reply == Refused(NotFound) <==> Strip(c.name) != "" && ClientFor(s, Strip(c.name)).None?))
  {
  }

  /** Which client a name stands for afterwards. */
  lemma ClientAfter(s: State, c: Command, n: string)
    requires Sound(s) && !Step(s, c).1.Refused?
    ensures Linked(Step(s, c).0)
    ensures ClientFor(Step(s, c).0, n) ==
            match c
            case Register(raw, client, _) => if n == Strip(raw) then Some(client) else ClientFor(s, n)
            case Swap(raw, client) => if n == Strip(raw) then Some(client) else ClientFor(s, n)
            case Retire(raw) => if n == Strip(raw) then None else ClientFor(s, n)
            case _ => ClientFor(s, n)
  {
    StepSound(s, c);
    StepContinues(s, c);
  }

  /** The slot handed back by swapping or retiring is the one that was current; it is retired, and drained exactly if no
      lease on it is unreleased. Leases are left alone. */
  lemma HandsBackTheOld(s: State, c: Command)
    requires Sound(s) && (c.Swap? || c.Retire?) && !Step(s, c).1.Refused?
    ensures var (s', reply) := Step(s, c);
            var former := s.names[Strip(c.name)];
            && reply == Retiring(former) && former in s'.slots && s'.slots[former].retired
            && (s'.slots[former].drained <==> Unreleased(s.leases, former) == {})
            && s'.leases == s.leases
  {
    assert SlotSound(s.slots[s.names[Strip(c.name)]], s.leases, s.names[Strip(c.name)]);
  }

  /** A lease is on the current slot, unentered and unreleased; entering it gives that slot's client. */
  lemma LeasesTheCurrent(s: State, rawName: string)
    requires Sound(s) && !Step(s, Command.Acquire(rawName)).1.Refused?
    ensures var (s', reply) := Step(s, Command.Acquire(rawName));
            && reply == Leased(s.nextLease) && s.nextLease !in s.leases
            && s'.leases == s.leases[s.nextLease := ModelLease(s.names[Strip(rawName)], false, false)]
            && Linked(s') && ClientFor(s, Strip(rawName)).Some?
            && Step(s', Command.Enter(s.nextLease)).1 == Client(ClientFor(s, Strip(rawName)).value)
  {
  }

  /** Releasing marks the lease, and drains its slot exactly if that is retired and this was the last lease on it. */
  lemma ReleasesExactly(s: State, l: nat)
    requires Sound(s) && l in s.leases && !s.leases[l].released
    ensures var s', id := Step(s, Command.Release(l)).0, s.leases[l].slot;
            && s'.leases == s.leases[l := s.leases[l].(released := true)] && s'.names == s.names
            && (s'.slots[id].drained <==> s.slots[id].retired && Unreleased(s.leases, id) == {l})
            && (forall x :: x in s.slots && x != id ==> s'.slots[x] == s.slots[x])
  {
    var id := s.leases[l].slot;
    assert SlotSound(s.slots[id], s.leases, id);
    assert l in Unreleased(s.leases, id);
    if s.slots[id].activeLeases == 1 { OnlyOne(Unreleased(s.leases, id), l); }
  }

  lemma OnlyOne(ids: set<nat>, x: nat)
    requires x in ids && |ids| == 1
    ensures ids == {x}
  {
    assert |ids - {x}| == 0;
  }
}
