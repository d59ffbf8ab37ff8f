/** An agent's in-flight slots, taken by selections and given back once each (internal/domain/agent.go). */
module AgentSlots {
  /** The load counter of an agent, changed only under the agent's lock. */
  class Agent {
    const capacity: int
    var activeRequests: int

    constructor (capacity: int)
      ensures this.capacity == capacity && activeRequests == 0
    {
      this.capacity, activeRequests := capacity, 0;
    }

    method TryAcquireSlot() returns (ok: bool)
      modifies this
      ensures Load(activeRequests, capacity) == Taken(old(Load(activeRequests, capacity))).0
      ensures ok == Taken(old(Load(activeRequests, capacity))).1
      ensures ok <==> old(activeRequests) < capacity
      ensures activeRequests == old(activeRequests) + if ok then 1 else 0
    {
      if activeRequests >= capacity { return false; }
      activeRequests := activeRequests + 1;
      return true;
    }

    method DecrementLoad()
      modifies this
      ensures activeRequests == old(activeRequests) - 1
    {
      activeRequests := activeRequests - 1;
    }
  }

  datatype Load = Load(active: int, capacity: int)

  function Taken(l: Load): (Load, bool) {
    if l.active < l.capacity then (l.(active := l.active + 1), true) else (l, false)
  }

  /** Every agent object that was ever registered, and every slot taken and not yet given back. */
  datatype Fleet = Fleet(agents: map<nat, Load>, slots: map<nat, nat>)

  /** Slots are named by the selection that took them; giving one back a second time does nothing. */
  datatype Event = Register(agent: nat, capacity: int) | TryAcquire(agent: nat, slot: nat) | Release(slot: nat)

  function Step(f: Fleet, e: Event): Fleet {
    match e
    case Register(a, capacity) => if a in f.agents then f else f.(agents := f.agents[a := Load(0, capacity)])
    case TryAcquire(a, slot) =>
      if a !in f.agents || slot in f.slots then f
      else var (l, ok) := Taken(f.agents[a]);
           Fleet(f.agents[a := l], if ok then f.slots[slot := a] else f.slots)
    case Release(slot) =>
      if slot !in f.slots || f.slots[slot] !in f.agents then f
      else var a := f.slots[slot];
           Fleet(f.agents[a := f.agents[a].(active := f.agents[a].active - 1)], f.slots - {slot})
  }

  function Run(f: Fleet, es: seq<Event>): Fleet {
    if es == [] then f else Step(Run(f, es[..|es| - 1]), es[|es| - 1])
  }

  function Held(f: Fleet, a: nat): set<nat> {
    set s | s in f.slots && f.slots[s] == a
  }

  function Most(capacity: int): nat {
    if capacity > 0 then capacity else 0
  }

  ghost predicate Inv(f: Fleet) {
    && (forall s :: s in f.slots ==> f.slots[s] in f.agents)
    && forall a :: a in f.agents ==> f.agents[a].active == |Held(f, a)| <= Most(f.agents[a].capacity)
  }

  lemma AcquireKeepsInv(f: Fleet, a: nat, slot: nat)
    requires Inv(f)
    ensures Inv(Step(f, TryAcquire(a, slot)))
  {
    var g := Step(f, TryAcquire(a, slot));
    forall b | b in g.agents ensures g.agents[b].active == |Held(g, b)| <= Most(g.agents[b].capacity) {
      if b == a && g.slots != f.slots {
        assert Held(g, b) == Held(f, b) + {slot};
      } else {
        assert Held(g, b) == Held(f, b);
      }
    }
  }

  lemma ReleaseKeepsInv(f: Fleet, slot: nat)
    requires Inv(f)
    ensures Inv(Step(f, Release(slot)))
  {
    var g := Step(f, Release(slot));
    forall b | b in g.agents ensures g.agents[b].active == |Held(g, b)| <= Most(g.agents[b].capacity) {
      if slot in f.slots && b == f.slots[slot] {
        assert Held(g, b) == Held(f, b) - {slot};
      } else {
        assert Held(g, b) == Held(f, b);
      }
    }
  }

  lemma RegisterKeepsInv(f: Fleet, a: nat, capacity: int)
    requires Inv(f)
    ensures Inv(Step(f, Register(a, capacity)))
  {
    var g := Step(f, Register(a, capacity));
    forall b | b in g.agents ensures g.agents[b].active == |Held(g, b)| <= Most(g.agents[b].capacity) {
      if b == a && a !in f.agents {
        assert Held(g, b) == {};
      } else {
        assert Held(g, b) == Held(f, b);
      }
    }
  }

  /** In every run each agent's load is the number of its slots still held, and stays between 0 and its capacity. */
  lemma {:induction false} LoadIsSlotsHeld(es: seq<Event>)
    ensures Inv(Run(Fleet(map[], map[]), es))
  {
    if es != [] {
      var f, e := Run(Fleet(map[], map[]), es[..|es| - 1]), es[|es| - 1];
      LoadIsSlotsHeld(es[..|es| - 1]);
      match e
      case Register(a, capacity) => RegisterKeepsInv(f, a, capacity);
      case TryAcquire(a, slot) => AcquireKeepsInv(f, a, slot);
      case Release(slot) => ReleaseKeepsInv(f, slot);
    }
  }
}
