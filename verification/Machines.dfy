/** What a program may do along the edges of its pointer-assignment graph. */
module Machines {
  import opened AliasResults
  import opened PointerAssignmentGraph

  /** Tells activations of one function apart, and objects that one value allocates: by the call sites that have
      led there, latest first, and by a number for everything else, as recursion, repetition, and fields. */
  datatype Instance = Instance(calls: seq<CallSite>, number: int)

  /** An address belongs to the memory object that some value allocated. */
  datatype Address = Address(origin: ValueId, tag: Instance)

  /** One activation of a value. */
  datatype Slot = Slot(frame: Instance, value: ValueId)

  datatype Machine = Machine(env: map<Slot, Address>, mem: map<Address, Address>)

  /** A step of the program. Flow follows an edge from one activation of its source to one of its target; the
      tags choose the field that a Gep selects or the cells that a Copy reads and writes. */
  datatype Action =
    | Allocate(slot: Slot, tag: Instance)
    | Flow(edge: Edge, fromFrame: Instance, toFrame: Instance, readTag: Instance, writeTag: Instance)
  {
    function Source(): Slot
      requires Flow?
    {
      Slot(fromFrame, edge.from)
    }

    function Target(): Slot
      requires Flow?
    {
      Slot(toFrame, edge.to)
    }

    /** The cell that a Copy reads. */
    function CellRead(s: Machine): Address
      requires Flow? && Source() in s.env
    {
      Address(s.env[Source()].origin, readTag)
    }

    /** The cell that a Copy writes. */
    function CellWritten(s: Machine): Address
      requires Flow? && Target() in s.env
    {
      Address(s.env[Target()].origin, writeTag)
    }
  }

  predicate Enabled(n: nat, edges: seq<Edge>, s: Machine, a: Action) {
    match a
    case Allocate(slot, _) => slot.value < n
    case Flow(e, _, _, _, _) =>
      e in edges && a.Source() in s.env &&
      match e.kind
      case Load => s.env[a.Source()] in s.mem
      case Store => a.Target() in s.env
      case StorePOI => a.Target() in s.env
      case Copy => a.Target() in s.env && a.CellRead(s) in s.mem
      case _ => true
  }

  function Apply(n: nat, edges: seq<Edge>, s: Machine, a: Action): Machine
    requires Enabled(n, edges, s, a)
  {
    match a
    case Allocate(slot, tag) => s.(env := s.env[slot := Address(slot.value, tag)])
    case Flow(e, _, _, _, writeTag) =>
      var value := s.env[a.Source()];
      match e.kind
      case Gep(_) => s.(env := s.env[a.Target() := Address(value.origin, writeTag)])
      case Load => s.(env := s.env[a.Target() := s.mem[value]])
      case Store => s.(mem := s.mem[s.env[a.Target()] := value])
      case StorePOI => s.(mem := s.mem[s.env[a.Target()] := value])
      case Copy => s.(mem := s.mem[a.CellWritten(s) := s.mem[a.CellRead(s)]])
      case _ => s.(env := s.env[a.Target() := value])
  }

  /** The states that a run passes through, starting without any address. */
  ghost predicate IsRun(n: nat, edges: seq<Edge>, actions: seq<Action>, states: seq<Machine>) {
    && |states| == |actions| + 1
    && states[0] == Machine(map[], map[])
    && forall i: nat :: i < |actions| ==> StepsAt(n, edges, actions, states, i)
  }

  ghost predicate StepsAt(n: nat, edges: seq<Edge>, actions: seq<Action>, states: seq<Machine>, i: nat)
    requires i < |actions| && |states| == |actions| + 1
  {
    Enabled(n, edges, states[i], actions[i]) && states[i + 1] == Apply(n, edges, states[i], actions[i])
  }

  /** At some time during the run, v holds an address of an object that o allocated. */
  ghost predicate EverHolds(states: seq<Machine>, v: ValueId, o: ValueId) {
    exists i: nat, slot :: i < |states| && HoldsAt(states[i], slot, v, o)
  }

  ghost predicate HoldsAt(s: Machine, slot: Slot, v: ValueId, o: ValueId) {
    slot in s.env && slot.value == v && s.env[slot].origin == o
  }
}
