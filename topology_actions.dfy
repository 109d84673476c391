/** The CPU kernel's particle-type change of a topology reaction.  The
    action keeps the type to write in `previousType`; executing it writes
    that type into the graph vertex and swaps it with the type of the
    vertex's particle entry, so undoing is executing once more. */
module TopologyActions {
  import opened Particles
  import opened Topologies

  /** A vertex of the topology graph: its particle type and the position of
      its particle in the topology's index list. */
  class Vertex {
    var particleType: nat
    const particleIndex: nat

    constructor (particleType: nat, particleIndex: nat)
      ensures this.particleType == particleType && this.particleIndex == particleIndex
    {
      this.particleType := particleType;
      this.particleIndex := particleIndex;
    }
  }

  /** The three types an execution touches. */
  datatype TypeState = TypeState(vertexType: nat, entryType: nat, previousType: nat)

  /** One execution on values: the vertex and the entry get the held type,
      the action keeps the entry's former type. */
  function Swapped(s: TypeState): (r: TypeState)
    ensures r.vertexType == r.entryType == s.previousType
    ensures r.previousType == s.entryType
  {
    TypeState(s.previousType, s.previousType, s.entryType)
  }

  /** `times` executions in a row. */
  function SwappedTimes(s: TypeState, times: nat): TypeState {
    if times == 0 then s else Swapped(SwappedTimes(s, times - 1))
  }

  /** Execute followed by undo restores the entry type and the held type,
      so executions cancel in pairs (the vertex then carries the entry's
      type); a vertex that agrees with its entry
      still agrees after any number of executions. */
  lemma {:induction false} RepeatedExecution(s: TypeState, times: nat)
    ensures times % 2 == 1 ==> SwappedTimes(s, times) == Swapped(s)
    ensures times % 2 == 0 && times > 0 ==> SwappedTimes(s, times) == s.(vertexType := s.entryType)
    ensures s.vertexType == s.entryType ==> SwappedTimes(s, times).vertexType == SwappedTimes(s, times).entryType
  {
    if times > 0 {
      RepeatedExecution(s, times - 1);
    }
  }

  class CpuChangeParticleType {
    const data: array<Entry>
    const topology: Topology
    const vertex: Vertex
    var previousType: nat

    /** The type to change to is held in `previousType` until the first execution. */
    constructor (data: array<Entry>, topology: Topology, vertex: Vertex, typeTo: nat)
      ensures this.data == data && this.topology == topology && this.vertex == vertex
      ensures previousType == typeTo
    {
      this.data := data;
      this.topology := topology;
      this.vertex := vertex;
      previousType := typeTo;
    }

    /** The kernel index of the vertex's particle, when the vertex lies in the topology. */
    predicate InTopology()
      reads topology
    {
      vertex.particleIndex < |topology.particles|
    }

    function EntryIndex(): nat
      reads topology
      requires InTopology()
    {
      topology.particles[vertex.particleIndex]
    }

    function State(): TypeState
      reads this, vertex, topology, data
      requires InTopology() && EntryIndex() < data.Length
    {
      TypeState(vertex.particleType, data[EntryIndex()].ptype, previousType)
    }

    /** Fails, changing nothing, when the vertex's index lies outside the
        topology's index list (the bounds-checked lookup throws); otherwise
        performs one swap and leaves every other entry alone. */
    method Execute() returns (ok: bool)
      requires InTopology() ==> EntryIndex() < data.Length
      modifies this, vertex, data
      ensures ok <==> InTopology()
      ensures ok ==> State() == Swapped(old(State()))
      ensures ok ==> data[EntryIndex()] == old(data[EntryIndex()]).(ptype := old(previousType))
      ensures !ok ==> previousType == old(previousType) && vertex.particleType == old(vertex.particleType)
      ensures forall j | 0 <= j < data.Length && !(ok && j == EntryIndex()) :: data[j] == old(data[j])
    {
      if vertex.particleIndex >= |topology.particles| {
        return false;
      }
      var idx := topology.particles[vertex.particleIndex];
      vertex.particleType := previousType;
      var entryType := data[idx].ptype;
      data[idx] := data[idx].(ptype := previousType);
      previousType := entryType;
      ok := true;
    }

    /** Undo is a second execution. */
    method Undo() returns (ok: bool)
      requires InTopology() ==> EntryIndex() < data.Length
      modifies this, vertex, data
      ensures ok <==> InTopology()
      ensures ok ==> State() == Swapped(old(State()))
      ensures ok ==> data[EntryIndex()] == old(data[EntryIndex()]).(ptype := old(previousType))
      ensures !ok ==> previousType == old(previousType) && vertex.particleType == old(vertex.particleType)
      ensures forall j | 0 <= j < data.Length && !(ok && j == EntryIndex()) :: data[j] == old(data[j])
    {
      ok := Execute();
    }
  }
}
