/** The recipe of a topology reaction: the ordered list of graph operations
    the reaction will apply.  Vertices are referred to by their index in the
    topology's graph; the graph itself is represented only by how it
    resolves a vertex label and by the neighbours of each vertex. */
module Recipes {

  /** One step of a recipe. */
  datatype Op =
    | ChangeTypeOp(vertex: nat, to: nat)
    | AddEdgeOp(v1: nat, v2: nat)
    | RemoveEdgeOp(v1: nat, v2: nat)

  /** The graph of the topology a recipe is built for. */
  datatype GraphView = GraphView(vertexOfLabel: string -> nat, neighbors: nat -> seq<nat>)

  /** The steps `separateVertex` appends: one edge removal per neighbour,
      in neighbour order, with the vertex as first endpoint. */
  function Separation(vertex: nat, neighbors: seq<nat>): (r: seq<Op>)
    ensures |r| == |neighbors|
    ensures forall k | 0 <= k < |r| :: r[k] == RemoveEdgeOp(vertex, neighbors[k])
  {
    if neighbors == [] then []
    else Separation(vertex, neighbors[..|neighbors| - 1]) + [RemoveEdgeOp(vertex, neighbors[|neighbors| - 1])]
  }

  class Recipe {
    const graph: GraphView
    var steps: seq<Op>

    /** A new recipe has no steps. */
    constructor (graph: GraphView)
      ensures this.graph == graph && steps == []
    {
      this.graph := graph;
      steps := [];
    }

    /** Every builder appends exactly one step and returns this recipe, so
        calls chain. */
    method ChangeParticleType(vertex: nat, to: nat) returns (r: Recipe)
      modifies this
      ensures r == this && steps == old(steps) + [ChangeTypeOp(vertex, to)]
    {
      steps := steps + [ChangeTypeOp(vertex, to)];
      r := this;
    }

    method ChangeParticleTypeOfLabel(vertexLabel: string, to: nat) returns (r: Recipe)
      modifies this
      ensures r == this && steps == old(steps) + [ChangeTypeOp(graph.vertexOfLabel(vertexLabel), to)]
    {
      r := ChangeParticleType(graph.vertexOfLabel(vertexLabel), to);
    }

    method AddEdge(v1: nat, v2: nat) returns (r: Recipe)
      modifies this
      ensures r == this && steps == old(steps) + [AddEdgeOp(v1, v2)]
    {
      steps := steps + [AddEdgeOp(v1, v2)];
      r := this;
    }

    method AddEdgeOfLabels(label1: string, label2: string) returns (r: Recipe)
      modifies this
      ensures r == this && steps == old(steps) + [AddEdgeOp(graph.vertexOfLabel(label1), graph.vertexOfLabel(label2))]
    {
      r := AddEdge(graph.vertexOfLabel(label1), graph.vertexOfLabel(label2));
    }

    method RemoveEdge(v1: nat, v2: nat) returns (r: Recipe)
      modifies this
      ensures r == this && steps == old(steps) + [RemoveEdgeOp(v1, v2)]
    {
      steps := steps + [RemoveEdgeOp(v1, v2)];
      r := this;
    }

    method RemoveEdgeOfLabels(label1: string, label2: string) returns (r: Recipe)
      modifies this
      ensures r == this && steps == old(steps) + [RemoveEdgeOp(graph.vertexOfLabel(label1), graph.vertexOfLabel(label2))]
    {
      r := RemoveEdge(graph.vertexOfLabel(label1), graph.vertexOfLabel(label2));
    }

    /** Disconnects `vertex` from all of its neighbours. */
    method SeparateVertex(vertex: nat) returns (r: Recipe)
      modifies this
      ensures r == this && steps == old(steps) + Separation(vertex, graph.neighbors(vertex))
    {
      var neighbors := graph.neighbors(vertex);
      for k := 0 to |neighbors|
        invariant steps == old(steps) + Separation(vertex, neighbors[..k])
      {
        assert neighbors[..k + 1][..k] == neighbors[..k];
        r := RemoveEdge(vertex, neighbors[k]);
      }
      assert neighbors[..|neighbors|] == neighbors;
      r := this;
    }
  }
}
