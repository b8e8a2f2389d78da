/**
 * A networkx graph as the pipeline uses it: a graph-level attribute
 * dictionary (`graph.graph`, where `completed_stages` lives) and, for the
 * MDSA marking round, the neighbours of each node together with the integer
 * node attributes `random_number`, `weight`, `marks` and `countermarks`.
 * Nodes are the integers 0 .. n - 1, visited in that order.
 */
module Graphs {
  import opened PyValues

  class Graph {
    /** `graph.graph`, the graph-level attributes */
    var attrs: Dict
    /** `nx.all_neighbors(graph, v)` for every node `v`, in iteration order */
    const adjacency: seq<seq<nat>>
    /** node attribute `random_number` of every node */
    var randomNumber: seq<int>
    /** node attribute `weight` of every node */
    var weight: seq<int>
    /** node attribute `marks` of every node */
    var marks: seq<int>
    /** node attribute `countermarks` of every node */
    var countermarks: seq<int>

    /** Every node has each attribute, and every neighbour is a node. */
    ghost predicate Valid()
      reads this
    {
      && |randomNumber| == |adjacency|
      && |weight| == |adjacency|
      && |marks| == |adjacency|
      && |countermarks| == |adjacency|
      && NeighboursAreNodes(adjacency)
    }

    constructor (attrs: Dict, adjacency: seq<seq<nat>>, randomNumber: seq<int>, weight: seq<int>, marks: seq<int>, countermarks: seq<int>)
      requires |randomNumber| == |weight| == |marks| == |countermarks| == |adjacency|
      requires NeighboursAreNodes(adjacency)
      ensures Valid()
      ensures this.attrs == attrs && this.adjacency == adjacency
      ensures this.randomNumber == randomNumber && this.weight == weight
      ensures this.marks == marks && this.countermarks == countermarks
    {
      this.attrs := attrs;
      this.adjacency := adjacency;
      this.randomNumber := randomNumber;
      this.weight := weight;
      this.marks := marks;
      this.countermarks := countermarks;
    }
  }

  ghost predicate NeighboursAreNodes(adjacency: seq<seq<nat>>)
  {
    forall v, j :: 0 <= v < |adjacency| && 0 <= j < |adjacency[v]| ==> adjacency[v][j] < |adjacency|
  }
}
