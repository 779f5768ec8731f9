/**
 * create_graph.py: a module-level script that counts co-occurrences over
 * the recipes of a pickle file, adds one weighted edge per counter key,
 * converts the graph for pyvis and sets each pyvis edge's value with the
 * direct lookup `edge_weights[edge_key]`.
 */
module CreateGraphScript {
  import opened Graphs
  import opened CoOccurrence
  import opened Pyvis
  import opened Outcomes

  /**
   * The script body from the recipe loop to the pyvis value loop. The
   * direct lookup at the end cannot raise KeyError: every pyvis edge comes
   * from a graph edge, and every graph edge is a counter key. `g` is the
   * graph as the script pickles it to "sample.graph", after `from_nx` has
   * moved each edge's 'weight' into its 'width'.
   */
  method RunScript(recipes: seq<Recipe>) returns (g: Graph, edgeWeights: Weights, ntEdges: seq<VisEdge>)
    ensures edgeWeights == Build(recipes).1 && g == WeightsMoved(Build(recipes).0)
    ensures g.nodes == Build(recipes).0.nodes && forall k :: k !in g.weight
    ensures g.edges == edgeWeights.Keys
    ensures |ntEdges| == |g.edges| && EdgeKeys(ntEdges) == g.edges
    ensures forall i :: 0 <= i < |ntEdges| ==> (KeyOf(ntEdges[i]) in edgeWeights
      && ntEdges[i].value == Some(edgeWeights[KeyOf(ntEdges[i])]))
  {
    var built;
    built, edgeWeights := BuildFromRecipes(recipes);
    BuildValid(recipes);
    DrawnOnEmpty(built.edges);
    var ok;
    ntEdges, g, ok := ConvertStrict([], built, edgeWeights);
    assert ok;
  }
}
