/**
 * What the two `CreateGraph` classes keep on disk, as values: a graph
 * cache file per recipe count holding whatever `pickle.load` returns, and
 * a recipe cache file per recipe count. Also the recipe pull from the
 * loader's generator and the bookkeeping fact that keeps the direct
 * `edge_weights[edge_key]` lookup safe.
 */
module GraphCache {
  import opened Graphs
  import opened CoOccurrence
  import opened Outcomes

  /** The unpickled contents of a graph cache file: the 2-tuple `(G, edge_weights)`, or any other shape. */
  datatype Snapshot = GraphPair(graph: Graph, weights: Weights) | OtherShape

  /**
   * A graph and its counters as `build_graph` leaves them: a well-formed
   * graph, sorted keys on nodes, and every edge counted.
   */
  ghost predicate Consistent(g: Graph, w: Weights)
  {
    Valid(g) && CanonicalKeys(w) && KeysOnNodes(w, g) && g.edges <= w.Keys
  }

  /** Consistency does not depend on the 'weight' attributes: a graph with the same nodes and edges stays consistent. */
  lemma ConsistentSameShape(g: Graph, h: Graph, w: Weights)
    requires Consistent(g, w) && Valid(h) && h.nodes == g.nodes && h.edges == g.edges
    ensures Consistent(h, w)
  {
  }

  /** Every well-shaped snapshot in the cache is consistent. */
  ghost predicate CacheOk(cache: map<int, Snapshot>)
  {
    forall n :: n in cache && cache[n].GraphPair? ==> Consistent(cache[n].graph, cache[n].weights)
  }

  /**
   * Taking n recipes from a fresh loader's generator: the first
   * n recipes (none when n <= 0), or StopIteration when fewer are left.
   */
  function Pull(source: seq<Recipe>, n: int): (r: Result<seq<Recipe>>)
    ensures r.Ok? <==> n <= |source|
    ensures r.Err? ==> r.error == SourceExhausted
    ensures r.Ok? ==> |r.value| == (if n < 0 then 0 else n) && r.value == source[..|r.value|]
  {
    if n <= 0 then Ok([])
    else if |source| < n then Err(SourceExhausted)
    else Ok(source[..n])
  }

  /** The recipes `load_recipes_from_cookpad` ends up with for count n: the cached list, else a fresh pull. */
  function RecipeLoad(recipeCache: map<int, seq<Recipe>>, n: int, source: seq<Recipe>): Result<seq<Recipe>>
  {
    if n in recipeCache then Ok(recipeCache[n]) else Pull(source, n)
  }

  /** The recipe cache after that load: a fresh pull is written under n. */
  function RecipeCacheAfter(recipeCache: map<int, seq<Recipe>>, n: int, source: seq<Recipe>): map<int, seq<Recipe>>
  {
    if n !in recipeCache && Pull(source, n).Ok? then recipeCache[n := Pull(source, n).value] else recipeCache
  }

  /** The counters after the recipe loop over `rs`, starting from `w`. */
  function CountedAfter(w: Weights, rs: seq<Recipe>): Weights
  {
    Accumulate(w, CorpusPairs(rs))
  }

  /** The graph after the recipe loop over `rs` and the `add_edge` loop, starting from `g` and `w`. */
  function BuiltAfter(g: Graph, w: Weights, rs: seq<Recipe>): Graph
    requires Consistent(g, w)
  {
    CorpusKeysOnNodes(g, w, rs);
    WithEdges(CorpusNodes(g, rs), CountedAfter(w, rs))
  }

  /**
   * Building on top of a consistent state keeps it consistent: the new
   * edges are exactly the new counter keys, and old keys stay keys, so the
   * direct lookup in `convert_to_pyvis` still finds every edge.
   */
  lemma BuildKeepsConsistent(g: Graph, w: Weights, rs: seq<Recipe>)
    requires Consistent(g, w)
    ensures Consistent(BuiltAfter(g, w, rs), CountedAfter(w, rs))
    ensures BuiltAfter(g, w, rs).edges == g.edges + CountedAfter(w, rs).Keys
  {
    CorpusKeysOnNodes(g, w, rs);
    AccumulateKeys(w, CorpusPairs(rs));
  }

  /** From the initial empty graph and counters, the build is the fresh build of create_graph.py. */
  lemma FreshBuiltAfter(rs: seq<Recipe>)
    ensures Consistent(EmptyGraph(), map[])
    ensures (BuiltAfter(EmptyGraph(), map[], rs), CountedAfter(map[], rs)) == Build(rs)
  {
    var w := CountedAfter(map[], rs);
    var cn := CorpusNodes(EmptyGraph(), rs);
    assert cn.edges + w.Keys == w.Keys;
    assert cn.weight + w == w;
  }
}
