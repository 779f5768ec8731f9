/**
 * create_graph2.py: the `CreateGraph` class without name canonicalisation.
 *
 * `build_graph` looks for a graph cache file under the current recipe
 * count. On a miss it loads recipes if none are loaded (which sets the
 * count), runs the recipe loop on top of the current graph and counters,
 * adds one edge per counter and saves `(G, edge_weights)` under the count
 * as it is after the load. On a hit it replaces the graph and counters by
 * the snapshot, or raises ValueError when the snapshot is not a 2-tuple.
 * The cache files are the maps `graphCache` and `recipeCache`; the
 * loader's recipes and the number typed at the prompt are parameters.
 */
module CreateGraph2 {
  import opened Graphs
  import opened CoOccurrence
  import opened Pyvis
  import opened Outcomes
  import opened GraphCache

  class CreateGraph {
    var G: Graph
    var loadedRecipes: seq<Recipe>
    var edgeWeights: Weights
    /** `self.nt.edges`: the pyvis edge dicts. */
    var ntEdges: seq<VisEdge>
    var numberOfRecipes: int
    /** `graphs.pickle_<n>` for each n that has a file. */
    var graphCache: map<int, Snapshot>
    /** `recipes.pickle_<n>` for each n that has a file. */
    var recipeCache: map<int, seq<Recipe>>

    ghost predicate Valid()
      reads this
    {
      Consistent(G, edgeWeights) && CacheOk(graphCache)
    }

    /** `__init__`, with the cache files already on disk. */
    constructor(graphFiles: map<int, Snapshot>, recipeFiles: map<int, seq<Recipe>>)
      requires CacheOk(graphFiles)
      ensures Valid()
      ensures G == EmptyGraph() && loadedRecipes == [] && edgeWeights == map[] && ntEdges == []
      ensures numberOfRecipes == 0 && graphCache == graphFiles && recipeCache == recipeFiles
    {
      G := EmptyGraph();
      loadedRecipes := [];
      edgeWeights := map[];
      ntEdges := [];
      numberOfRecipes := 0;
      graphCache := graphFiles;
      recipeCache := recipeFiles;
    }

    predicate IsRecipeCacheAvailable(num: int)
      reads this
    {
      num in recipeCache
    }

    predicate IsGraphCacheAvailable(num: int)
      reads this
    {
      num in graphCache
    }

    /**
     * `load_recipes_from_cookpad`: the count becomes the number typed in;
     * the recipes come from the recipe cache, or from the loader, in which
     * case they are written to the cache. A loader that runs dry raises
     * StopIteration after the count has been set.
     */
    method LoadRecipesFromCookpad(requested: int, source: seq<Recipe>) returns (out: Outcome)
      requires Valid()
      modifies this
      ensures Valid()
      ensures numberOfRecipes == requested
      ensures out == (if RecipeLoad(old(recipeCache), requested, source).Ok? then Success else Failure(SourceExhausted))
      ensures loadedRecipes == (if out == Success then RecipeLoad(old(recipeCache), requested, source).value else old(loadedRecipes))
      ensures recipeCache == RecipeCacheAfter(old(recipeCache), requested, source)
      ensures G == old(G) && edgeWeights == old(edgeWeights) && ntEdges == old(ntEdges) && graphCache == old(graphCache)
    {
      numberOfRecipes := requested;
      if !IsRecipeCacheAvailable(numberOfRecipes) {
        var pulled := Pull(source, numberOfRecipes);
        if pulled.Err? {
          return Failure(pulled.error);
        }
        loadedRecipes := pulled.value;
        recipeCache := recipeCache[numberOfRecipes := loadedRecipes];
      } else {
        loadedRecipes := recipeCache[numberOfRecipes];
      }
      out := Success;
    }

    /** `build_graph`: the cache test uses the count before any load, the save the count after it. */
    method BuildGraph(requested: int, source: seq<Recipe>) returns (out: Outcome)
      requires Valid()
      modifies this
      ensures Valid()
      ensures ntEdges == old(ntEdges)
      ensures old(numberOfRecipes) in old(graphCache) ==>
        && loadedRecipes == old(loadedRecipes) && numberOfRecipes == old(numberOfRecipes)
        && recipeCache == old(recipeCache) && graphCache == old(graphCache)
        && match old(graphCache)[old(numberOfRecipes)]
           case OtherShape => out == Failure(CacheFormatError) && G == old(G) && edgeWeights == old(edgeWeights)
           case GraphPair(g, w) => out == Success && G == g && edgeWeights == w
      ensures old(numberOfRecipes) !in old(graphCache) && old(loadedRecipes) != [] ==>
        && out == Success && loadedRecipes == old(loadedRecipes)
        && numberOfRecipes == old(numberOfRecipes) && recipeCache == old(recipeCache)
      ensures old(numberOfRecipes) !in old(graphCache) && old(loadedRecipes) == [] ==>
        && numberOfRecipes == requested
        && recipeCache == RecipeCacheAfter(old(recipeCache), requested, source)
        && out == (if RecipeLoad(old(recipeCache), requested, source).Ok? then Success else Failure(SourceExhausted))
        && loadedRecipes == (if out == Success then RecipeLoad(old(recipeCache), requested, source).value else old(loadedRecipes))
      ensures old(numberOfRecipes) !in old(graphCache) && out == Success ==>
        && edgeWeights == CountedAfter(old(edgeWeights), loadedRecipes)
        && G == BuiltAfter(old(G), old(edgeWeights), loadedRecipes)
        && graphCache == old(graphCache)[numberOfRecipes := GraphPair(G, edgeWeights)]
      ensures old(numberOfRecipes) !in old(graphCache) && out != Success ==>
        G == old(G) && edgeWeights == old(edgeWeights) && graphCache == old(graphCache)
    {
      if !IsGraphCacheAvailable(numberOfRecipes) {
        if loadedRecipes == [] {
          out := LoadRecipesFromCookpad(requested, source);
          if out != Success {
            return;
          }
        }
        BuildAndSave();
        out := Success;
      } else {
        var loaded := graphCache[numberOfRecipes];
        if loaded.OtherShape? {
          return Failure(CacheFormatError);
        }
        G, edgeWeights := loaded.graph, loaded.weights;
        out := Success;
      }
    }

    /** The miss branch once recipes are loaded: the recipe loop, the `add_edge` loop, the save. */
    method BuildAndSave()
      requires Valid()
      modifies this
      ensures Valid()
      ensures edgeWeights == CountedAfter(old(edgeWeights), loadedRecipes)
      ensures G == BuiltAfter(old(G), old(edgeWeights), loadedRecipes)
      ensures graphCache == old(graphCache)[numberOfRecipes := GraphPair(G, edgeWeights)]
      ensures loadedRecipes == old(loadedRecipes) && ntEdges == old(ntEdges)
      ensures numberOfRecipes == old(numberOfRecipes) && recipeCache == old(recipeCache)
    {
      BuildKeepsConsistent(G, edgeWeights, loadedRecipes);
      CorpusKeysOnNodes(G, edgeWeights, loadedRecipes);
      var counted;
      G, counted := ProcessRecipes(G, edgeWeights, loadedRecipes);
      edgeWeights := counted;
      G := Materialise(G, edgeWeights);
      graphCache := graphCache[numberOfRecipes := GraphPair(G, edgeWeights)];
    }

    /**
     * `convert_to_pyvis`: `self.nt`, made once by `__init__`, gains a dict
     * for each graph edge it does not draw yet, and every dict it holds is
     * valued with `self.edge_weights[edge_key]`. The edges of the graph
     * itself always have counters, so on a first call the lookup cannot
     * raise. A dict left from an earlier graph whose pair the current
     * counters lack raises KeyError. `from_nx` has by then moved every
     * edge's 'weight' of `self.G` into its 'width'.
     */
    method ConvertToPyvis() returns (out: Outcome)
      requires Valid()
      modifies this
      ensures Valid()
      ensures out == (if EdgeKeys(old(ntEdges)) <= edgeWeights.Keys then Success else Failure(MissingEdgeKey))
      ensures old(ntEdges) == [] ==> out == Success
      ensures |ntEdges| == |old(ntEdges)| + |G.edges - EdgeKeys(old(ntEdges))|
      ensures EdgeKeys(ntEdges) == EdgeKeys(old(ntEdges)) + G.edges
      ensures forall i :: 0 <= i < |old(ntEdges)| ==> ntEdges[i].src == old(ntEdges)[i].src && ntEdges[i].dst == old(ntEdges)[i].dst
      ensures out == Success ==> forall i :: 0 <= i < |ntEdges| ==>
        KeyOf(ntEdges[i]) in edgeWeights && ntEdges[i].value == Some(edgeWeights[KeyOf(ntEdges[i])])
      ensures G == WeightsMoved(old(G))
      ensures edgeWeights == old(edgeWeights) && loadedRecipes == old(loadedRecipes)
      ensures numberOfRecipes == old(numberOfRecipes) && graphCache == old(graphCache) && recipeCache == old(recipeCache)
    {
      var ok;
      var es, moved;
      es, moved, ok := ConvertStrict(ntEdges, G, edgeWeights);
      ConsistentSameShape(G, moved, edgeWeights);
      ntEdges, G := es, moved;
      out := if ok then Success else Failure(MissingEdgeKey);
    }
  }
}
