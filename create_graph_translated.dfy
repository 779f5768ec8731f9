/**
 * creategraph.py: the `CreateGraph` class that canonicalises ingredient
 * names before counting them.
 *
 * `load_recipes_from_cookpad` always asks for 10000 recipes.
 * `build_graph` forms the graph cache path from the recipe count before
 * any load, so both the cache test and the save use that earlier count.
 * Each recipe's ingredients go through `translate_given_ingredients`
 * before their names become nodes and their pairs are counted with
 * `edge_weights.get(edge_key, 0) + 1`. `convert_to_pyvis` reads each edge
 * value with `.get(edge_key, 0)`. The cache files are the maps
 * `graphCache` and `recipeCache`; the loader's recipes, the MeCab tagger
 * and the translator are parameters.
 */
module CreateGraphTranslated {
  import opened Graphs
  import opened CoOccurrence
  import opened Pyvis
  import opened Outcomes
  import opened GraphCache
  import opened Unionization

  /** The count `load_recipes_from_cookpad` sets, in place of the prompt. */
  const RecipeCount: int := 10000

  /** The recipes the recipe loop actually counts: each one's ingredient list after translation. */
  function TranslatedCorpus(rs: seq<Recipe>, tagger: string -> string, translator: string -> Translation): seq<Recipe>
  {
    seq(|rs|, i requires 0 <= i < |rs| => TranslatedIngredients(rs[i], tagger, translator))
  }

  /**
   * Every node the translated corpus contributes is a processed, cleaned
   * name of a source ingredient whose cleaned name is not empty, and every
   * such ingredient contributes its node.
   */
  lemma TranslatedCorpusNames(rs: seq<Recipe>, tagger: string -> string, translator: string -> Translation, r: nat, e: Ingredient)
    requires r < |rs|
    ensures e in TranslatedCorpus(rs, tagger, translator)[r] <==>
      exists k :: 0 <= k < |rs[r]| && Cleaned(rs[r][k].name) != []
        && e == Ingredient(ProcessIngredient(Cleaned(rs[r][k].name), tagger, translator), rs[r][k].quantity)
  {
    TranslatedMember(rs[r], tagger, translator, e);
  }

  /**
   * The recipe loop of creategraph.py: translate a recipe, add its names
   * as nodes, count its pairs.
   */
  method ProcessTranslatedRecipes(g: Graph, w: Weights, rs: seq<Recipe>, tagger: string -> string, translator: string -> Translation)
    returns (g': Graph, w': Weights)
    requires Valid(g)
    ensures g' == CorpusNodes(g, TranslatedCorpus(rs, tagger, translator))
    ensures w' == CountedAfter(w, TranslatedCorpus(rs, tagger, translator))
  {
    ghost var ts := TranslatedCorpus(rs, tagger, translator);
    g', w' := g, w;
    var n := 0;
    while n < |rs|
      invariant 0 <= n <= |rs|
      invariant g' == CorpusNodes(g, ts[..n])
      invariant w' == Accumulate(w, CorpusPairs(ts[..n]))
    {
      var ingredients := TranslateGivenIngredients(rs[n], tagger, translator);
      assert ingredients == ts[n];
      CorpusStep(g, w, ts, n);
      g' := AddIngredientNodes(g', ingredients);
      w' := CountPairs(w', ingredients);
      n := n + 1;
    }
    assert ts[..n] == ts;
  }

  /** Counting the same recipes again on top of their counters doubles every counter. */
  lemma RebuildDoublesCounts(ts: seq<Recipe>, k: Key)
    ensures Get(CountedAfter(CountedAfter(map[], ts), ts), k) == 2 * Get(CountedAfter(map[], ts), k)
  {
    AccumulateCount(CountedAfter(map[], ts), CorpusPairs(ts), k);
    AccumulateCount(map[], CorpusPairs(ts), k);
  }

  class CreateGraph {
    var G: Graph
    var loadedRecipes: seq<Recipe>
    var edgeWeights: Weights
    /** `self.nt.edges`: the pyvis edge dicts. */
    var ntEdges: seq<VisEdge>
    var numberOfRecipes: int
    /** `graphs.pickle_<n>` for each n that has a file. */
    var graphCache: map<int, Snapshot>
    /** `recipes.pickle_<n>` for each n that has a file. */
    var recipeCache: map<int, seq<Recipe>>

    ghost predicate Valid()
      reads this
    {
      Consistent(G, edgeWeights) && CacheOk(graphCache)
    }

    /** `__init__`, with the cache files already on disk. */
    constructor(graphFiles: map<int, Snapshot>, recipeFiles: map<int, seq<Recipe>>)
      requires CacheOk(graphFiles)
      ensures Valid()
      ensures G == EmptyGraph() && loadedRecipes == [] && edgeWeights == map[] && ntEdges == []
      ensures numberOfRecipes == 0 && graphCache == graphFiles && recipeCache == recipeFiles
    {
      G := EmptyGraph();
      loadedRecipes := [];
      edgeWeights := map[];
      ntEdges := [];
      numberOfRecipes := 0;
      graphCache := graphFiles;
      recipeCache := recipeFiles;
    }

    predicate IsRecipeCacheAvailable(num: int)
      reads this
    {
      num in recipeCache
    }

    predicate IsGraphCacheAvailable(num: int)
      reads this
    {
      num in graphCache
    }

    /**
     * `load_recipes_from_cookpad`: the count becomes 10000; the recipes
     * come from the recipe cache, or from the loader, in which case they
     * are written to the cache. A loader that runs dry raises
     * StopIteration after the count has been set.
     */
    method LoadRecipesFromCookpad(source: seq<Recipe>) returns (out: Outcome)
      requires Valid()
      modifies this
      ensures Valid()
      ensures numberOfRecipes == RecipeCount
      ensures out == (if RecipeLoad(old(recipeCache), RecipeCount, source).Ok? then Success else Failure(SourceExhausted))
      ensures loadedRecipes == (if out == Success then RecipeLoad(old(recipeCache), RecipeCount, source).value else old(loadedRecipes))
      ensures recipeCache == RecipeCacheAfter(old(recipeCache), RecipeCount, source)
      ensures G == old(G) && edgeWeights == old(edgeWeights) && ntEdges == old(ntEdges) && graphCache == old(graphCache)
    {
      numberOfRecipes := RecipeCount;
      if !IsRecipeCacheAvailable(numberOfRecipes) {
        var pulled := Pull(source, numberOfRecipes);
        if pulled.Err? {
          return Failure(pulled.error);
        }
        loadedRecipes := pulled.value;
        recipeCache := recipeCache[numberOfRecipes := loadedRecipes];
      } else {
        loadedRecipes := recipeCache[numberOfRecipes];
      }
      out := Success;
    }

    /** `build_graph`: the cache test and the save both use the count before any load. */
    method BuildGraph(source: seq<Recipe>, tagger: string -> string, translator: string -> Translation) returns (out: Outcome)
      requires Valid()
      modifies this
      ensures Valid()
      ensures ntEdges == old(ntEdges)
      ensures old(numberOfRecipes) in old(graphCache) ==>
        && loadedRecipes == old(loadedRecipes) && numberOfRecipes == old(numberOfRecipes)
        && recipeCache == old(recipeCache) && graphCache == old(graphCache)
        && match old(graphCache)[old(numberOfRecipes)]
           case OtherShape => out == Failure(CacheFormatError) && G == old(G) && edgeWeights == old(edgeWeights)
           case GraphPair(g, w) => out == Success && G == g && edgeWeights == w
      ensures old(numberOfRecipes) !in old(graphCache) && old(loadedRecipes) != [] ==>
        && out == Success && loadedRecipes == old(loadedRecipes)
        && numberOfRecipes == old(numberOfRecipes) && recipeCache == old(recipeCache)
      ensures old(numberOfRecipes) !in old(graphCache) && old(loadedRecipes) == [] ==>
        && numberOfRecipes == RecipeCount
        && recipeCache == RecipeCacheAfter(old(recipeCache), RecipeCount, source)
        && out == (if RecipeLoad(old(recipeCache), RecipeCount, source).Ok? then Success else Failure(SourceExhausted))
        && loadedRecipes == (if out == Success then RecipeLoad(old(recipeCache), RecipeCount, source).value else old(loadedRecipes))
      ensures old(numberOfRecipes) !in old(graphCache) && out == Success ==>
        && edgeWeights == CountedAfter(old(edgeWeights), TranslatedCorpus(loadedRecipes, tagger, translator))
        && G == BuiltAfter(old(G), old(edgeWeights), TranslatedCorpus(loadedRecipes, tagger, translator))
        && graphCache == old(graphCache)[old(numberOfRecipes) := GraphPair(G, edgeWeights)]
      ensures old(numberOfRecipes) !in old(graphCache) && out != Success ==>
        G == old(G) && edgeWeights == old(edgeWeights) && graphCache == old(graphCache)
    {
      var graphKey := numberOfRecipes;
      if !IsGraphCacheAvailable(graphKey) {
        if loadedRecipes == [] {
          out := LoadRecipesFromCookpad(source);
          if out != Success {
            return;
          }
        }
        BuildAndSave(graphKey, tagger, translator);
        out := Success;
      } else {
        var loaded := graphCache[graphKey];
        if loaded.OtherShape? {
          return Failure(CacheFormatError);
        }
        G, edgeWeights := loaded.graph, loaded.weights;
        out := Success;
      }
    }

    /** The miss branch once recipes are loaded: the translated recipe loop, the `add_edge` loop, the save under `graphKey`. */
    method BuildAndSave(graphKey: int, tagger: string -> string, translator: string -> Translation)
      requires Valid()
      modifies this
      ensures Valid()
      ensures edgeWeights == CountedAfter(old(edgeWeights), TranslatedCorpus(loadedRecipes, tagger, translator))
      ensures G == BuiltAfter(old(G), old(edgeWeights), TranslatedCorpus(loadedRecipes, tagger, translator))
      ensures graphCache == old(graphCache)[graphKey := GraphPair(G, edgeWeights)]
      ensures loadedRecipes == old(loadedRecipes) && ntEdges == old(ntEdges)
      ensures numberOfRecipes == old(numberOfRecipes) && recipeCache == old(recipeCache)
    {
      ghost var ts := TranslatedCorpus(loadedRecipes, tagger, translator);
      BuildKeepsConsistent(G, edgeWeights, ts);
      CorpusKeysOnNodes(G, edgeWeights, ts);
      var counted;
      G, counted := ProcessTranslatedRecipes(G, edgeWeights, loadedRecipes, tagger, translator);
      edgeWeights := counted;
      G := Materialise(G, edgeWeights);
      graphCache := graphCache[graphKey := GraphPair(G, edgeWeights)];
    }

    /**
     * `convert_to_pyvis`: `self.nt`, made once by `__init__`, gains a dict
     * for each graph edge it does not draw yet, and every dict it holds,
     * earlier ones included, is valued with `self.edge_weights.get(edge_key, 0)`.
     * `from_nx` moves every edge's 'weight' of `self.G` into its 'width'.
     */
    method ConvertToPyvis()
      requires Valid()
      modifies this
      ensures Valid()
      ensures |ntEdges| == |old(ntEdges)| + |G.edges - EdgeKeys(old(ntEdges))|
      ensures EdgeKeys(ntEdges) == EdgeKeys(old(ntEdges)) + G.edges
      ensures old(ntEdges) == [] ==> |ntEdges| == |G.edges| && EdgeKeys(ntEdges) == G.edges
      ensures forall i :: 0 <= i < |old(ntEdges)| ==> ntEdges[i].src == old(ntEdges)[i].src && ntEdges[i].dst == old(ntEdges)[i].dst
      ensures forall i :: 0 <= i < |ntEdges| ==> ntEdges[i].value == Some(Get(edgeWeights, KeyOf(ntEdges[i])))
      ensures G == WeightsMoved(old(G))
      ensures edgeWeights == old(edgeWeights) && loadedRecipes == old(loadedRecipes)
      ensures numberOfRecipes == old(numberOfRecipes) && graphCache == old(graphCache) && recipeCache == old(recipeCache)
    {
      var es, moved := ConvertOrZero(ntEdges, G, edgeWeights);
      ConsistentSameShape(G, moved, edgeWeights);
      ntEdges, G := es, moved;
    }
  }

  /**
   * Two `build_graph` calls on one fresh object. The first probes the
   * graph cache under 0, loads the 10000 recipes and saves under 0. The
   * second probes under 10000; on a miss it keeps the loaded recipes and
   * counts them again on top of the first counters, so every count doubles.
   */
  method BuildTwice(graphFiles: map<int, Snapshot>, recipeFiles: map<int, seq<Recipe>>, source: seq<Recipe>,
                    tagger: string -> string, translator: string -> Translation)
    returns (c: CreateGraph, first: Outcome, second: Outcome)
    requires CacheOk(graphFiles) && 0 !in graphFiles && RecipeCount !in graphFiles
    ensures first == (if RecipeLoad(recipeFiles, RecipeCount, source).Ok? then Success else Failure(SourceExhausted))
    ensures first == Success && c.loadedRecipes != [] ==>
      && second == Success
      && c.edgeWeights == CountedAfter(CountedAfter(map[], TranslatedCorpus(c.loadedRecipes, tagger, translator)),
                                       TranslatedCorpus(c.loadedRecipes, tagger, translator))
      && forall k :: Get(c.edgeWeights, k) == 2 * Get(CountedAfter(map[], TranslatedCorpus(c.loadedRecipes, tagger, translator)), k)
  {
    c := new CreateGraph(graphFiles, recipeFiles);
    first := c.BuildGraph(source, tagger, translator);
    second := c.BuildGraph(source, tagger, translator);
    if first == Success && c.loadedRecipes != [] {
      var ts := TranslatedCorpus(c.loadedRecipes, tagger, translator);
      forall k
        ensures Get(c.edgeWeights, k) == 2 * Get(CountedAfter(map[], ts), k)
      {
        RebuildDoublesCounts(ts, k);
      }
    }
  }
}
