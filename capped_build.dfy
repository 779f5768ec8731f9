/**
 * test.py: builds the graph directly, without a counter dictionary. It
 * stops after 20 recipes; a node is added only when absent; for each index
 * pair an existing edge has its weight raised by one and a missing edge is
 * added with weight 1.
 */
module CappedBuild {
  import opened Graphs
  import opened Pairs
  import opened CoOccurrence

  /** The script stops reading recipes once its index reaches 20. */
  const RecipeLimit: nat := 20

  /** A graph whose edges are exactly the keys of its weight attributes. */
  function WeightedGraph(nodes: seq<Name>, w: Weights): (g: Graph)
    ensures g.edges == g.weight.Keys
  {
    Graph(nodes, w.Keys, w)
  }

  /**
   * One pair of test.py: an existing edge has its weight raised by one, a
   * missing edge is added with weight 1; both bump the counter of the sorted pair.
   */
  method Link(g: Graph, a: Name, b: Name) returns (h: Graph)
    requires Valid(g) && g.edges == g.weight.Keys && a in g.nodes && b in g.nodes
    ensures Valid(h)
    ensures h == WeightedGraph(g.nodes, Bump(g.weight, SortedPair(a, b)))
  {
    if HasEdge(g, a, b) {
      var k := SortedPair(a, b);
      h := g.(weight := g.weight[k := g.weight[k] + 1]);
    } else {
      h := AddEdge(g, a, b, 1);
    }
  }

  /** The inner `for j` loop of test.py: links ingredient i to every later one. */
  method LinkRow(g: Graph, ingredients: Recipe, i: nat) returns (h: Graph)
    requires Valid(g) && g.edges == g.weight.Keys && i < |ingredients|
    requires forall n :: 0 <= n < |ingredients| ==> ingredients[n].name in g.nodes
    ensures Valid(h) && h.nodes == g.nodes
    ensures h == WeightedGraph(g.nodes, Accumulate(g.weight, Row(Names(ingredients), i, |ingredients|)))
  {
    ghost var names := Names(ingredients);
    h := g;
    var j := i + 1;
    while j < |ingredients|
      invariant i + 1 <= j <= |ingredients|
      invariant Valid(h)
      invariant h == WeightedGraph(g.nodes, Accumulate(g.weight, Row(names, i, j)))
    {
      var a, b := ingredients[i].name, ingredients[j].name;
      assert a == names[i] && b == names[j];
      RowStep(g.weight, names, i, j);
      h := Link(h, a, b);
      j := j + 1;
    }
    assert j == |names|;
  }

  /** The nested loop of test.py for one recipe, updating the graph in place. */
  method LinkIngredients(g: Graph, ingredients: Recipe) returns (h: Graph)
    requires Valid(g) && g.edges == g.weight.Keys
    requires forall n :: 0 <= n < |ingredients| ==> ingredients[n].name in g.nodes
    ensures Valid(h)
    ensures h == WeightedGraph(g.nodes, Accumulate(g.weight, Combinations(Names(ingredients))))
  {
    ghost var names := Names(ingredients);
    ghost var last := if |names| == 0 then 0 else |names| - 1;
    h := g;
    var i := 0;
    while i < |ingredients| - 1
      invariant 0 <= i <= last
      invariant Valid(h) && h.nodes == g.nodes && h.edges == h.weight.Keys
      invariant h.weight == Accumulate(g.weight, Rows(names, i))
    {
      RowsStep(g.weight, names, i);
      h := LinkRow(h, ingredients, i);
      i := i + 1;
    }
    CombinationsWithoutLastRow(g.weight, names, i);
  }

  /** Which nodes `AddNames` leaves depends on the node list alone. */
  lemma {:induction false} AddNamesNodesOnly(g: Graph, h: Graph, ns: seq<Name>)
    requires Valid(g) && Valid(h) && g.nodes == h.nodes
    ensures AddNames(g, ns).nodes == AddNames(h, ns).nodes
  {
    if ns != [] {
      AddNamesNodesOnly(g, h, ns[..|ns| - 1]);
    }
  }

  /** The node loop of test.py: each ingredient not yet a node is added as one. */
  method AddMissingNodes(g: Graph, ingredients: Recipe) returns (h: Graph)
    requires Valid(g)
    ensures h == AddNames(g, Names(ingredients))
  {
    var names := Names(ingredients);
    h := g;
    var n := 0;
    while n < |ingredients|
      invariant 0 <= n <= |ingredients|
      invariant h == AddNames(g, names[..n])
    {
      AddNamesSnoc(g, names, n);
      if ingredients[n].name !in h.nodes {
        h := AddNode(h, ingredients[n].name);
      }
      n := n + 1;
    }
    assert names[..n] == names;
  }

  /**
   * The script's recipe loop. It processes min(20, |recipes|) recipes, and
   * the graph it leaves is the one create_graph.py builds from those
   * recipes: same nodes, same edges, same weight per unordered pair.
   */
  method BuildFirstRecipes(recipes: seq<Recipe>) returns (g: Graph, index: nat)
    ensures index == if |recipes| < RecipeLimit then |recipes| else RecipeLimit
    ensures g == Build(recipes[..index]).0
    ensures g.edges == g.weight.Keys && forall k :: k in g.weight ==> g.weight[k] >= 1
  {
    g := EmptyGraph();
    index := 0;
    ghost var done: seq<Recipe> := [];
    var n := 0;
    while n < |recipes|
      invariant 0 <= n <= |recipes| && index == n <= RecipeLimit
      invariant done == recipes[..n]
      invariant g == Build(done).0
    {
      if index >= RecipeLimit {
        break;
      }
      g := AddRecipe(done, recipes[n], g);
      done := done + [recipes[n]];
      index := index + 1;
      n := n + 1;
    }
    AccumulatePositive(map[], CorpusPairs(done));
  }

  /** One pass of the recipe loop: its missing nodes, then its edges. */
  method AddRecipe(ghost done: seq<Recipe>, ingredients: Recipe, g: Graph) returns (h: Graph)
    requires g == Build(done).0
    ensures h == Build(done + [ingredients]).0
  {
    BuildValid(done);
    h := AddMissingNodes(g, ingredients);
    RecipeStep(done, ingredients, h);
    h := LinkIngredients(h, ingredients);
  }

  /** After the nodes of one more recipe are added, linking its ingredients gives the build over the longer corpus. */
  lemma RecipeStep(done: seq<Recipe>, ingredients: Recipe, g: Graph)
    requires Valid(Build(done).0)
    requires g == AddNames(Build(done).0, Names(ingredients))
    ensures Valid(g) && g.edges == g.weight.Keys
    ensures forall m :: 0 <= m < |ingredients| ==> ingredients[m].name in g.nodes
    ensures WeightedGraph(g.nodes, Accumulate(g.weight, Combinations(Names(ingredients)))) == Build(done + [ingredients]).0
  {
    var rs := done + [ingredients];
    assert rs[..|done|] == done && rs[..|done| + 1] == rs;
    CorpusStep(EmptyGraph(), map[], rs, |done|);
    AddNamesNodesOnly(Build(done).0, CorpusNodes(EmptyGraph(), done), Names(ingredients));
    forall m | 0 <= m < |ingredients| ensures ingredients[m].name in g.nodes {
      assert ingredients[m].name == Names(ingredients)[m];
    }
  }
}
