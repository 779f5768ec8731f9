/**
 * The co-occurrence counting that all four graph builders share. For each
 * recipe, every ingredient name becomes a node; then, for every index pair
 * i < j of the recipe's ingredient list, the counter of the sorted pair of
 * the two names goes up by one (a missing counter starts at 0). Once all
 * recipes are counted, every counter key becomes an edge whose 'weight' is
 * the count.
 *
 * The specification is a fold: `Accumulate(w, ps)` bumps the counter of
 * the sorted key of each pair of `ps` in turn.
 */
module CoOccurrence {
  import opened Graphs
  import opened Pairs

  /** One `(ingredient, quantity)` tuple of `recipe.get_ingredients()`. */
  datatype Ingredient = Ingredient(name: Name, quantity: string)

  type Recipe = seq<Ingredient>

  /** The ingredient names of a recipe, dropping the quantities. */
  function Names(r: Recipe): (ns: seq<Name>)
    ensures |ns| == |r| && forall i :: 0 <= i < |r| ==> ns[i] == r[i].name
  {
    seq(|r|, i requires 0 <= i < |r| => r[i].name)
  }

  /** The `edge_weights` dictionary. */
  type Weights = map<Key, nat>

  /** `edge_weights.get(key, 0)`. */
  function Get(w: Weights, k: Key): nat
  {
    if k in w then w[k] else 0
  }

  /** All keys are sorted pairs. */
  ghost predicate CanonicalKeys(w: Weights)
  {
    forall k :: k in w ==> Canonical(k)
  }

  /** The counters after one increment per pair of `ps`, in order. */
  function Accumulate(w: Weights, ps: seq<(Name, Name)>): Weights
  {
    if ps == [] then w
    else
      var k := SortedPair(ps[|ps| - 1].0, ps[|ps| - 1].1);
      var before := Accumulate(w, ps[..|ps| - 1]);
      before[k := Get(before, k) + 1]
  }

  /** The number of pairs of `ps` whose sorted names are `k`. */
  function Occurrences(ps: seq<(Name, Name)>, k: Key): nat
  {
    if ps == [] then 0
    else Occurrences(ps[..|ps| - 1], k) + (if SortedPair(ps[|ps| - 1].0, ps[|ps| - 1].1) == k then 1 else 0)
  }

  /** The keys touched by `ps`. */
  function KeysOf(ps: seq<(Name, Name)>): set<Key>
  {
    set p | p in ps :: SortedPair(p.0, p.1)
  }

  lemma {:induction false} OccurrencesAppend(a: seq<(Name, Name)>, b: seq<(Name, Name)>, k: Key)
    ensures Occurrences(a + b, k) == Occurrences(a, k) + Occurrences(b, k)
    decreases |b|
  {
    if b != [] {
      assert (a + b)[..|a + b| - 1] == a + b[..|b| - 1];
      OccurrencesAppend(a, b[..|b| - 1], k);
    } else {
      assert a + b == a;
    }
  }

  /** Each counter ends at its start value plus the number of pairs that hit it. */
  lemma {:induction false} AccumulateCount(w: Weights, ps: seq<(Name, Name)>, k: Key)
    ensures Get(Accumulate(w, ps), k) == Get(w, k) + Occurrences(ps, k)
    decreases |ps|
  {
    if ps != [] {
      AccumulateCount(w, ps[..|ps| - 1], k);
    }
  }

  /** The counter keys are the old keys plus the sorted keys of the pairs. */
  lemma {:induction false} AccumulateKeys(w: Weights, ps: seq<(Name, Name)>)
    ensures Accumulate(w, ps).Keys == w.Keys + KeysOf(ps)
    decreases |ps|
  {
    if ps != [] {
      var init := ps[..|ps| - 1];
      AccumulateKeys(w, init);
      assert ps == init + [ps[|ps| - 1]];
      assert KeysOf(ps) == KeysOf(init) + {SortedPair(ps[|ps| - 1].0, ps[|ps| - 1].1)};
    }
  }

  lemma {:induction false} AccumulateAppend(w: Weights, a: seq<(Name, Name)>, b: seq<(Name, Name)>)
    ensures Accumulate(w, a + b) == Accumulate(Accumulate(w, a), b)
    decreases |b|
  {
    if b == [] {
      assert a + b == a;
    } else {
      var front, p := b[..|b| - 1], b[|b| - 1];
      assert b == front + [p] && a + b == (a + front) + [p];
      AccumulateAppend(w, a, front);
      AccumulateSnoc(w, a + front, p);
      AccumulateSnoc(Accumulate(w, a), front, p);
    }
  }

  /** Counters never decrease as more pairs are counted. */
  lemma AccumulateMonotone(w: Weights, a: seq<(Name, Name)>, b: seq<(Name, Name)>, k: Key)
    ensures Get(Accumulate(w, a), k) <= Get(Accumulate(w, a + b), k)
  {
    AccumulateAppend(w, a, b);
    AccumulateCount(Accumulate(w, a), b, k);
  }

  /** Counters that start at >= 1 (or are new) are >= 1, and keys stay sorted pairs. */
  lemma {:induction false} AccumulatePositive(w: Weights, ps: seq<(Name, Name)>)
    requires forall k :: k in w ==> w[k] >= 1
    requires CanonicalKeys(w)
    ensures forall k :: k in Accumulate(w, ps) ==> Accumulate(w, ps)[k] >= 1
    ensures CanonicalKeys(Accumulate(w, ps))
    decreases |ps|
  {
    if ps != [] {
      AccumulatePositive(w, ps[..|ps| - 1]);
    }
  }

  /** The order of the two names of a pair does not change which counter it bumps. */
  lemma AccumulateOrderFree(w: Weights, ps: seq<(Name, Name)>, a: Name, b: Name)
    ensures Accumulate(w, ps + [(a, b)]) == Accumulate(w, ps + [(b, a)])
  {
    SortedPairSymmetric(a, b);
    assert (ps + [(a, b)])[..|ps|] == ps;
    assert (ps + [(b, a)])[..|ps|] == ps;
  }

  /** A name listed twice in one recipe bumps the self-loop key (a, a). */
  lemma RepeatedNameSelfLoop(names: seq<Name>, i: nat, j: nat)
    requires i < j < |names| && names[i] == names[j]
    ensures Key(names[i], names[i]) in KeysOf(Combinations(names))
  {
    CombinationsMember(names, (names[i], names[j]));
    assert SortedPair(names[i], names[j]) == Key(names[i], names[i]);
  }

  /** The pairs of a whole corpus: each recipe's index pairs, recipe by recipe. */
  function CorpusPairs(rs: seq<Recipe>): seq<(Name, Name)>
  {
    if rs == [] then [] else CorpusPairs(rs[..|rs| - 1]) + Combinations(Names(rs[|rs| - 1]))
  }

  lemma CorpusPairsSnoc(rs: seq<Recipe>, r: nat)
    requires r < |rs|
    ensures CorpusPairs(rs[..r + 1]) == CorpusPairs(rs[..r]) + Combinations(Names(rs[r]))
  {
    assert rs[..r + 1][..r] == rs[..r];
  }

  /** Per recipe, the number of index pairs i < j whose sorted names are `k`. */
  function CorpusCount(rs: seq<Recipe>, k: Key): nat
  {
    if rs == [] then 0 else CorpusCount(rs[..|rs| - 1], k) + Occurrences(Combinations(Names(rs[|rs| - 1])), k)
  }

  /**
   * The final weight of a key is the number of index pairs, over all
   * recipes, whose sorted names are that key.
   */
  lemma {:induction false} CorpusWeight(rs: seq<Recipe>, k: Key)
    ensures Get(Accumulate(map[], CorpusPairs(rs)), k) == CorpusCount(rs, k)
    ensures Occurrences(CorpusPairs(rs), k) == CorpusCount(rs, k)
    decreases |rs|
  {
    AccumulateCount(map[], CorpusPairs(rs), k);
    if rs != [] {
      CorpusWeight(rs[..|rs| - 1], k);
      OccurrencesAppend(CorpusPairs(rs[..|rs| - 1]), Combinations(Names(rs[|rs| - 1])), k);
    }
  }

  /** The graph after `G.add_node` for each name of `names`, in order. */
  function AddNames(g: Graph, names: seq<Name>): (r: Graph)
    requires Valid(g)
    ensures Valid(r)
    ensures forall x :: x in r.nodes <==> x in g.nodes || x in names
    ensures r.edges == g.edges && r.weight == g.weight
  {
    if names == [] then g else AddNode(AddNames(g, names[..|names| - 1]), names[|names| - 1])
  }

  function CorpusNodes(g: Graph, rs: seq<Recipe>): (r: Graph)
    requires Valid(g)
    ensures Valid(r)
    ensures r.edges == g.edges && r.weight == g.weight
  {
    if rs == [] then g else AddNames(CorpusNodes(g, rs[..|rs| - 1]), Names(rs[|rs| - 1]))
  }

  /** The nodes after the corpus loop: the old ones and every ingredient name of every recipe. */
  lemma {:induction false} CorpusNodesMember(g: Graph, rs: seq<Recipe>, x: Name)
    requires Valid(g)
    ensures x in CorpusNodes(g, rs).nodes <==> x in g.nodes || exists i, j :: 0 <= i < |rs| && 0 <= j < |rs[i]| && x == rs[i][j].name
    decreases |rs|
  {
    if rs != [] {
      var last := |rs| - 1;
      var before := rs[..last];
      CorpusNodesMember(g, before, x);
      if x in CorpusNodes(g, rs).nodes && x !in g.nodes {
        if x !in CorpusNodes(g, before).nodes {
          var j :| 0 <= j < |rs[last]| && x == Names(rs[last])[j];
          assert x == rs[last][j].name;
        } else {
          var i, j :| 0 <= i < last && 0 <= j < |before[i]| && x == before[i][j].name;
          assert x == rs[i][j].name;
        }
      }
      if exists i, j :: 0 <= i < |rs| && 0 <= j < |rs[i]| && x == rs[i][j].name {
        var i, j :| 0 <= i < |rs| && 0 <= j < |rs[i]| && x == rs[i][j].name;
        if i == last {
          assert x == Names(rs[last])[j];
        } else {
          assert x == before[i][j].name;
        }
      }
    }
  }

  lemma CorpusNodesSnoc(g: Graph, rs: seq<Recipe>, r: nat)
    requires Valid(g) && r < |rs|
    ensures CorpusNodes(g, rs[..r + 1]) == AddNames(CorpusNodes(g, rs[..r]), Names(rs[r]))
  {
    assert rs[..r + 1][..r] == rs[..r];
  }

  /** `G.add_edge(a, b, weight=w)`: adds missing endpoints, then sets the edge and its weight. */
  function AddEdge(g: Graph, a: Name, b: Name, w: nat): (r: Graph)
    requires Valid(g)
    ensures Valid(r)
    ensures forall x :: x in r.nodes <==> x in g.nodes || x == a || x == b
    ensures r.edges == g.edges + {SortedPair(a, b)}
    ensures r.weight == g.weight[SortedPair(a, b) := w]
    ensures a in g.nodes && b in g.nodes ==> r.nodes == g.nodes
  {
    var h := AddNode(AddNode(g, a), b);
    h.(edges := h.edges + {SortedPair(a, b)}, weight := h.weight[SortedPair(a, b) := w])
  }

  /** Every name a key mentions is a node. */
  ghost predicate KeysOnNodes(w: Weights, g: Graph)
  {
    forall k :: k in w ==> k.lo in g.nodes && k.hi in g.nodes
  }

  /** The graph after the materialisation loop: every key an edge carrying its count. */
  function WithEdges(g: Graph, w: Weights): (r: Graph)
    requires Valid(g) && CanonicalKeys(w) && KeysOnNodes(w, g)
    ensures Valid(r)
    ensures r.nodes == g.nodes
    ensures r.edges == g.edges + w.Keys
    ensures forall k :: k in w ==> k in r.weight && r.weight[k] == w[k]
    ensures forall k :: k in r.weight && k !in w ==> k in g.weight && r.weight[k] == g.weight[k]
  {
    Graph(g.nodes, g.edges + w.Keys, g.weight + w)
  }

  /** Adding one more name is one more `add_node`. */
  lemma AddNamesSnoc(g: Graph, names: seq<Name>, n: nat)
    requires Valid(g) && n < |names|
    ensures AddNames(g, names[..n + 1]) == AddNode(AddNames(g, names[..n]), names[n])
  {
    assert names[..n + 1][..n] == names[..n];
  }

  /** The `G.add_node` loop over one recipe's ingredients. */
  method AddIngredientNodes(g: Graph, ingredients: Recipe) returns (h: Graph)
    requires Valid(g)
    ensures h == AddNames(g, Names(ingredients))
  {
    var names := Names(ingredients);
    h := g;
    var n := 0;
    while n < |ingredients|
      invariant 0 <= n <= |ingredients|
      invariant h == AddNames(g, names[..n])
    {
      AddNamesSnoc(g, names, n);
      h := AddNode(h, ingredients[n].name);
      n := n + 1;
    }
    assert names[..n] == names;
  }

  /** One more pair bumps the counter of its sorted key. */
  lemma AccumulateSnoc(w: Weights, ps: seq<(Name, Name)>, p: (Name, Name))
    ensures Accumulate(w, ps + [p]) == Bump(Accumulate(w, ps), SortedPair(p.0, p.1))
  {
    assert (ps + [p])[..|ps|] == ps;
  }

  /** One more co-occurrence for `k`: a missing counter starts from 0. */
  function Bump(w: Weights, k: Key): (r: Weights)
    ensures r.Keys == w.Keys + {k}
    ensures Get(r, k) == Get(w, k) + 1
    ensures forall k' :: k' != k ==> Get(r, k') == Get(w, k')
  {
    w[k := Get(w, k) + 1]
  }

  /** The last row holds no pairs, so the loops may stop before it. */
  lemma CombinationsWithoutLastRow(w: Weights, names: seq<Name>, i: nat)
    requires i == if |names| == 0 then 0 else |names| - 1
    ensures Accumulate(w, Rows(names, i)) == Accumulate(w, Combinations(names))
  {
    assert Combinations(names) == Rows(names, |names|);
    if |names| >= 1 {
      assert Row(names, i, |names|) == [];
      assert Rows(names, |names|) == Rows(names, i) + [];
      assert Rows(names, |names|) == Rows(names, i);
    }
  }

  /** Extending a row by the pair (i, j) bumps the counter of its sorted names. */
  lemma RowStep(w: Weights, names: seq<Name>, i: nat, j: nat)
    requires i < j < |names|
    ensures Accumulate(w, Row(names, i, j + 1)) == Bump(Accumulate(w, Row(names, i, j)), SortedPair(names[i], names[j]))
  {
    AccumulateSnoc(w, Row(names, i, j), (names[i], names[j]));
  }

  /** Counting row i after rows 0 .. i-1 counts rows 0 .. i. */
  lemma RowsStep(w: Weights, names: seq<Name>, i: nat)
    requires i < |names|
    ensures Accumulate(Accumulate(w, Rows(names, i)), Row(names, i, |names|)) == Accumulate(w, Rows(names, i + 1))
  {
    AccumulateAppend(w, Rows(names, i), Row(names, i, |names|));
  }

  /** The inner `for j` loop: one increment for each pair (i, j) with i < j. */
  method CountRow(w: Weights, ingredients: Recipe, i: nat) returns (w': Weights)
    requires i < |ingredients|
    ensures w' == Accumulate(w, Row(Names(ingredients), i, |ingredients|))
  {
    ghost var names := Names(ingredients);
    w' := w;
    var j := i + 1;
    while j < |ingredients|
      invariant i + 1 <= j <= |ingredients|
      invariant w' == Accumulate(w, Row(names, i, j))
    {
      RowStep(w, names, i, j);
      var key := SortedPair(ingredients[i].name, ingredients[j].name);
      w' := Bump(w', key);
      j := j + 1;
    }
  }

  /** The nested `for i` / `for j` loop over one recipe: one increment per index pair i < j. */
  method CountPairs(w: Weights, ingredients: Recipe) returns (w': Weights)
    ensures w' == Accumulate(w, Combinations(Names(ingredients)))
  {
    ghost var names := Names(ingredients);
    ghost var last := if |names| == 0 then 0 else |names| - 1;
    w' := w;
    var i := 0;
    while i < |ingredients| - 1
      invariant 0 <= i <= last
      invariant w' == Accumulate(w, Rows(names, i))
    {
      RowsStep(w, names, i);
      w' := CountRow(w', ingredients, i);
      i := i + 1;
    }
    CombinationsWithoutLastRow(w, names, i);
  }

  /** The counters of the keys in `done`. */
  function Restrict(w: Weights, done: set<Key>): (m: Weights)
    ensures m.Keys == w.Keys * done
  {
    map k | k in w && k in done :: w[k]
  }

  /** The graph once the keys in `done` have been turned into edges. */
  function PartlyMaterialised(g: Graph, w: Weights, done: set<Key>): Graph
  {
    Graph(g.nodes, g.edges + done, g.weight + Restrict(w, done))
  }

  lemma PartlyMaterialisedValid(g: Graph, w: Weights, done: set<Key>)
    requires Valid(g) && CanonicalKeys(w) && KeysOnNodes(w, g) && done <= w.Keys
    ensures Valid(PartlyMaterialised(g, w, done))
  {
  }

  /** Setting one more counter on top of a merge is merging one more key. */
  lemma RestrictStep(base: Weights, w: Weights, done: set<Key>, k: Key)
    requires k in w
    ensures (base + Restrict(w, done))[k := w[k]] == base + Restrict(w, done + {k})
  {
    var l := (base + Restrict(w, done))[k := w[k]];
    var r := base + Restrict(w, done + {k});
    assert l.Keys == r.Keys;
    forall x | x in l ensures l[x] == r[x] {
      if x != k && x in Restrict(w, done) {
        assert l[x] == w[x];
      }
    }
  }

  lemma MaterialiseStep(g: Graph, w: Weights, rest: set<Key>, k: Key)
    requires Valid(g) && CanonicalKeys(w) && KeysOnNodes(w, g)
    requires rest <= w.Keys && k in rest
    ensures Valid(PartlyMaterialised(g, w, w.Keys - rest))
    ensures AddEdge(PartlyMaterialised(g, w, w.Keys - rest), k.lo, k.hi, w[k])
            == PartlyMaterialised(g, w, w.Keys - (rest - {k}))
  {
    var done := w.Keys - rest;
    PartlyMaterialisedValid(g, w, done);
    SortedPairOfCanonical(k);
    var h := PartlyMaterialised(g, w, done);
    var r := AddEdge(h, k.lo, k.hi, w[k]);
    assert r.nodes == h.nodes;
    assert w.Keys - (rest - {k}) == done + {k};
    assert r.weight == g.weight + Restrict(w, done + {k}) by {
      RestrictStep(g.weight, w, done, k);
    }
  }

  lemma MaterialiseDone(g: Graph, w: Weights)
    requires Valid(g) && CanonicalKeys(w) && KeysOnNodes(w, g)
    ensures PartlyMaterialised(g, w, w.Keys) == WithEdges(g, w)
  {
    assert Restrict(w, w.Keys) == w;
  }

  /** The edge loop after the recipes: every counted pair becomes an edge carrying its count as weight. */
  method Materialise(g: Graph, w: Weights) returns (h: Graph)
    requires Valid(g) && CanonicalKeys(w) && KeysOnNodes(w, g)
    ensures h == WithEdges(g, w)
  {
    h := g;
    var rest := w.Keys;
    while rest != {}
      invariant rest <= w.Keys
      invariant h == PartlyMaterialised(g, w, w.Keys - rest)
      decreases rest
    {
      var k :| k in rest;
      MaterialiseStep(g, w, rest, k);
      h := AddEdge(h, k.lo, k.hi, w[k]);
      rest := rest - {k};
    }
    assert w.Keys - rest == w.Keys;
    MaterialiseDone(g, w);
  }

  /** Counting a corpus keeps keys sorted and on nodes, when nodes are added as the builders do. */
  lemma CorpusKeysOnNodes(g: Graph, w: Weights, rs: seq<Recipe>)
    requires Valid(g) && CanonicalKeys(w) && KeysOnNodes(w, g)
    ensures CanonicalKeys(Accumulate(w, CorpusPairs(rs)))
    ensures KeysOnNodes(Accumulate(w, CorpusPairs(rs)), CorpusNodes(g, rs))
  {
    var w' := Accumulate(w, CorpusPairs(rs));
    var g' := CorpusNodes(g, rs);
    AccumulateKeys(w, CorpusPairs(rs));
    forall k | k in w' ensures Canonical(k) && k.lo in g'.nodes && k.hi in g'.nodes {
      if k !in w {
        var p :| p in CorpusPairs(rs) && k == SortedPair(p.0, p.1);
        var r, i, j := PairSource(rs, p);
        CorpusNodesMember(g, rs, p.0);
        CorpusNodesMember(g, rs, p.1);
        assert 0 <= r < |rs| && 0 <= i < |rs[r]| && p.0 == rs[r][i].name;
        assert 0 <= r < |rs| && 0 <= j < |rs[r]| && p.1 == rs[r][j].name;
      } else {
        CorpusNodesMember(g, rs, k.lo);
        CorpusNodesMember(g, rs, k.hi);
      }
    }
  }

  /** One step of the recipe loop: the recipe's nodes, then its pairs. */
  lemma CorpusStep(g: Graph, w: Weights, rs: seq<Recipe>, n: nat)
    requires Valid(g) && n < |rs|
    ensures AddNames(CorpusNodes(g, rs[..n]), Names(rs[n])) == CorpusNodes(g, rs[..n + 1])
    ensures Accumulate(Accumulate(w, CorpusPairs(rs[..n])), Combinations(Names(rs[n])))
            == Accumulate(w, CorpusPairs(rs[..n + 1]))
  {
    CorpusNodesSnoc(g, rs, n);
    CorpusPairsSnoc(rs, n);
    AccumulateAppend(w, CorpusPairs(rs[..n]), Combinations(Names(rs[n])));
  }

  /**
   * The recipe loop: the node loop and then the pair loop, on
   * each recipe in turn (create_graph.py, create_graph2.py, test.py).
   */
  method ProcessRecipes(g: Graph, w: Weights, rs: seq<Recipe>) returns (g': Graph, w': Weights)
    requires Valid(g)
    ensures g' == CorpusNodes(g, rs)
    ensures w' == Accumulate(w, CorpusPairs(rs))
  {
    g', w' := g, w;
    var n := 0;
    while n < |rs|
      invariant 0 <= n <= |rs|
      invariant g' == CorpusNodes(g, rs[..n])
      invariant w' == Accumulate(w, CorpusPairs(rs[..n]))
    {
      CorpusStep(g, w, rs, n);
      g' := AddIngredientNodes(g', rs[n]);
      w' := CountPairs(w', rs[n]);
      n := n + 1;
    }
    assert rs[..n] == rs;
  }

  /** A fresh build: start from an empty graph and an empty dictionary, count, then add the edges. */
  method BuildFromRecipes(rs: seq<Recipe>) returns (g: Graph, w: Weights)
    ensures (g, w) == Build(rs)
  {
    var nodesOnly;
    nodesOnly, w := ProcessRecipes(EmptyGraph(), map[], rs);
    CorpusKeysOnNodes(EmptyGraph(), map[], rs);
    g := Materialise(nodesOnly, w);
    assert g.edges == w.Keys by {
      assert nodesOnly.edges == {};
    }
    assert g.weight == w by {
      assert nodesOnly.weight == map[];
    }
  }

  /** The graph a fresh build over `rs` produces: nodes from every recipe, one edge per counter. */
  function Build(rs: seq<Recipe>): (Graph, Weights)
  {
    var w := Accumulate(map[], CorpusPairs(rs));
    (Graph(CorpusNodes(EmptyGraph(), rs).nodes, w.Keys, w), w)
  }

  /** A fresh build is a well-formed graph: distinct nodes, sorted keys, endpoints among the nodes. */
  lemma BuildValid(rs: seq<Recipe>)
    ensures Valid(Build(rs).0)
  {
    CorpusKeysOnNodes(EmptyGraph(), map[], rs);
  }

  /**
   * What a fresh build promises: every ingredient name is a node (also for
   * recipes with 0 or 1 ingredients), the edges are exactly the counter keys,
   * a key is an edge exactly when some recipe has an index pair i < j with
   * those sorted names, and each edge's weight is that number of index pairs (>= 1).
   */
  lemma BuildProperties(rs: seq<Recipe>)
    ensures forall x :: x in Build(rs).0.nodes <==> exists i, j :: 0 <= i < |rs| && 0 <= j < |rs[i]| && x == rs[i][j].name
    ensures Build(rs).0.edges == Build(rs).1.Keys
    ensures forall k :: k in Build(rs).0.edges <==> exists p :: p in CorpusPairs(rs) && k == SortedPair(p.0, p.1)
    ensures forall k :: k in Build(rs).0.edges ==> Build(rs).0.weight[k] == CorpusCount(rs, k) >= 1
  {
    var (g, w) := Build(rs);
    forall x ensures x in g.nodes <==> exists i, j :: 0 <= i < |rs| && 0 <= j < |rs[i]| && x == rs[i][j].name {
      CorpusNodesMember(EmptyGraph(), rs, x);
    }
    AccumulateKeys(map[], CorpusPairs(rs));
    AccumulatePositive(map[], CorpusPairs(rs));
    forall k | k in g.edges ensures g.weight[k] == CorpusCount(rs, k) >= 1 {
      CorpusWeight(rs, k);
    }
  }

  /** A key is an edge of the build exactly when some recipe pairs its two names at indices i < j. */
  lemma BuildEdgeWitness(rs: seq<Recipe>, a: Name, b: Name)
    ensures SortedPair(a, b) in Build(rs).0.edges <==>
      exists r, i, j :: 0 <= r < |rs| && 0 <= i < j < |rs[r]| && SortedPair(rs[r][i].name, rs[r][j].name) == SortedPair(a, b)
    decreases |rs|
  {
    BuildProperties(rs);
    var k := SortedPair(a, b);
    if k in Build(rs).0.edges {
      var p :| p in CorpusPairs(rs) && k == SortedPair(p.0, p.1);
      var r, i, j := PairSource(rs, p);
      assert SortedPair(rs[r][i].name, rs[r][j].name) == k;
    }
    if exists r, i, j :: 0 <= r < |rs| && 0 <= i < j < |rs[r]| && SortedPair(rs[r][i].name, rs[r][j].name) == k {
      var r, i, j :| 0 <= r < |rs| && 0 <= i < j < |rs[r]| && SortedPair(rs[r][i].name, rs[r][j].name) == k;
      PairInCorpus(rs, r, i, j);
    }
  }

  /** Where a corpus pair comes from: a recipe and an index pair i < j of it. */
  lemma {:induction false} PairSource(rs: seq<Recipe>, p: (Name, Name)) returns (r: nat, i: nat, j: nat)
    requires p in CorpusPairs(rs)
    ensures r < |rs| && i < j < |rs[r]| && p == (rs[r][i].name, rs[r][j].name)
    decreases |rs|
  {
    var last := |rs| - 1;
    if p in CorpusPairs(rs[..last]) {
      r, i, j := PairSource(rs[..last], p);
    } else {
      CombinationsMember(Names(rs[last]), p);
      var a, b :| 0 <= a < b < |rs[last]| && p == (Names(rs[last])[a], Names(rs[last])[b]);
      r, i, j := last, a, b;
    }
  }

  /** Every index pair i < j of every recipe is among the corpus pairs. */
  lemma {:induction false} PairInCorpus(rs: seq<Recipe>, r: nat, i: nat, j: nat)
    requires r < |rs| && i < j < |rs[r]|
    ensures (rs[r][i].name, rs[r][j].name) in CorpusPairs(rs)
    decreases |rs|
  {
    var last := |rs| - 1;
    if r < last {
      PairInCorpus(rs[..last], r, i, j);
    } else {
      CombinationsMember(Names(rs[last]), (rs[r][i].name, rs[r][j].name));
      assert (rs[r][i].name, rs[r][j].name) == (Names(rs[last])[i], Names(rs[last])[j]);
    }
  }
}
