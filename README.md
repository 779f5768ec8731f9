# Ingredient co-occurrence graph: a Dafny model

The repository builds an undirected graph from a recipe corpus. Its nodes are
ingredient names. An edge joins two names that appear together in a recipe,
and it carries a `weight`: how many index pairs, over all recipes, name that
unordered pair. That graph answers queries: the common neighbours of two
ingredients, the most connected ingredients, the neighbourhood subgraph of a
few ingredients, and two recommenders. Both recommenders rank candidates by
edge weight, Louvain community and degree centrality.

This project models the following:

- The four graph builders.
  - `create_graph2.py`: a class with a recipe cache and a graph cache, keyed by recipe count.
  - `creategraph.py`: the same class, but it translates every recipe first and always asks for 10000 recipes.
  - `create_graph.py`: a script over a pickled corpus.
  - `test.py`: a script that builds the graph edge by edge and stops after 20 recipes.
- The queries and recommenders of `graphAnalyzer.py`.
- The canonicalisation of ingredient names in `unionization_tmp.py`: bracket stripping, noun extraction from a MeCab tagger's output, translation, lower-casing and removal of zero-width spaces.

## Module layout

- `Graphs` (graphs.dfy): the networkx graph as a value.
  - Nodes keep their insertion order.
  - Edges are keyed by the sorted pair of names, following Python's `sorted` on two `str`.
  - Weight attributes are a map from keys to counts.
  - Neighbours, degree (a self-loop counts twice) and the induced subgraph.
- `PyStr`, `Pairs`, `Ranking`, `Outcomes`: Python's string operations, `itertools.combinations(xs, 2)` and the equivalent nested index loops, the descending sort with a `[:n]` slice, and the exceptions as values.
- `CoOccurrence`: the counting loop and edge materialisation that every builder shares, and the graph `Build(rs)` they all produce.
- `GraphCache`, `CreateGraph2`, `CreateGraphTranslated`: the two `CreateGraph` classes.
  - Their fields are the Python object's fields.
  - The cache directories are two `map` fields, one entry per file name.
- `CreateGraphScript`, `CappedBuild`: the two scripts, as methods.
- `GraphAnalyzer`, `Recommendation`: the analyser's queries, and the two recommenders proved against scoring functions.
- `Unionization`: the canonicalisation, with the MeCab tagger and the translator as function parameters.

## Behaviour worth noting

- **Self-loops.** A recipe that lists the same name twice produces a self-loop (`CoOccurrence.RepeatedNameSelfLoop`).
- **Edge weights.** A weight counts index pairs (`CoOccurrence.CorpusWeight`), so a repeated name counts more than once in one recipe.
- **Empty seed list in `recommend_ingredients`.** It does not raise. It returns an empty list (`Recommendation.RecommendCandidates`).
- **Absent seeds in `recommend_cooccurring_ingredients`.** A seed that is not a node is not ignored. `self.G.neighbors` raises, and that is modelled as `Err(NotANode)`.
- **Empty names.** Only an ingredient whose cleaned name is empty is dropped (`Unionization.TranslatedMember`). A translation that comes back empty still becomes a node. `create_graph2.py` does no canonicalisation at all.
- **Weights after conversion.** `from_nx` moves each edge's 'weight' of the graph into 'width'. After `convert_to_pyvis`, or after line 32 of `create_graph.py`, every edge of G reads weight 1 (`Pyvis.WeightsMoved`, `Pyvis.WeightsMovedReadOne`). The graph `create_graph.py` pickles has no weights (`CreateGraphScript.RunScript`). The counters in `edge_weights` are not affected.

## Model

| member | source | states |
|---|---|---|
| Graphs.SortedPair | create_graph2.py:73 | the key of a pair is its two names in increasing code-point order |
| Graphs.SortedPairSymmetric | create_graph2.py:73 | (a, b) and (b, a) get the same key, so their counts collide |
| Graphs.SortedPairOfCanonical | create_graph2.py:77-78 | unpacking a stored key `(src, dst)` and sorting it again gives the same key back |
| Graphs.SortedPairInjective | create_graph2.py:73 | two pairs share a key only if they hold the same two names |
| Graphs.EmptyGraph | create_graph2.py:12 | `nx.Graph()` has no nodes and no edges |
| Graphs.AddNode | create_graph2.py:68-69 | `add_node` adds the name once; a name already present leaves the graph unchanged |
| Graphs.Neighbors | graphAnalyzer.py:21-22 | the neighbours of v are exactly the nodes joined to v by an edge |
| Graphs.NeighborsSymmetric | graphAnalyzer.py:87-88 | the graph is undirected: u neighbours v exactly when v neighbours u |
| Graphs.EdgeWeight | graphAnalyzer.py:113-114 | `.get('weight', 1)`: a set weight attribute is read back, and an edge without one weighs 1 |
| Graphs.Degree | graphAnalyzer.py:30-31 | the degree is the neighbour count, plus one exactly when v has a self-loop |
| Graphs.Induced | graphAnalyzer.py:90 | `G.subgraph(keep)` keeps the nodes in keep and exactly the edges between them, with their weights |
| PyStr.LexLeTotal | create_graph2.py:73 | any two names are comparable, so `sorted` of two names is defined |
| PyStr.LexLeAntisymmetric | create_graph2.py:73 | two names that each sort before the other are equal |
| PyStr.Strip | unionization_tmp.py:19 | the stripped text neither starts nor ends with whitespace |
| PyStr.StripMiddle | unionization_tmp.py:19 | `strip()` removes only white space at the two ends: the result is a slice of the text, and every character outside that slice is white space |
| PyStr.StripKeeps | unionization_tmp.py:19 | a character that is not white space survives `strip()` |
| PyStr.StripWithout | unionization_tmp.py:19 | stripping adds no character |
| PyStr.Split | unionization_tmp.py:19 | `split(c)` yields at least one part; no part contains c; the first part is the text before the first c, or the whole text when there is no c |
| PyStr.SplitJoin | unionization_tmp.py:34 | `c.join(s.split(c)) == s`: splitting into lines loses no part of the text |
| PyStr.ContainsAt | unionization_tmp.py:35 | `sub in line` holds exactly when sub occurs at some index |
| PyStr.Lower | unionization_tmp.py:25 | `lower()` keeps the length, maps A-Z to a-z and leaves every other character unchanged, in place |
| PyStr.LowerChar | unionization_tmp.py:25 | on one character, `lower()` maps A-Z to a-z and keeps anything else |
| PyStr.LowerKeepsOthers | unionization_tmp.py:25 | `lower()` keeps every character that is not an ASCII letter as many times as it occurs |
| PyStr.RemoveChar | unionization_tmp.py:25 | `replace(c, '')` removes every c, and nothing when there is none |
| PyStr.RemoveCharKeepsOthers | unionization_tmp.py:25 | `replace(c, '')` keeps every other character as many times as it occurs |
| PyStr.RemoveCharAppend | unionization_tmp.py:25 | removal works piece by piece, so the characters kept stay in their order |
| PyStr.RemoveCharSubset | unionization_tmp.py:25 | every character left was in the text and is not c |
| Pairs.CombinationsLength | graphAnalyzer.py:187 | a list of k items yields k(k-1)/2 pairs; one item or none yields no pair |
| Pairs.RowMember | create_graph2.py:72-74 | the inner loop for i visits exactly the pairs (xs[i], xs[m]) for i < m |
| Pairs.CombinationsMember | create_graph2.py:71-74 | the nested loops visit exactly the pairs (xs[a], xs[b]) with a < b |
| Ranking.PrefixLength | graphAnalyzer.py:135 | the length of `xs[:n]`, negative n included, never exceeds the list's length |
| Ranking.SortDesc | graphAnalyzer.py:133-134 | the sort is a permutation of its input, in non-increasing key order |
| Ranking.RankedProperties | graphAnalyzer.py:133-135 | the top n are distinct scored names, as many as the slice keeps, in non-increasing score order |
| Ranking.RankedTop | graphAnalyzer.py:133-135 | no score left out of the top n is higher than one kept |
| Ranking.EmptyDict | graphAnalyzer.py:95 | a fresh score dictionary holds nothing |
| Ranking.AddTo | graphAnalyzer.py:115-118 | adding x to k sets k to its old score, or 0 when absent, plus x; no other score changes |
| Ranking.Discard | graphAnalyzer.py:121-123 | `del` removes k and keeps every other score |
| CoOccurrence.Names | create_graph2.py:68 | the names of a recipe's (name, quantity) pairs, in order |
| CoOccurrence.AccumulateCount | create_graph2.py:74 | after counting a pair list, each key's counter grows by the number of pairs that sort to it |
| CoOccurrence.AccumulateKeys | create_graph2.py:74 | the counter keys afterwards are the old keys plus the keys of the counted pairs |
| CoOccurrence.AccumulateAppend | create_graph2.py:65-74 | counting two pair lists one after the other equals counting their concatenation |
| CoOccurrence.AccumulateMonotone | create_graph2.py:74 | counting more pairs never lowers a counter |
| CoOccurrence.AccumulatePositive | create_graph2.py:74 | counters start at 1 and only grow, so every counted key has weight at least 1; keys stay sorted |
| CoOccurrence.AccumulateOrderFree | create_graph2.py:73 | counting (a, b) or (b, a) gives the same counters |
| CoOccurrence.RepeatedNameSelfLoop | create_graph2.py:71-74 | a name listed twice in one recipe yields the self-loop key (name, name) |
| CoOccurrence.CorpusWeight | create_graph2.py:65-74 | the final counter for a key is the number of index pairs over all recipes whose names sort to it |
| CoOccurrence.AddNames | create_graph2.py:68-69 | the node loop adds exactly the recipe's names and leaves edges and weights unchanged |
| CoOccurrence.CorpusNodes | create_graph2.py:65-69 | the node loop over every recipe keeps the graph well-formed and does not touch its edges |
| CoOccurrence.CorpusNodesMember | create_graph2.py:65-69 | a name is a node afterwards exactly when it was one before or some recipe lists it |
| CoOccurrence.AddEdge | create_graph2.py:77-78 | `add_edge(src, dst, weight=w)` adds the sorted key with weight w, adding missing end points as nodes |
| CoOccurrence.WithEdges | create_graph2.py:77-78 | materialising the counters adds each counted key as an edge with its count, and every other weight stays as it was |
| CoOccurrence.AddIngredientNodes | create_graph2.py:68-69 | the node loop for one recipe leaves the graph with its names added |
| CoOccurrence.Bump | create_graph2.py:74 | `get(k, 0) + 1`: the counter for k grows by one, k becomes a key, and every other counter is unchanged |
| CoOccurrence.CountRow | create_graph2.py:72-74 | the inner loop for index i counts the pairs (name i, name m) for every later m |
| CoOccurrence.CountPairs | create_graph2.py:71-74 | the nested loops for one recipe count every index pair of its names |
| CoOccurrence.Materialise | create_graph2.py:77-78 | the `add_edge` loop over the counters leaves the graph with every counted key as an edge carrying its count |
| CoOccurrence.CorpusKeysOnNodes | create_graph2.py:65-78 | every counted key is sorted and joins two nodes, so `add_edge` adds no extra node |
| CoOccurrence.ProcessRecipes | create_graph2.py:65-74 | the recipe loop leaves every recipe's names as nodes and every index pair counted |
| CoOccurrence.BuildFromRecipes | create_graph.py:14-28 | the pipeline from an empty graph produces `Build(rs)` |
| CoOccurrence.BuildValid | create_graph.py:14-28 | the built graph is well-formed: distinct nodes, sorted edge keys, edges on nodes, weights on edges |
| CoOccurrence.BuildProperties | create_graph.py:14-28 | nodes are exactly the names in the corpus; edges are exactly the counter keys and the sorted pairs of the corpus; each edge's weight is its pair count, at least 1 |
| CoOccurrence.BuildEdgeWitness | create_graph.py:16-28 | a and b are joined exactly when some recipe lists them at two indices i < j, in either order |
| CoOccurrence.PairSource | create_graph.py:22-25 | every counted pair comes from two indices i < j of one recipe |
| CoOccurrence.PairInCorpus | create_graph.py:22-25 | every index pair i < j of every recipe is counted |
| CappedBuild.Link | test.py:35-40 | `has_edge` then `+= 1`, else `add_edge(weight=1)`: either way the sorted pair's counter grows by one |
| CappedBuild.LinkRow | test.py:33-40 | the inner loop for i links name i to every later name, the same as counting that row |
| CappedBuild.LinkIngredients | test.py:32-40 | the edge loops for one recipe leave weights equal to counting every index pair of the recipe |
| CappedBuild.AddMissingNodes | test.py:21-27 | the node loop adds each name not yet a node, the same as `add_node` on each name |
| CappedBuild.BuildFirstRecipes | test.py:14-40 | the script processes min(20, number of recipes) recipes and leaves the graph the counter builder makes from them; every weight is at least 1 |
| CappedBuild.AddRecipe | test.py:20-40 | one pass of the recipe loop extends the build by that recipe |
| CappedBuild.RecipeStep | test.py:20-40 | after a recipe's nodes are added, its names are nodes and linking them gives the build over the longer corpus |
| GraphCache.Pull | create_graph2.py:43-46 | `[next(gen) for _ in range(n)]` yields the first n recipes (none for n <= 0), or StopIteration when fewer remain |
| GraphCache.BuildKeepsConsistent | create_graph2.py:65-82 | building on a consistent graph and counter pair keeps it consistent, so every edge has a counter |
| GraphCache.FreshBuiltAfter | create_graph2.py:57-78 | building from a fresh object produces `Build(rs)` |
| CreateGraph2.CreateGraph.constructor | create_graph2.py:11-16 | a fresh object has an empty graph, no recipes and no counters, and sees the existing cache files |
| CreateGraph2.CreateGraph.LoadRecipesFromCookpad | create_graph2.py:36-54 | a recipe cache hit reads the cached list; a miss pulls the requested count and writes it to the cache, or raises StopIteration and writes nothing |
| CreateGraph2.CreateGraph.BuildGraph | create_graph2.py:57-93 | a graph cache hit loads the pair, or raises ValueError for another shape; a miss loads recipes when none are held, builds from them and saves under the count after loading |
| CreateGraph2.CreateGraph.BuildAndSave | create_graph2.py:64-82 | the build adds the held recipes' nodes and counts, materialises the edges and saves the pair under the current count |
| CreateGraph2.CreateGraph.ConvertToPyvis | create_graph2.py:95-104 | the Network made once in `__init__` keeps its earlier dicts, and `from_nx` adds one for each graph edge it does not already draw. The strict lookup raises KeyError exactly when an earlier dict's pair has no counter. So the first call always succeeds, and on success every dict is valued by its counter. Afterwards no edge of `self.G` has a 'weight', because `from_nx` moved it into 'width' |
| CreateGraphTranslated.TranslatedCorpusNames | creategraph.py:78-89 | a translated recipe holds exactly the processed names of its ingredients whose cleaned name is not empty, with their quantities |
| CreateGraphTranslated.ProcessTranslatedRecipes | creategraph.py:78-95 | the recipe loop adds the translated names as nodes and counts the translated pairs |
| CreateGraphTranslated.RebuildDoublesCounts | creategraph.py:92-95 | counting the same corpus again on top of its own counters doubles every counter |
| CreateGraphTranslated.BuildTwice | creategraph.py:65-101 | two `build_graph` calls on a fresh object: the first loads and counts under cache key 0; on a miss under 10000 the second counts the same recipes again, so every counter doubles |
| CreateGraphTranslated.CreateGraph.constructor | creategraph.py:12-22 | a fresh object has an empty graph, no recipes and no counters, and sees the existing cache files |
| CreateGraphTranslated.CreateGraph.LoadRecipesFromCookpad | creategraph.py:40-63 | the count is fixed at 10000; a recipe cache hit reads the list; a miss pulls 10000 recipes and caches them, or raises StopIteration |
| CreateGraphTranslated.CreateGraph.BuildGraph | creategraph.py:65-110 | as in create_graph2.py, but it builds from the translated recipes and saves under the count before loading |
| CreateGraphTranslated.CreateGraph.BuildAndSave | creategraph.py:78-101 | the build over the translated recipes, saved under the given key |
| CreateGraphTranslated.CreateGraph.ConvertToPyvis | creategraph.py:112-121 | the Network made once in `__init__` keeps its earlier dicts and gains one for each undrawn graph edge. On the first call its dicts are exactly the graph's edges. Every dict is valued by its counter, or 0 when there is none. Afterwards no edge of `self.G` has a 'weight', because `from_nx` moved it into 'width' |
| CreateGraphScript.RunScript | create_graph.py:11-44 | the counters are those of `Build(recipes)`, and the graph the script pickles has that build's nodes and edges with no 'weight' left, since `from_nx` ran first. The edges are exactly the counter keys, and each pyvis edge is valued by its counter without a KeyError |
| Pyvis.FromNx | create_graph.py:32 | `from_nx` keeps the Network's existing dicts as a prefix and appends one unvalued dict for each graph edge not drawn yet. The drawn pairs become the old ones plus the graph's edges. G comes back as `WeightsMoved(G)` |
| Pyvis.WeightsMoved | create_graph.py:32 | after `from_nx`, G keeps its nodes, its edges and its well-formedness, and no edge keeps a 'weight' |
| Pyvis.WeightsMovedReadOne | create_graph.py:32 | so `G[a][b].get('weight', 1)` reads 1 on every edge after `from_nx` |
| Pyvis.NewEdges | create_graph.py:32 | the loop inside `from_nx` gives one unvalued dict per pair it is handed, and exactly those pairs |
| Pyvis.SetValuesOrZero | creategraph.py:117-121 | each edge keeps its end points and is valued by its counter, or 0 |
| Pyvis.SetValuesStrict | create_graph.py:40-44 | each edge is valued by its counter; the loop stops with KeyError exactly when some edge has no counter |
| Pyvis.ConvertStrict | create_graph2.py:95-104 | the strict conversion succeeds exactly when every drawn pair, old or new, has a counter, and then values every dict by it. When every graph edge is counted, only an earlier dict can lack a counter, so an empty Network always succeeds. Earlier dicts keep their endpoints, and G comes back with its weights moved |
| Pyvis.ConvertOrZero | creategraph.py:112-121 | the lenient conversion values every drawn dict, old or new, by its counter, or 0. On an empty Network the dicts are exactly the graph's edges. Earlier dicts keep their endpoints, and G comes back with its weights moved |
| GraphAnalyzer.FindCommonNeighbors | graphAnalyzer.py:16-23 | empty when either name is not a node; otherwise exactly the nodes joined to both |
| GraphAnalyzer.FindCommonNeighborsSymmetric | graphAnalyzer.py:16-23 | the common neighbours of a and b are those of b and a |
| GraphAnalyzer.DegreeMap | graphAnalyzer.py:31 | `G.degree()` pairs every node, and only the nodes, with its own degree |
| GraphAnalyzer.MostCommonIngredients | graphAnalyzer.py:26-32 | as many (node, degree) entries as `[:top_n]` keeps, each pairing a name with its own degree |
| GraphAnalyzer.MostCommonIngredientsProperties | graphAnalyzer.py:26-32 | the result has `[:top_n]` many (node, degree) entries, each a node with its own degree, in non-increasing degree order |
| GraphAnalyzer.MostCommonIngredientsTop | graphAnalyzer.py:26-32 | no node left out has a higher degree than one listed |
| GraphAnalyzer.ListedIfRanked | graphAnalyzer.py:30-32 | a node ranked in the top n is listed with its degree |
| GraphAnalyzer.ClosedMember | graphAnalyzer.py:82-88 | the collected names are exactly the seeds that are nodes and their neighbours |
| GraphAnalyzer.AddNeighbours | graphAnalyzer.py:87-88 | the neighbour loop adds just the seed's neighbours to the set |
| GraphAnalyzer.ExtractSubgraphWithElements | graphAnalyzer.py:78-91 | the result is the subgraph induced by the seeds that are nodes and their neighbours |
| GraphAnalyzer.ExtractedNodes | graphAnalyzer.py:78-91 | a name is in the subgraph exactly when it is a seed node or a neighbour of one |
| Recommendation.ReachedMember | graphAnalyzer.py:106-108 | a name is reached exactly when it neighbours some seed that is a node |
| Recommendation.RecommendCandidates | graphAnalyzer.py:93-130 | the candidates are exactly the reached names, not seeds, that pass the community filter; each scores its summed weight times its centrality (1 without an entry); no seeds give no candidates |
| Recommendation.AddWeights | graphAnalyzer.py:115-118 | adding an increment map sums each increment into the dictionary and keeps every other entry |
| Recommendation.AddNeighbourWeights | graphAnalyzer.py:107-118 | one seed's loop adds the weight of its edge to each neighbour that passes the community filter |
| Recommendation.SeedWeightUnreached | graphAnalyzer.py:106-118 | a name no seed reaches scores nothing |
| Recommendation.DiscardSeeds | graphAnalyzer.py:121-123 | the delete loop removes exactly the seeds |
| Recommendation.ScaleByCentrality | graphAnalyzer.py:126-130 | each remaining score is multiplied by the node's centrality, or 1 |
| Recommendation.ScoreSeeds | graphAnalyzer.py:106-118 | the seed loop leaves each reached admitted name with the sum of its edge weights from every seed |
| Recommendation.RecommendIngredients | graphAnalyzer.py:93-135 | distinct candidates, no seed among them, as many as `[:n]` keeps, in non-increasing score order, and no candidate left out scores higher |
| Recommendation.Common | graphAnalyzer.py:188 | the common neighbours of a pair are exactly the nodes adjacent to both |
| Recommendation.AnyCommonMember | graphAnalyzer.py:187-190 | the flag is set exactly when some pair has a common neighbour |
| Recommendation.PairReachedMember | graphAnalyzer.py:187-195 | a name is reached by the pair loop exactly when it is a common neighbour of some pair |
| Recommendation.PairReachedFound | graphAnalyzer.py:189-195 | a name reached by the pair loop implies the flag is set |
| Recommendation.PairWeightUnreached | graphAnalyzer.py:187-195 | a name that is no pair's common neighbour scores 0 in the pair loop |
| Recommendation.FallbackWeightUnreached | graphAnalyzer.py:198-205 | a name no seed neighbours scores 0 in the fallback loop |
| Recommendation.AddPairWeights | graphAnalyzer.py:188-195 | one pair adds (weight to seed 1 plus weight to seed 2) times centrality to each common neighbour in a target community, and reports whether it had any common neighbour |
| Recommendation.AddFallbackWeights | graphAnalyzer.py:200-205 | one seed adds weight times centrality to each neighbour that is not a seed and lies in a target community |
| Recommendation.CommonFoundIff | graphAnalyzer.py:187-190 | the flag is set exactly when two seeds at indices a < b share a neighbour |
| Recommendation.SingleSeedFallsBack | graphAnalyzer.py:187-205 | a single seed forms no pair, so it is always scored by the fallback |
| Recommendation.PairCandidates | graphAnalyzer.py:182-209 | when some pair shares a neighbour, the candidates are exactly the common neighbours in a target community that are not seeds |
| Recommendation.FallbackCandidates | graphAnalyzer.py:198-209 | when no pair shares a neighbour, the candidates are exactly the seeds' neighbours in a target community that are not seeds |
| Recommendation.FilteredCommonLeavesNothing | graphAnalyzer.py:187-205 | when common neighbours exist but all fall outside the target communities, nothing is recommended and the fallback does not run |
| Recommendation.ScorePairs | graphAnalyzer.py:187-195 | the pair loop sets the flag exactly when some pair shares a neighbour, and leaves the pair scores |
| Recommendation.ScoreFallback | graphAnalyzer.py:198-205 | the fallback loop leaves the fallback scores |
| Recommendation.RecommendCooccurringIngredients | graphAnalyzer.py:168-213 | no seeds give ValueError; a seed that is not a node gives NetworkXError; otherwise the result is distinct non-seed candidates, ranked as in the first recommender |
| Unionization.CleanedCases | unionization_tmp.py:16-20 | a full-width bracket cuts first, then an ASCII one, each followed by strip; a name with neither is kept as is |
| Unionization.CleanedBrackets | unionization_tmp.py:16-20 | no full-width bracket survives; with no full-width bracket, no ASCII bracket survives either |
| Unionization.CleanedKeepsEarlierParen | unionization_tmp.py:17-19 | the full-width bracket is looked for first, so for every name an ASCII bracket before the first full-width one survives cleaning |
| Unionization.CleanIngredient | unionization_tmp.py:16-20 | the bracket loop returns the cleaned name |
| Unionization.Nouns | unionization_tmp.py:34-38 | the nouns are at most one per line, each non-empty and free of tabs |
| Unionization.NounOfMember | unionization_tmp.py:35-38 | a line yields x exactly when it contains the noun tag and x is its non-empty first field |
| Unionization.NounsMember | unionization_tmp.py:34-38 | x is collected exactly when some line yields it |
| Unionization.NounsAppend | unionization_tmp.py:34-38 | the nouns of two line blocks are the first block's nouns followed by the second's |
| Unionization.MecabParse | unionization_tmp.py:28-40 | the loop returns the nouns of the tagger's output lines, joined by spaces |
| Unionization.Translate | unionization_tmp.py:42-54 | the translation's text when there is a result, "Translation not available" for an empty result, and "Translation error" when the call raises, which is caught |
| Unionization.Normalise | unionization_tmp.py:25 | the processed text has no zero-width space and no upper-case ASCII letter, and keeps every other character of the lower-cased text as many times as it occurs |
| Unionization.ProcessIngredient | unionization_tmp.py:22-26 | the result has no zero-width space and no upper-case ASCII letter; after a successful translation it keeps every non-letter character of the translated text other than U+200B |
| Unionization.FailedTranslationNames | unionization_tmp.py:42-54 | a failed translation yields "translation not available" when there is no result, and "translation error" when the translator raises |
| Unionization.TranslateEntry | unionization_tmp.py:8-13 | one pass of the loop yields no entry for an empty cleaned name, else the processed name with the original quantity |
| Unionization.TranslateGivenIngredients | unionization_tmp.py:6-14 | the loop returns the entries of every ingredient, in input order |
| Unionization.KeepProcessedAppend | unionization_tmp.py:6-14 | translating two lists one after the other equals translating their concatenation |
| Unionization.KeepProcessedMember | unionization_tmp.py:8-13 | an entry is produced exactly when some ingredient has a non-empty cleaned name whose processed form it carries, with that ingredient's quantity |
| Unionization.KeepProcessedLength | unionization_tmp.py:6-14 | translation never lengthens the list |
| Unionization.TranslatedMember | unionization_tmp.py:6-14 | for the real cleaning and processing steps, the entries are exactly the processed names of the ingredients whose cleaned name is not empty, with their quantities |

## Left out

- Pickle files and file-system tests: each cache directory is a `map` from recipe count to the file's contents. `os.path.exists` becomes key membership, `pickle.dump` a map update and `pickle.load` a lookup.
- `CacheOk`: a graph cache file is taken to hold either a consistent (graph, counters) pair or some other shape. That shape is then rejected with ValueError, as the code does. Pickle's own decoding errors are not modelled.
- The `isinstance(loaded_data, tuple) or len(...) != 2` check is modelled as the single distinction between `GraphPair` and `OtherShape`.
- `RecipeLoader` and its generator are modelled as a sequence parameter `source`; a fresh loader restarts at its first recipe. The `with` block's open and close are not modelled.
- `get_integer_from_command_line` is modelled as the `requested` parameter, because reading standard input is I/O.
- `ensure_directory_exists`, the `BASE_PATH` and the relative paths are not modelled: they only create directories and name files.
- `show_graph`, `show_buttons`, `nt.show`, the matplotlib drawing in test.py, `tqdm` and `print` are left out, because they are display and logging only.
- The `sample.graph` dump in create_graph.py is left out: nothing reads it back. The `sample.pickle` corpus it loads is the `recipes` parameter.
- `community.best_partition` (Louvain) and `nx.degree_centrality` are the `community` and `centrality` map parameters, because they are library algorithms. `RecommendCooccurringIngredients` requires them to cover every node, as `community_map[neighbor]` and `centrality[neighbor]` demand.
- Centrality values and scores are `real`, not floating point. Rounding and the float order of summation are not modelled.
- `Recommendation.RecommendIngredients`, `Recommendation.RecommendCooccurringIngredients`: the ranking is stated as non-increasing and as the top n, not as the particular order Python's stable sort gives to ties. Dictionary iteration order is nondeterministic in the model.
- `Recommendation.RecommendCooccurringIngredients`: the `isinstance(ingredients, list)` test is not modelled, because the seeds are always a sequence. The NetworkXError that `self.G.neighbors` raises for a seed that is not a node is modelled as one check up front, with the same outcome.
- `GraphAnalyzer.MostCommonIngredients`: the ranking is stated as non-increasing degree and as the top n. Which of several nodes with equal degree survive `[:top_n]` is not stated, although the insertion sort, like Python's, keeps them in node order.
- `GraphAnalyzer.FindCommonNeighbors`: returns a set, where the code returns `list(set)`, whose order Python does not define.
- `get_most_common_ingredients_within_subgraph` is `MostCommonIngredients` applied to the subgraph with `top_n = 5`, so it has no member of its own.
- `find_shortest_path_between_ingredients`, `get_clusters`, `analyze_clusters`, `detect_communities` and `print_communities_and_top_ingredients` are left out: they wrap networkx library algorithms and print their results.
- `GraphAnalyzer.__init__` only stores the graph, and `GraphAnalyzer` is modelled as functions of that graph.
- The MeCab tagger (its dictionary path and `mc.parse('')`) and `googletrans.Translator` are function parameters, `tagger` and `translator`. A translator that raises is the `Raised` value. A `Unionization` object is created per recipe, but it has no state, so nothing of it is modelled.
- `PyStr.Lower`: lower-cases ASCII letters only; Python's full Unicode case mapping is not modelled.
- `Unionization.FailedTranslationNames`: stated through `Lower`, so it inherits the ASCII-only case mapping.
- `PyStr.LowerChar`: maps A-Z only. Python's `lower()` also lowers other capitals such as 'É', 'Ⅰ' (U+2160) and 'Ⓐ', and turns 'İ' into two code points.
- `PyStr.LowerKeepsOthers`: holds for the ASCII-only `Lower`. Under Python's full case mapping, characters such as 'É', 'Ⅰ' and 'Ⓐ' are not kept.
- `Unionization.Normalise`: its count-keeping ensures for non-letters is stated for ASCII-only lower-casing. Python would change non-ASCII capitals and characters such as 'Ⅰ' and 'Ⓐ'.
- `Unionization.ProcessIngredient`: "keeps every non-letter character" is stated for ASCII-only lower-casing. Python would change non-ASCII capitals and characters such as 'Ⅰ' and 'Ⓐ'.
- The pyvis `Network` object is modelled as its edge list only; node attributes and the HTML output are not modelled. pyvis is not part of the repository. `Pyvis.FromNx` follows its `add_edge`, which skips an edge that an existing dict of an undirected Network already draws.
- `Pyvis.FromNx`, `Pyvis.WeightsMoved`: with the builders' default `edge_scaling=False`, `from_nx` pops each edge's 'weight' into a 'width' attribute, both on G and on the new dict. The model records that the 'weight' is gone from G. It does not record the 'width' attributes, or the 'size' attribute `from_nx` writes onto G's nodes, because the graph model has no attributes other than 'weight'.
- main.py, main2.py, createPickle.py and unionization.py are not part of this model.
