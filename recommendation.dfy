/**
 * graphAnalyzer.py, the two recommenders of `GraphAnalyzer`. Both fill a
 * score dictionary from the seeds' neighbourhoods, drop the seeds, and
 * return the best-scored names. The community map (python-louvain's
 * `best_partition`) and the degree centrality (networkx) are computed by
 * library code and appear here as the parameters `community` and
 * `centrality`; scores are reals.
 */
module Recommendation {
  import opened Graphs
  import opened Pairs
  import opened Ranking
  import opened Outcomes

  /** `set(ingredient_communities.values())`: the communities of the seeds that have one. */
  function Target(seeds: seq<Name>, community: map<Name, int>): set<int>
  {
    set s | s in seeds && s in community :: community[s]
  }

  /** The community filter of `recommend_ingredients`: a node without a community passes. */
  predicate Admitted(v: Name, community: map<Name, int>, target: set<int>)
  {
    v !in community || community[v] in target
  }

  /** `centrality.get(node, 1)`. */
  function CentralityOr1(centrality: map<Name, real>, v: Name): real
  {
    if v in centrality then centrality[v] else 1.0
  }

  /** A summed weight corrected by the centrality of `v` (default 1). */
  function Adjust(weight: real, centrality: map<Name, real>, v: Name): real
  {
    weight * CentralityOr1(centrality, v)
  }

  /** Some seed that is a node has `v` as a neighbour. */
  predicate Reached(g: Graph, seeds: seq<Name>, v: Name)
  {
    if seeds == [] then false
    else
      var s := seeds[|seeds| - 1];
      Reached(g, seeds[..|seeds| - 1], v) || (s in g.nodes && v in Neighbors(g, s))
  }

  lemma {:induction false} ReachedMember(g: Graph, seeds: seq<Name>, v: Name)
    ensures Reached(g, seeds, v) <==> exists i :: 0 <= i < |seeds| && seeds[i] in g.nodes && v in Neighbors(g, seeds[i])
  {
    if seeds != [] {
      var last := |seeds| - 1;
      ReachedMember(g, seeds[..last], v);
      if exists i :: 0 <= i < |seeds| && seeds[i] in g.nodes && v in Neighbors(g, seeds[i]) {
        var i :| 0 <= i < |seeds| && seeds[i] in g.nodes && v in Neighbors(g, seeds[i]);
        if i < last {
          assert seeds[..last][i] == seeds[i];
        }
      }
      if Reached(g, seeds[..last], v) {
        var i :| 0 <= i < last && seeds[..last][i] in g.nodes && v in Neighbors(g, seeds[..last][i]);
        assert seeds[i] == seeds[..last][i];
      }
    }
  }

  /** The summed edge weights (default 1) from the seeds that are nodes and have `v` as a neighbour; a repeated seed counts again. */
  function SeedWeight(g: Graph, seeds: seq<Name>, v: Name): nat
  {
    if seeds == [] then 0
    else
      var s := seeds[|seeds| - 1];
      SeedWeight(g, seeds[..|seeds| - 1], v) + (if s in g.nodes && v in Neighbors(g, s) then EdgeWeight(g, s, v) else 0)
  }

  /** The dictionary after the neighbour loop of `recommend_ingredients`, before seeds are dropped and scores scaled. */
  function RawScores(g: Graph, seeds: seq<Name>, community: map<Name, int>, target: set<int>): map<Name, real>
  {
    map v | v in g.nodes && Reached(g, seeds, v) && Admitted(v, community, target) :: SeedWeight(g, seeds, v) as real
  }

  /** The entries of `m` whose key is not a seed. */
  function WithoutSeeds(m: map<Name, real>, seeds: seq<Name>): map<Name, real>
  {
    map v | v in m && v !in seeds :: m[v]
  }

  /** Each score times `centrality.get(node, 1)`. */
  function Scaled(m: map<Name, real>, centrality: map<Name, real>): map<Name, real>
  {
    map v | v in m :: Adjust(m[v], centrality, v)
  }

  /**
   * The scores `recommend_ingredients` ranks: every neighbour of a seed
   * that passes the community filter and is not itself a seed, scored by
   * its summed edge weights times its centrality (default 1).
   */
  function RecommendScores(g: Graph, seeds: seq<Name>, community: map<Name, int>, centrality: map<Name, real>): map<Name, real>
  {
    Scaled(WithoutSeeds(RawScores(g, seeds, community, Target(seeds, community)), seeds), centrality)
  }

  /** Two maps with the same keys and the same value at each key are equal. */
  lemma MapsEqual(a: map<Name, real>, b: map<Name, real>)
    requires forall v :: v in a <==> v in b
    requires forall v :: v in a ==> a[v] == b[v]
    ensures a == b
  {
  }

  /**
   * A name is a candidate exactly when it is not a seed, passes the filter
   * and neighbours some seed that is a node; with no seeds there is none.
   */
  lemma RecommendCandidates(g: Graph, seeds: seq<Name>, community: map<Name, int>, centrality: map<Name, real>, v: Name)
    requires Valid(g)
    ensures v in RecommendScores(g, seeds, community, centrality) <==>
      v !in seeds && Admitted(v, community, Target(seeds, community))
      && exists i :: 0 <= i < |seeds| && seeds[i] in g.nodes && v in Neighbors(g, seeds[i])
    ensures v in RecommendScores(g, seeds, community, centrality) ==>
      RecommendScores(g, seeds, community, centrality)[v] == Adjust(SeedWeight(g, seeds, v) as real, centrality, v)
    ensures seeds == [] ==> RecommendScores(g, seeds, community, centrality) == map[]
  {
    ReachedMember(g, seeds, v);
  }

  /** What one more seed `s` adds to the score of `v` in `recommend_ingredients`. */
  function SeedIncrement(g: Graph, s: Name, community: map<Name, int>, target: set<int>, v: Name): real
  {
    if v in Neighbors(g, s) && Admitted(v, community, target) then EdgeWeight(g, s, v) as real else 0.0
  }

  /** The score `d` holds for `v`, with 0 for a missing key as a defaultdict reads it. */
  function ScoreOr0(d: ScoreDict, v: Name): real
  {
    if v in d.scores then d.scores[v] else 0.0
  }

  /** `d'` is `d` with `inc[v]` added for each key `v` of `inc` in `done`; the other keys are as before. */
  ghost predicate AddedOver(d: ScoreDict, d': ScoreDict, inc: map<Name, real>, done: set<Name>)
  {
    && WellFormed(d')
    && (forall v :: v in d'.scores <==> v in d.scores || (v in done && v in inc))
    && (forall v :: v in d'.scores ==>
         d'.scores[v] == ScoreOr0(d, v) + (if v in done && v in inc then inc[v] else 0.0))
  }

  /** One pass of a neighbour loop: `v`, taken from the keys still to visit, is counted. */
  lemma AddedOverStep(d: ScoreDict, d': ScoreDict, inc: map<Name, real>, rest: set<Name>, v: Name)
    requires rest <= inc.Keys && v in rest && AddedOver(d, d', inc, inc.Keys - rest)
    ensures AddedOver(d, AddTo(d', v, inc[v]), inc, inc.Keys - (rest - {v}))
  {
    assert inc.Keys - (rest - {v}) == (inc.Keys - rest) + {v};
  }

  /**
   * The shape of every neighbour loop of both recommenders: each neighbour
   * that passes the loop's filter has its weight added to its score (a new
   * key starts from 0). `inc` maps the neighbours that pass to their weights.
   */
  method AddWeights(d: ScoreDict, inc: map<Name, real>) returns (d': ScoreDict)
    requires WellFormed(d)
    ensures WellFormed(d')
    ensures forall v :: v in d'.scores <==> v in d.scores || v in inc
    ensures forall v :: v in d'.scores ==> d'.scores[v] == ScoreOr0(d, v) + (if v in inc then inc[v] else 0.0)
  {
    d' := d;
    var rest := inc.Keys;
    assert inc.Keys - rest == {};
    while rest != {}
      invariant rest <= inc.Keys
      invariant AddedOver(d, d', inc, inc.Keys - rest)
      decreases |rest|
    {
      var v :| v in rest;
      AddedOverStep(d, d', inc, rest, v);
      d' := AddTo(d', v, inc[v]);
      rest := rest - {v};
    }
    assert inc.Keys - rest == inc.Keys;
  }

  /** The inner loop of `recommend_ingredients` for one seed `s`: add the weight of each admitted neighbour. */
  method AddNeighbourWeights(g: Graph, s: Name, community: map<Name, int>, target: set<int>, d: ScoreDict)
    returns (d': ScoreDict)
    requires WellFormed(d)
    ensures WellFormed(d')
    ensures forall v :: v in d'.scores <==> v in d.scores || (v in Neighbors(g, s) && Admitted(v, community, target))
    ensures forall v :: v in d'.scores ==> d'.scores[v] == ScoreOr0(d, v) + SeedIncrement(g, s, community, target, v)
  {
    var inc := map v | v in Neighbors(g, s) && Admitted(v, community, target) :: EdgeWeight(g, s, v) as real;
    d' := AddWeights(d, inc);
  }

  /** A name no seed reaches has no weight. */
  lemma {:induction false} SeedWeightUnreached(g: Graph, seeds: seq<Name>, v: Name)
    requires !Reached(g, seeds, v)
    ensures SeedWeight(g, seeds, v) == 0
  {
    if seeds != [] {
      SeedWeightUnreached(g, seeds[..|seeds| - 1], v);
    }
  }

  /** The loop that deletes every seed present in the dictionary (in both recommenders). */
  method DiscardSeeds(d: ScoreDict, seeds: seq<Name>) returns (d': ScoreDict)
    requires WellFormed(d)
    ensures WellFormed(d')
    ensures d'.scores == WithoutSeeds(d.scores, seeds)
  {
    d' := d;
    for i := 0 to |seeds|
      invariant WellFormed(d')
      invariant d'.scores == WithoutSeeds(d.scores, seeds[..i])
    {
      assert forall v :: v in seeds[..i + 1] <==> v in seeds[..i] || v == seeds[i];
      if seeds[i] in d'.scores {
        d' := Discard(d', seeds[i]);
      }
    }
    assert seeds[..|seeds|] == seeds;
  }

  /** The keys in `done` have been scaled by their centrality, the others not yet. */
  ghost predicate ScaledUpTo(d: ScoreDict, d': ScoreDict, centrality: map<Name, real>, done: seq<Name>)
  {
    && d'.order == d.order
    && (forall v :: v in d'.scores <==> v in d.scores)
    && forall v :: v in d.scores ==>
         d'.scores[v] == if v in done then Adjust(d.scores[v], centrality, v) else d.scores[v]
  }

  /** One pass of the scaling loop, over the k-th key. */
  lemma ScaledStep(d: ScoreDict, d': ScoreDict, centrality: map<Name, real>, k: nat)
    requires WellFormed(d) && k < |d.order| && ScaledUpTo(d, d', centrality, d.order[..k])
    ensures ScaledUpTo(d, d'.(scores := d'.scores[d.order[k] := Adjust(d'.scores[d.order[k]], centrality, d.order[k])]),
      centrality, d.order[..k + 1])
  {
    var node := d.order[k];
    assert node !in d.order[..k];
    assert forall v :: v in d.order[..k + 1] <==> v in d.order[..k] || v == node;
  }

  /** The loop over the dictionary that multiplies each score by the centrality of its key (default 1). */
  method ScaleByCentrality(d: ScoreDict, centrality: map<Name, real>) returns (d': ScoreDict)
    requires WellFormed(d)
    ensures WellFormed(d') && d'.order == d.order
    ensures d'.scores == Scaled(d.scores, centrality)
  {
    d' := d;
    for k := 0 to |d.order|
      invariant ScaledUpTo(d, d', centrality, d.order[..k])
    {
      ScaledStep(d, d', centrality, k);
      var node := d.order[k];
      d' := d'.(scores := d'.scores[node := Adjust(d'.scores[node], centrality, node)]);
    }
    assert d.order[..|d.order|] == d.order;
    assert forall v :: v in d.scores ==> v in d.order;
    MapsEqual(d'.scores, Scaled(d.scores, centrality));
  }

  /** The neighbour loop of `recommend_ingredients`, seed by seed; a seed that is not a node adds nothing. */
  method ScoreSeeds(g: Graph, seeds: seq<Name>, community: map<Name, int>, target: set<int>) returns (d: ScoreDict)
    requires Valid(g)
    ensures WellFormed(d) && d.scores == RawScores(g, seeds, community, target)
  {
    d := EmptyDict();
    for i := 0 to |seeds|
      invariant WellFormed(d)
      invariant forall v :: v in d.scores <==> v in g.nodes && Reached(g, seeds[..i], v) && Admitted(v, community, target)
      invariant forall v :: v in d.scores ==> d.scores[v] == SeedWeight(g, seeds[..i], v) as real
    {
      ghost var before := seeds[..i];
      ghost var after := seeds[..i + 1];
      assert after[..i] == before && after[i] == seeds[i];
      if seeds[i] in g.nodes {
        d := AddNeighbourWeights(g, seeds[i], community, target, d);
      }
      forall v | v in d.scores ensures d.scores[v] == SeedWeight(g, after, v) as real {
        if !Reached(g, before, v) {
          SeedWeightUnreached(g, before, v);
        }
        assert SeedWeight(g, after, v) == SeedWeight(g, before, v)
          + (if seeds[i] in g.nodes && v in Neighbors(g, seeds[i]) then EdgeWeight(g, seeds[i], v) else 0);
      }
    }
    assert seeds[..|seeds|] == seeds;
    MapsEqual(d.scores, RawScores(g, seeds, community, target));
  }

  /**
   * `recommend_ingredients`: at most `num_recommendations` distinct
   * candidates, none of them a seed, in non-increasing score order, and no
   * candidate left out scores higher than one returned. With no seeds the
   * result is empty.
   */
  method RecommendIngredients(g: Graph, ingredients: seq<Name>, community: map<Name, int>, centrality: map<Name, real>,
                              numRecommendations: int) returns (r: seq<Name>)
    requires Valid(g)
    ensures Distinct(r)
    ensures forall x :: x in r ==> x in RecommendScores(g, ingredients, community, centrality) && x !in ingredients
    ensures |r| == PrefixLength(|RecommendScores(g, ingredients, community, centrality)|, numRecommendations)
    ensures forall i, j :: 0 <= i < j < |r| ==>
      RecommendScores(g, ingredients, community, centrality)[r[i]] >= RecommendScores(g, ingredients, community, centrality)[r[j]]
    ensures forall v, i :: v in RecommendScores(g, ingredients, community, centrality) && v !in r && 0 <= i < |r| ==>
      RecommendScores(g, ingredients, community, centrality)[v] <= RecommendScores(g, ingredients, community, centrality)[r[i]]
  {
    var target := Target(ingredients, community);
    var d := ScoreSeeds(g, ingredients, community, target);
    d := DiscardSeeds(d, ingredients);
    d := ScaleByCentrality(d, centrality);
    RankedProperties(d.order, d.scores, numRecommendations);
    RankedTop(d.order, d.scores, numRecommendations);
    r := Ranked(d.order, d.scores, numRecommendations);
  }

  // recommend_cooccurring_ingredients

  /** `community_map[neighbor] in target_communities`; every node has a community, so the lookup succeeds. */
  predicate InTarget(v: Name, community: map<Name, int>, target: set<int>)
  {
    v in community && community[v] in target
  }

  /** The common neighbours of the two seeds of a pair. */
  function Common(g: Graph, p: (Name, Name)): (r: set<Name>)
    ensures forall v :: v in r <==> v in Neighbors(g, p.0) && v in Neighbors(g, p.1)
  {
    Neighbors(g, p.0) * Neighbors(g, p.1)
  }

  /** The two seeds of a pair share at least one neighbour. */
  predicate Meets(g: Graph, p: (Name, Name))
  {
    Common(g, p) != {}
  }

  /** `common_neighbors_found` after the pairs: some pair has a common neighbour. */
  predicate AnyCommon(g: Graph, pairs: seq<(Name, Name)>)
  {
    pairs != [] && (AnyCommon(g, pairs[..|pairs| - 1]) || Meets(g, pairs[|pairs| - 1]))
  }

  lemma {:induction false} AnyCommonMember(g: Graph, pairs: seq<(Name, Name)>)
    ensures AnyCommon(g, pairs) <==> exists i :: 0 <= i < |pairs| && Meets(g, pairs[i])
  {
    if pairs != [] {
      var last := |pairs| - 1;
      AnyCommonMember(g, pairs[..last]);
      if exists i :: 0 <= i < |pairs| && Meets(g, pairs[i]) {
        var i :| 0 <= i < |pairs| && Meets(g, pairs[i]);
        if i < last {
          assert pairs[..last][i] == pairs[i];
        }
      }
      if AnyCommon(g, pairs[..last]) {
        var i :| 0 <= i < last && Meets(g, pairs[..last][i]);
        assert pairs[i] == pairs[..last][i];
      }
    }
  }

  /** `v` is a common neighbour of some pair. */
  predicate PairReached(g: Graph, pairs: seq<(Name, Name)>, v: Name)
  {
    pairs != [] && (PairReached(g, pairs[..|pairs| - 1], v) || v in Common(g, pairs[|pairs| - 1]))
  }

  lemma {:induction false} PairReachedMember(g: Graph, pairs: seq<(Name, Name)>, v: Name)
    ensures PairReached(g, pairs, v) <==> exists i :: 0 <= i < |pairs| && v in Common(g, pairs[i])
  {
    if pairs != [] {
      var last := |pairs| - 1;
      PairReachedMember(g, pairs[..last], v);
      if exists i :: 0 <= i < |pairs| && v in Common(g, pairs[i]) {
        var i :| 0 <= i < |pairs| && v in Common(g, pairs[i]);
        if i < last {
          assert pairs[..last][i] == pairs[i];
        }
      }
      if PairReached(g, pairs[..last], v) {
        var i :| 0 <= i < last && v in Common(g, pairs[..last][i]);
        assert pairs[i] == pairs[..last][i];
      }
    }
  }

  /** A common neighbour of some pair means some pair has one: the pair loop sets the flag whenever it scores. */
  lemma {:induction false} PairReachedFound(g: Graph, pairs: seq<(Name, Name)>, v: Name)
    requires PairReached(g, pairs, v)
    ensures AnyCommon(g, pairs)
  {
    var last := |pairs| - 1;
    if PairReached(g, pairs[..last], v) {
      PairReachedFound(g, pairs[..last], v);
    }
  }

  /** The weights (default 1) of the edges from both seeds of pair `p` to `v`, summed. */
  function PairEdgeWeight(g: Graph, p: (Name, Name), v: Name): nat
  {
    EdgeWeight(g, p.0, v) + EdgeWeight(g, p.1, v)
  }

  /**
   * What pair `p` adds to the score of `v`: both edge weights (default 1),
   * times the centrality of `v`, when `v` is a common neighbour in a target community.
   */
  function PairIncrement(g: Graph, p: (Name, Name), community: map<Name, int>, target: set<int>,
                         centrality: map<Name, real>, v: Name): real
  {
    if v in Common(g, p) && InTarget(v, community, target) then Adjust(PairEdgeWeight(g, p, v) as real, centrality, v) else 0.0
  }

  /** The score the pair loop accumulates for `v`. */
  function PairWeight(g: Graph, pairs: seq<(Name, Name)>, community: map<Name, int>, target: set<int>,
                      centrality: map<Name, real>, v: Name): real
  {
    if pairs == [] then 0.0
    else PairWeight(g, pairs[..|pairs| - 1], community, target, centrality, v)
         + PairIncrement(g, pairs[|pairs| - 1], community, target, centrality, v)
  }

  lemma {:induction false} PairWeightUnreached(g: Graph, pairs: seq<(Name, Name)>, community: map<Name, int>, target: set<int>,
                                              centrality: map<Name, real>, v: Name)
    requires !PairReached(g, pairs, v)
    ensures PairWeight(g, pairs, community, target, centrality, v) == 0.0
  {
    if pairs != [] {
      PairWeightUnreached(g, pairs[..|pairs| - 1], community, target, centrality, v);
    }
  }

  /** The dictionary after the pair loop: every common neighbour of a pair that lies in a target community. */
  function PairScores(g: Graph, pairs: seq<(Name, Name)>, community: map<Name, int>, target: set<int>,
                      centrality: map<Name, real>): map<Name, real>
  {
    map v | v in g.nodes && PairReached(g, pairs, v) && InTarget(v, community, target) :: PairWeight(g, pairs, community, target, centrality, v)
  }

  /** What seed `s` adds to the score of `v` in the fallback loop: nothing for a seed or a name outside the target communities. */
  function FallbackIncrement(g: Graph, s: Name, seeds: seq<Name>, community: map<Name, int>, target: set<int>,
                             centrality: map<Name, real>, v: Name): real
  {
    if v in Neighbors(g, s) && v !in seeds && InTarget(v, community, target) then Adjust(EdgeWeight(g, s, v) as real, centrality, v) else 0.0
  }

  /** The score the fallback loop accumulates for `v` over the seeds `done`. */
  function FallbackWeight(g: Graph, done: seq<Name>, seeds: seq<Name>, community: map<Name, int>, target: set<int>,
                          centrality: map<Name, real>, v: Name): real
  {
    if done == [] then 0.0
    else FallbackWeight(g, done[..|done| - 1], seeds, community, target, centrality, v)
         + FallbackIncrement(g, done[|done| - 1], seeds, community, target, centrality, v)
  }

  lemma {:induction false} FallbackWeightUnreached(g: Graph, done: seq<Name>, seeds: seq<Name>, community: map<Name, int>,
                                                  target: set<int>, centrality: map<Name, real>, v: Name)
    requires forall s :: s in done ==> s in g.nodes
    requires !Reached(g, done, v)
    ensures FallbackWeight(g, done, seeds, community, target, centrality, v) == 0.0
  {
    if done != [] {
      FallbackWeightUnreached(g, done[..|done| - 1], seeds, community, target, centrality, v);
    }
  }

  /** The dictionary after the fallback loop: the neighbours of the seeds that are no seed and lie in a target community. */
  function FallbackScores(g: Graph, seeds: seq<Name>, community: map<Name, int>, target: set<int>,
                          centrality: map<Name, real>): map<Name, real>
  {
    map v | v in g.nodes && Reached(g, seeds, v) && v !in seeds && InTarget(v, community, target) :: FallbackWeight(g, seeds, seeds, community, target, centrality, v)
  }

  /**
   * The scores `recommend_cooccurring_ingredients` ranks: the pair scores
   * when some pair of seeds has a common neighbour, the fallback scores
   * otherwise, without the seeds.
   */
  function CooccurringScores(g: Graph, seeds: seq<Name>, community: map<Name, int>, centrality: map<Name, real>): map<Name, real>
  {
    var target := Target(seeds, community);
    var pairs := Combinations(seeds);
    WithoutSeeds(if AnyCommon(g, pairs) then PairScores(g, pairs, community, target, centrality)
                 else FallbackScores(g, seeds, community, target, centrality), seeds)
  }

  /** One pass of the pair loop: score the common neighbours of `p` in a target community; report whether there were any. */
  method AddPairWeights(g: Graph, p: (Name, Name), community: map<Name, int>, target: set<int>,
                        centrality: map<Name, real>, d: ScoreDict) returns (d': ScoreDict, common: bool)
    requires WellFormed(d)
    ensures common <==> Common(g, p) != {}
    ensures WellFormed(d')
    ensures forall v :: v in d'.scores <==> v in d.scores || (v in Common(g, p) && InTarget(v, community, target))
    ensures forall v :: v in d'.scores ==> d'.scores[v] == ScoreOr0(d, v) + PairIncrement(g, p, community, target, centrality, v)
  {
    var neighbours := Neighbors(g, p.0) * Neighbors(g, p.1);
    common := neighbours != {};
    d' := d;
    if common {
      var inc := map v | v in neighbours && InTarget(v, community, target) ::
        Adjust(PairEdgeWeight(g, p, v) as real, centrality, v);
      d' := AddWeights(d, inc);
    }
  }

  /** The pass of the fallback loop for seed `s`: score its neighbours that are no seed and lie in a target community. */
  method AddFallbackWeights(g: Graph, s: Name, seeds: seq<Name>, community: map<Name, int>, target: set<int>,
                            centrality: map<Name, real>, d: ScoreDict) returns (d': ScoreDict)
    requires WellFormed(d)
    ensures WellFormed(d')
    ensures forall v :: v in d'.scores <==> v in d.scores || (v in Neighbors(g, s) && v !in seeds && InTarget(v, community, target))
    ensures forall v :: v in d'.scores ==>
      d'.scores[v] == ScoreOr0(d, v) + FallbackIncrement(g, s, seeds, community, target, centrality, v)
  {
    var inc := map v | v in Neighbors(g, s) && v !in seeds && InTarget(v, community, target) ::
      Adjust(EdgeWeight(g, s, v) as real, centrality, v);
    d' := AddWeights(d, inc);
  }

  /** Some pair of seeds at positions a < b has a common neighbour exactly when the pair loop sets its flag. */
  lemma CommonFoundIff(g: Graph, seeds: seq<Name>)
    ensures AnyCommon(g, Combinations(seeds)) <==>
      exists a, b :: 0 <= a < b < |seeds| && Common(g, (seeds[a], seeds[b])) != {}
  {
    var pairs := Combinations(seeds);
    AnyCommonMember(g, pairs);
    if AnyCommon(g, pairs) {
      var i :| 0 <= i < |pairs| && Meets(g, pairs[i]);
      CombinationsMember(seeds, pairs[i]);
    }
    if exists a, b :: 0 <= a < b < |seeds| && Common(g, (seeds[a], seeds[b])) != {} {
      var a, b :| 0 <= a < b < |seeds| && Common(g, (seeds[a], seeds[b])) != {};
      CombinationsMember(seeds, (seeds[a], seeds[b]));
      var i :| 0 <= i < |pairs| && pairs[i] == (seeds[a], seeds[b]);
    }
  }

  /** A single seed forms no pair, so its recommendations always come from the fallback loop. */
  lemma SingleSeedFallsBack(g: Graph, s: Name, community: map<Name, int>, centrality: map<Name, real>)
    ensures CooccurringScores(g, [s], community, centrality)
         == WithoutSeeds(FallbackScores(g, [s], community, Target([s], community), centrality), [s])
  {
    CombinationsLength([s]);
  }

  /**
   * Who is a candidate of `recommend_cooccurring_ingredients` when some
   * pair of seeds has a common neighbour: exactly the common neighbours of
   * pairs that are no seed and lie in a target community.
   */
  lemma PairCandidates(g: Graph, seeds: seq<Name>, community: map<Name, int>, centrality: map<Name, real>, v: Name)
    requires AnyCommon(g, Combinations(seeds))
    ensures v in CooccurringScores(g, seeds, community, centrality) <==>
      v !in seeds && InTarget(v, community, Target(seeds, community))
      && exists a, b :: 0 <= a < b < |seeds| && v in Common(g, (seeds[a], seeds[b]))
  {
    var pairs := Combinations(seeds);
    PairReachedMember(g, pairs, v);
    if PairReached(g, pairs, v) {
      var i :| 0 <= i < |pairs| && v in Common(g, pairs[i]);
      CombinationsMember(seeds, pairs[i]);
    }
    if exists a, b :: 0 <= a < b < |seeds| && v in Common(g, (seeds[a], seeds[b])) {
      var a, b :| 0 <= a < b < |seeds| && v in Common(g, (seeds[a], seeds[b]));
      CombinationsMember(seeds, (seeds[a], seeds[b]));
      var i :| 0 <= i < |pairs| && pairs[i] == (seeds[a], seeds[b]);
      assert v in Common(g, pairs[i]);
    }
  }

  /**
   * Who is a candidate when no pair of seeds has a common neighbour:
   * exactly the neighbours of seeds that are no seed and lie in a target
   * community.
   */
  lemma FallbackCandidates(g: Graph, seeds: seq<Name>, community: map<Name, int>, centrality: map<Name, real>, v: Name)
    requires forall s :: s in seeds ==> s in g.nodes
    requires !AnyCommon(g, Combinations(seeds))
    ensures v in CooccurringScores(g, seeds, community, centrality) <==>
      v !in seeds && InTarget(v, community, Target(seeds, community))
      && exists i :: 0 <= i < |seeds| && v in Neighbors(g, seeds[i])
  {
    ReachedMember(g, seeds, v);
  }

  /**
   * Once some pair has a common neighbour the fallback is skipped, even when
   * none of those neighbours lies in a target community: the scores are then
   * empty, however many neighbours the seeds have.
   */
  lemma FilteredCommonLeavesNothing(g: Graph, seeds: seq<Name>, community: map<Name, int>, centrality: map<Name, real>)
    requires exists a, b :: 0 <= a < b < |seeds| && Common(g, (seeds[a], seeds[b])) != {}
    requires forall a, b, v :: 0 <= a < b < |seeds| && v in Common(g, (seeds[a], seeds[b])) ==>
      !InTarget(v, community, Target(seeds, community))
    ensures CooccurringScores(g, seeds, community, centrality) == map[]
  {
    CommonFoundIff(g, seeds);
    forall v | v in CooccurringScores(g, seeds, community, centrality) ensures false {
      PairCandidates(g, seeds, community, centrality, v);
    }
  }

  /** The pair loop of `recommend_cooccurring_ingredients`, from an empty dictionary and a cleared flag. */
  method ScorePairs(g: Graph, pairs: seq<(Name, Name)>, community: map<Name, int>, target: set<int>,
                    centrality: map<Name, real>) returns (d: ScoreDict, found: bool)
    ensures WellFormed(d)
    ensures found == AnyCommon(g, pairs)
    ensures d.scores == PairScores(g, pairs, community, target, centrality)
  {
    d := EmptyDict();
    found := false;
    for k := 0 to |pairs|
      invariant WellFormed(d)
      invariant found == AnyCommon(g, pairs[..k])
      invariant forall v :: v in d.scores <==> v in g.nodes && PairReached(g, pairs[..k], v) && InTarget(v, community, target)
      invariant forall v :: v in d.scores ==> d.scores[v] == PairWeight(g, pairs[..k], community, target, centrality, v)
    {
      ghost var before := pairs[..k];
      ghost var after := pairs[..k + 1];
      assert after[..k] == before && after[k] == pairs[k];
      var common;
      d, common := AddPairWeights(g, pairs[k], community, target, centrality, d);
      if common {
        found := true;
      }
      forall v | v in d.scores ensures d.scores[v] == PairWeight(g, after, community, target, centrality, v) {
        if !PairReached(g, before, v) {
          PairWeightUnreached(g, before, community, target, centrality, v);
        }
      }
    }
    assert pairs[..|pairs|] == pairs;
    MapsEqual(d.scores, PairScores(g, pairs, community, target, centrality));
  }

  /** The fallback loop of `recommend_cooccurring_ingredients`, run on the dictionary the pair loop left empty. */
  method ScoreFallback(g: Graph, seeds: seq<Name>, community: map<Name, int>, target: set<int>,
                       centrality: map<Name, real>, d: ScoreDict) returns (d': ScoreDict)
    requires WellFormed(d) && d.scores == map[]
    requires forall s :: s in seeds ==> s in g.nodes
    ensures WellFormed(d')
    ensures d'.scores == FallbackScores(g, seeds, community, target, centrality)
  {
    d' := d;
    for i := 0 to |seeds|
      invariant WellFormed(d')
      invariant forall v :: v in d'.scores <==> v in g.nodes && Reached(g, seeds[..i], v) && v !in seeds && InTarget(v, community, target)
      invariant forall v :: v in d'.scores ==> d'.scores[v] == FallbackWeight(g, seeds[..i], seeds, community, target, centrality, v)
    {
      ghost var before := seeds[..i];
      ghost var after := seeds[..i + 1];
      assert after[..i] == before && after[i] == seeds[i];
      assert forall s :: s in before ==> s in seeds;
      d' := AddFallbackWeights(g, seeds[i], seeds, community, target, centrality, d');
      forall v | v in d'.scores ensures d'.scores[v] == FallbackWeight(g, after, seeds, community, target, centrality, v) {
        if !Reached(g, before, v) {
          FallbackWeightUnreached(g, before, seeds, community, target, centrality, v);
        }
      }
    }
    assert seeds[..|seeds|] == seeds;
    MapsEqual(d'.scores, FallbackScores(g, seeds, community, target, centrality));
  }

  /**
   * `recommend_cooccurring_ingredients`: ValueError for no seeds,
   * NetworkXError when a seed is not a node; otherwise at most
   * `num_recommendations` distinct candidates, none of them a seed, in
   * non-increasing score order, and no candidate left out scores higher
   * than one returned.
   */
  method RecommendCooccurringIngredients(g: Graph, ingredients: seq<Name>, community: map<Name, int>,
                                         centrality: map<Name, real>, numRecommendations: int)
    returns (r: Result<seq<Name>>)
    requires Valid(g)
    requires forall v :: v in g.nodes ==> v in community && v in centrality
    ensures ingredients == [] ==> r == Err(InvalidSeeds)
    ensures ingredients != [] && (exists s :: s in ingredients && s !in g.nodes) ==> r == Err(NotANode)
    ensures r.Ok? <==> ingredients != [] && forall s :: s in ingredients ==> s in g.nodes
    ensures r.Ok? ==> Distinct(r.value)
    ensures r.Ok? ==> forall x :: x in r.value ==> x in CooccurringScores(g, ingredients, community, centrality) && x !in ingredients
    ensures r.Ok? ==> |r.value| == PrefixLength(|CooccurringScores(g, ingredients, community, centrality)|, numRecommendations)
    ensures r.Ok? ==> forall i, j :: 0 <= i < j < |r.value| ==>
      CooccurringScores(g, ingredients, community, centrality)[r.value[i]] >= CooccurringScores(g, ingredients, community, centrality)[r.value[j]]
    ensures r.Ok? ==> forall v, i :: v in CooccurringScores(g, ingredients, community, centrality) && v !in r.value && 0 <= i < |r.value| ==>
      CooccurringScores(g, ingredients, community, centrality)[v] <= CooccurringScores(g, ingredients, community, centrality)[r.value[i]]
  {
    if ingredients == [] {
      return Err(InvalidSeeds);
    }
    if exists s :: s in ingredients && s !in g.nodes {
      return Err(NotANode);
    }
    var target := Target(ingredients, community);
    var pairs := Combinations(ingredients);
    var d, found := ScorePairs(g, pairs, community, target, centrality);
    if !found {
      forall v | v in d.scores ensures false {
        PairReachedFound(g, pairs, v);
      }
      d := ScoreFallback(g, ingredients, community, target, centrality, d);
    }
    d := DiscardSeeds(d, ingredients);
    ghost var scores := CooccurringScores(g, ingredients, community, centrality);
    assert d.scores == scores;
    RankedProperties(d.order, d.scores, numRecommendations);
    RankedTop(d.order, d.scores, numRecommendations);
    r := Ok(Ranked(d.order, d.scores, numRecommendations));
  }
}
