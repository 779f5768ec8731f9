/**
 * graphAnalyzer.py, the read-only queries of `GraphAnalyzer` over the
 * graph it was built with: common neighbours, the nodes ranked by degree,
 * and the subgraph around a set of ingredients. The analyzer's only state
 * is that graph, which it never changes, so it appears here as the
 * parameter `g`.
 */
module GraphAnalyzer {
  import opened Graphs
  import opened Ranking

  /**
   * `find_common_neighbors`: nothing when either ingredient is not a node,
   * otherwise the nodes adjacent to both.
   */
  function FindCommonNeighbors(g: Graph, a: Name, b: Name): (r: set<Name>)
    ensures a !in g.nodes || b !in g.nodes ==> r == {}
    ensures forall u :: u in r <==> a in g.nodes && b in g.nodes && u in g.nodes && HasEdge(g, u, a) && HasEdge(g, u, b)
  {
    if a !in g.nodes || b !in g.nodes then {} else Neighbors(g, a) * Neighbors(g, b)
  }

  /** The common neighbours do not depend on the order of the two ingredients. */
  lemma FindCommonNeighborsSymmetric(g: Graph, a: Name, b: Name)
    ensures FindCommonNeighbors(g, a, b) == FindCommonNeighbors(g, b, a)
  {
    assert forall u :: u in FindCommonNeighbors(g, a, b) <==> u in FindCommonNeighbors(g, b, a);
  }

  /** The degree of every node, as reals for the ranking. */
  function DegreeMap(g: Graph): (m: map<Name, real>)
    ensures forall v :: v in m <==> v in g.nodes
    ensures forall v :: v in m ==> m[v] == Degree(g, v) as real
  {
    map v | v in g.nodes :: Degree(g, v) as real
  }

  /**
   * `get_most_common_ingredients`: `(node, degree)` for the nodes ranked
   * by degree, highest first, cut by `[:top_n]`.
   * `get_most_common_ingredients_within_subgraph` is the same query on the
   * subgraph it is given, with 5 in place of 10 as the default.
   */
  function MostCommonIngredients(g: Graph, topN: int): (r: seq<(Name, nat)>)
    ensures |r| == PrefixLength(|g.nodes|, topN)
    ensures forall i :: 0 <= i < |r| ==> r[i].1 == Degree(g, r[i].0)
  {
    var ranked := Ranked(g.nodes, DegreeMap(g), topN);
    seq(|ranked|, i requires 0 <= i < |ranked| => (ranked[i], Degree(g, ranked[i])))
  }

  /**
   * The ranking holds distinct nodes, each with its degree, in
   * non-increasing degree order, and it is as long as the slice allows.
   */
  lemma MostCommonIngredientsProperties(g: Graph, topN: int)
    requires Valid(g)
    ensures |MostCommonIngredients(g, topN)| == PrefixLength(|g.nodes|, topN)
    ensures forall i :: 0 <= i < |MostCommonIngredients(g, topN)| ==>
      MostCommonIngredients(g, topN)[i].0 in g.nodes && MostCommonIngredients(g, topN)[i].1 == Degree(g, MostCommonIngredients(g, topN)[i].0)
    ensures forall i, j :: 0 <= i < j < |MostCommonIngredients(g, topN)| ==>
      MostCommonIngredients(g, topN)[i].0 != MostCommonIngredients(g, topN)[j].0
      && MostCommonIngredients(g, topN)[i].1 >= MostCommonIngredients(g, topN)[j].1
  {
    var m := DegreeMap(g);
    var ranked := Ranked(g.nodes, m, topN);
    var r := MostCommonIngredients(g, topN);
    RankedProperties(g.nodes, m, topN);
    assert |r| == |ranked| == PrefixLength(|m|, topN);
    assert m.Keys == set x | x in g.nodes;
    DistinctCardinality(g.nodes);
    forall i | 0 <= i < |r| ensures r[i].0 == ranked[i] && r[i].0 in g.nodes && r[i].1 == Degree(g, r[i].0) {
    }
    forall i, j | 0 <= i < j < |r| ensures r[i].0 != r[j].0 && r[i].1 >= r[j].1 {
      assert m[ranked[i]] >= m[ranked[j]];
      assert m[ranked[i]] == r[i].1 as real && m[ranked[j]] == r[j].1 as real;
    }
  }

  /** No node left out of the ranking has a larger degree than one in it. */
  lemma MostCommonIngredientsTop(g: Graph, topN: int)
    ensures forall v, i ::
      v in g.nodes && (v, Degree(g, v)) !in MostCommonIngredients(g, topN) && 0 <= i < |MostCommonIngredients(g, topN)|
      ==> Degree(g, v) <= MostCommonIngredients(g, topN)[i].1
  {
    var m := DegreeMap(g);
    var ranked := Ranked(g.nodes, m, topN);
    var r := MostCommonIngredients(g, topN);
    RankedTop(g.nodes, m, topN);
    forall v, i | v in g.nodes && (v, Degree(g, v)) !in r && 0 <= i < |r|
      ensures Degree(g, v) <= r[i].1
    {
      if v in ranked {
        ListedIfRanked(g, topN, v);
      } else {
        assert m[v] <= m[ranked[i]];
      }
    }
  }

  /** A ranked node is listed with its degree. */
  lemma ListedIfRanked(g: Graph, topN: int, v: Name)
    requires v in Ranked(g.nodes, DegreeMap(g), topN)
    ensures (v, Degree(g, v)) in MostCommonIngredients(g, topN)
  {
    var ranked := Ranked(g.nodes, DegreeMap(g), topN);
    var j :| 0 <= j < |ranked| && ranked[j] == v;
    assert MostCommonIngredients(g, topN)[j] == (v, Degree(g, v));
  }

  /** The nodes around `seeds`: each seed that is a node, with its neighbours. */
  function Closed(g: Graph, seeds: seq<Name>): set<Name>
  {
    if seeds == [] then {}
    else
      var s := seeds[|seeds| - 1];
      Closed(g, seeds[..|seeds| - 1]) + (if s in g.nodes then {s} + Neighbors(g, s) else {})
  }

  /**
   * A name is kept exactly when it is a seed that is a node or a neighbour
   * of one; seeds that are not nodes contribute nothing.
   */
  lemma {:induction false} ClosedMember(g: Graph, seeds: seq<Name>, x: Name)
    ensures x in Closed(g, seeds) <==>
      exists i :: 0 <= i < |seeds| && seeds[i] in g.nodes && (x == seeds[i] || x in Neighbors(g, seeds[i]))
    ensures x in Closed(g, seeds) ==> x in g.nodes
  {
    if seeds != [] {
      var last := |seeds| - 1;
      ClosedMember(g, seeds[..last], x);
      if exists i :: 0 <= i < |seeds| && seeds[i] in g.nodes && (x == seeds[i] || x in Neighbors(g, seeds[i])) {
        var i :| 0 <= i < |seeds| && seeds[i] in g.nodes && (x == seeds[i] || x in Neighbors(g, seeds[i]));
        if i < last {
          assert seeds[..last][i] == seeds[i];
        }
      }
      if x in Closed(g, seeds[..last]) {
        var i :| 0 <= i < last && seeds[..last][i] in g.nodes && (x == seeds[..last][i] || x in Neighbors(g, seeds[..last][i]));
        assert seeds[i] == seeds[..last][i];
      }
    }
  }

  /** The inner loop of `extract_subgraph_with_elements`: add every neighbour of `s`. */
  method AddNeighbours(g: Graph, s: Name, keep: set<Name>) returns (keep': set<Name>)
    ensures keep' == keep + Neighbors(g, s)
  {
    keep' := keep;
    var rest := Neighbors(g, s);
    while rest != {}
      invariant rest <= Neighbors(g, s)
      invariant keep' == keep + (Neighbors(g, s) - rest)
      decreases |rest|
    {
      var v :| v in rest;
      keep' := keep' + {v};
      rest := rest - {v};
    }
  }

  /**
   * `extract_subgraph_with_elements`: collect the seeds present in the
   * graph and their neighbours, then take the induced subgraph.
   */
  method ExtractSubgraphWithElements(g: Graph, ingredients: seq<Name>) returns (sub: Graph)
    requires Valid(g)
    ensures sub == Induced(g, Closed(g, ingredients))
  {
    var keep: set<Name> := {};
    for i := 0 to |ingredients|
      invariant keep == Closed(g, ingredients[..i])
    {
      assert ingredients[..i + 1][..i] == ingredients[..i];
      if ingredients[i] in g.nodes {
        keep := keep + {ingredients[i]};
        keep := AddNeighbours(g, ingredients[i], keep);
      }
    }
    assert ingredients[..|ingredients|] == ingredients;
    sub := Induced(g, keep);
  }

  /** The subgraph's nodes are exactly the present seeds and their neighbours. */
  lemma ExtractedNodes(g: Graph, ingredients: seq<Name>, x: Name)
    requires Valid(g)
    ensures x in Induced(g, Closed(g, ingredients)).nodes <==>
      exists i :: 0 <= i < |ingredients| && ingredients[i] in g.nodes && (x == ingredients[i] || x in Neighbors(g, ingredients[i]))
  {
    ClosedMember(g, ingredients, x);
  }
}
