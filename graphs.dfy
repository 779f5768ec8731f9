/**
 * The undirected networkx graph the recipe code builds and queries.
 *
 * An undirected edge {a, b} is identified by its sorted pair, the key
 * `tuple(sorted([a, b]))` the builders use for their weight counters.
 * Nodes keep their insertion order, as networkx does; an edge may or may
 * not carry a 'weight' attribute; self-loops (a == b) are allowed.
 */
module Graphs {
  import opened PyStr

  type Name = string

  /** A pair of names, normally `Canonical`: the output of `sorted([a, b])`. */
  datatype Key = Key(lo: Name, hi: Name)

  predicate Canonical(k: Key)
  {
    LexLe(k.lo, k.hi)
  }

  /** `tuple(sorted([a, b]))`. */
  function SortedPair(a: Name, b: Name): (k: Key)
    ensures Canonical(k)
    ensures (k.lo == a && k.hi == b) || (k.lo == b && k.hi == a)
  {
    LexLeTotal(a, b);
    if LexLe(a, b) then Key(a, b) else Key(b, a)
  }

  /** The key does not depend on the order of its two names. */
  lemma SortedPairSymmetric(a: Name, b: Name)
    ensures SortedPair(a, b) == SortedPair(b, a)
  {
    LexLeTotal(a, b);
    if LexLe(a, b) && LexLe(b, a) {
      LexLeAntisymmetric(a, b);
    }
  }

  /** Sorting an already sorted pair gives it back. */
  lemma SortedPairOfCanonical(k: Key)
    requires Canonical(k)
    ensures SortedPair(k.lo, k.hi) == k
  {
    if !LexLe(k.lo, k.hi) {
      assert false;
    }
  }

  /** Two keys are equal exactly when they join the same two names. */
  lemma SortedPairInjective(a: Name, b: Name, c: Name, d: Name)
    requires SortedPair(a, b) == SortedPair(c, d)
    ensures (a == c && b == d) || (a == d && b == c)
  {
  }

  predicate Distinct<T(==)>(s: seq<T>)
  {
    forall i, j :: 0 <= i < j < |s| ==> s[i] != s[j]
  }

  /** A networkx `Graph`: ordered node list, edge set, and the 'weight' attributes that are set. */
  datatype Graph = Graph(nodes: seq<Name>, edges: set<Key>, weight: map<Key, nat>)

  ghost predicate Valid(g: Graph)
  {
    && Distinct(g.nodes)
    && (forall k :: k in g.edges ==> Canonical(k) && k.lo in g.nodes && k.hi in g.nodes)
    && g.weight.Keys <= g.edges
  }

  /** `nx.Graph()`. */
  function EmptyGraph(): (g: Graph)
    ensures Valid(g) && g.nodes == [] && g.edges == {}
  {
    Graph([], {}, map[])
  }

  /** `G.add_node(n)`: appends `n` unless it is already a node. */
  function AddNode(g: Graph, n: Name): (r: Graph)
    requires Valid(g)
    ensures Valid(r)
    ensures forall x :: x in r.nodes <==> x in g.nodes || x == n
    ensures n in g.nodes ==> r == g
    ensures r.edges == g.edges && r.weight == g.weight
  {
    if n in g.nodes then g else g.(nodes := g.nodes + [n])
  }

  /** `G.has_edge(a, b)`. */
  predicate HasEdge(g: Graph, a: Name, b: Name)
  {
    SortedPair(a, b) in g.edges
  }

  /** `G.neighbors(v)` as a set; a self-loop makes `v` its own neighbour. */
  function Neighbors(g: Graph, v: Name): (r: set<Name>)
    ensures forall u :: u in r <==> u in g.nodes && HasEdge(g, u, v)
  {
    set u | u in g.nodes && SortedPair(u, v) in g.edges
  }

  /** Adjacency is symmetric: u is a neighbour of v exactly when v is one of u. */
  lemma NeighborsSymmetric(g: Graph, u: Name, v: Name)
    requires u in g.nodes && v in g.nodes
    ensures u in Neighbors(g, v) <==> v in Neighbors(g, u)
  {
    SortedPairSymmetric(u, v);
  }

  /** `G[a][b].get('weight', 1)` for an existing edge. */
  function EdgeWeight(g: Graph, a: Name, b: Name): (w: nat)
    ensures SortedPair(a, b) in g.weight ==> w == g.weight[SortedPair(a, b)]
    ensures SortedPair(a, b) !in g.weight ==> w == 1
  {
    var k := SortedPair(a, b);
    if k in g.weight then g.weight[k] else 1
  }

  /** `G.degree(v)`: networkx counts a self-loop twice. */
  function Degree(g: Graph, v: Name): (d: nat)
    ensures |Neighbors(g, v)| <= d <= |Neighbors(g, v)| + 1
    ensures d == |Neighbors(g, v)| <==> !HasEdge(g, v, v)
  {
    |Neighbors(g, v)| + (if HasEdge(g, v, v) then 1 else 0)
  }

  /** The elements of `s` that lie in `keep`, in their original order. */
  function Filter(s: seq<Name>, keep: set<Name>): (r: seq<Name>)
    ensures forall x :: x in r <==> x in s && x in keep
    ensures Distinct(s) ==> Distinct(r)
    ensures |r| <= |s|
  {
    if s == [] then []
    else
      var rest := Filter(s[1..], keep);
      assert forall x :: x in s[1..] ==> x in s;
      if s[0] in keep then [s[0]] + rest else rest
  }

  /** `G.subgraph(keep)`: the nodes of `keep` that are in G, and the edges among them. */
  function Induced(g: Graph, keep: set<Name>): (r: Graph)
    requires Valid(g)
    ensures Valid(r)
    ensures forall x :: x in r.nodes <==> x in g.nodes && x in keep
    ensures forall k :: k in r.edges <==> k in g.edges && k.lo in keep && k.hi in keep
    ensures forall k :: k in r.edges ==> (k in r.weight <==> k in g.weight)
    ensures forall k :: k in r.weight ==> r.weight[k] == g.weight[k]
  {
    var es := set k | k in g.edges && k.lo in keep && k.hi in keep;
    Graph(Filter(g.nodes, keep), es, map k | k in g.weight && k in es :: g.weight[k])
  }
}
