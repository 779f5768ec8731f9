/**
 * The part of the pyvis conversion the builders perform themselves:
 * `nt.from_nx(G)` lists one edge dict per graph edge, and a loop over
 * those dicts sorts each edge's two endpoints into a key and sets the
 * edge's "value" (its drawn thickness) from `edge_weights`, either with a
 * default of 0 for a missing key or with a direct lookup that raises
 * KeyError. `from_nx` also rewrites G itself: it moves every edge's
 * 'weight' attribute into the edge's 'width'.
 */
module Pyvis {
  import opened Graphs
  import opened CoOccurrence
  import opened Outcomes

  /** One edge dict of `nt.edges`: its "from", "to" and (once set) "value". */
  datatype VisEdge = VisEdge(src: Name, dst: Name, value: Option<nat>)

  function KeyOf(e: VisEdge): Key
  {
    SortedPair(e.src, e.dst)
  }

  /** The keys of a list of edge dicts. */
  function EdgeKeys(es: seq<VisEdge>): set<Key>
  {
    set e | e in es :: KeyOf(e)
  }

  /** One more edge dict adds its key. */
  lemma EdgeKeysSnoc(es: seq<VisEdge>, e: VisEdge)
    ensures EdgeKeys(es + [e]) == EdgeKeys(es) + {KeyOf(e)}
  {
  }

  /** A Network with no edge dicts has no keys, so `from_nx` draws every edge on it. */
  lemma DrawnOnEmpty(edges: set<Key>)
    ensures EdgeKeys([]) == {}
    ensures EdgeKeys([]) + edges == edges && |edges - EdgeKeys([])| == |edges|
  {
    assert edges - EdgeKeys([]) == edges;
  }

  /**
   * G as `nt.from_nx(G)` leaves it. For each edge, `from_nx` pops the
   * 'weight' attribute (setting it to 1 first where it is missing) and
   * stores it as the edge's 'width'. So no edge keeps a 'weight'.
   */
  function WeightsMoved(g: Graph): (h: Graph)
    ensures h.nodes == g.nodes && h.edges == g.edges
    ensures Valid(g) ==> Valid(h)
    ensures forall k :: k !in h.weight
  {
    g.(weight := map[])
  }

  /** After `from_nx`, `G[a][b].get('weight', 1)` reads 1 on every edge, whatever it was before. */
  lemma WeightsMovedReadOne(g: Graph, a: Name, b: Name)
    ensures EdgeWeight(WeightsMoved(g), a, b) == 1
  {
  }

  /**
   * `nt.from_nx(G)` on a Network that already holds the edge dicts `nt`.
   * The Network is created once per object and `from_nx` only adds to it;
   * pyvis's `add_edge` skips an edge whose two end points an existing dict
   * already joins, in either direction, as the Network is undirected. So
   * the dicts held stay where they are and one unvalued dict is appended
   * for each edge of G not drawn yet. `moved` is G after the call.
   */
  method FromNx(nt: seq<VisEdge>, g: Graph) returns (es: seq<VisEdge>, moved: Graph)
    requires forall k :: k in g.edges ==> Canonical(k)
    ensures moved == WeightsMoved(g)
    ensures |nt| <= |es| && es[..|nt|] == nt
    ensures forall e :: e in es[|nt|..] ==> KeyOf(e) in g.edges - EdgeKeys(nt) && e.value == None
    ensures EdgeKeys(es) == EdgeKeys(nt) + g.edges
    ensures |es| == |nt| + |g.edges - EdgeKeys(nt)|
  {
    var undrawn := g.edges - EdgeKeys(nt);
    var added := NewEdges(undrawn);
    es := nt + added;
    EdgeKeysAppend(nt, added);
    assert es[..|nt|] == nt && es[|nt|..] == added;
    moved := WeightsMoved(g);
  }

  /** The dicts `add_edge` appends: one unvalued dict per key, in some order. */
  method NewEdges(keys: set<Key>) returns (es: seq<VisEdge>)
    requires forall k :: k in keys ==> Canonical(k)
    ensures forall e :: e in es ==> KeyOf(e) in keys && e.value == None
    ensures EdgeKeys(es) == keys
    ensures |es| == |keys|
  {
    es := [];
    var rest := keys;
    while rest != {}
      invariant rest <= keys
      invariant forall e :: e in es ==> KeyOf(e) in keys && e.value == None
      invariant EdgeKeys(es) == keys - rest
      invariant |es| + |rest| == |keys|
      decreases rest
    {
      var k :| k in rest;
      var e := VisEdge(k.lo, k.hi, None);
      SortedPairOfCanonical(k);
      assert KeyOf(e) == k;
      EdgeKeysSnoc(es, e);
      es := es + [e];
      rest := rest - {k};
    }
  }

  /** The keys of two runs of dicts are the keys of each. */
  lemma EdgeKeysAppend(a: seq<VisEdge>, b: seq<VisEdge>)
    ensures EdgeKeys(a + b) == EdgeKeys(a) + EdgeKeys(b)
  {
    forall e | e in a + b ensures KeyOf(e) in EdgeKeys(a) + EdgeKeys(b) {
      assert e in a || e in b;
    }
  }

  /** The loop of creategraph.py: every edge gets its counter, or 0 for a pair never counted. */
  method SetValuesOrZero(es: seq<VisEdge>, w: Weights) returns (r: seq<VisEdge>)
    ensures |r| == |es|
    ensures forall i :: 0 <= i < |es| ==> r[i].src == es[i].src && r[i].dst == es[i].dst
    ensures forall i :: 0 <= i < |es| ==> r[i].value == Some(if KeyOf(es[i]) in w then w[KeyOf(es[i])] else 0)
    ensures forall i :: 0 <= i < |r| ==> r[i].value == Some(Get(w, KeyOf(r[i])))
    ensures EdgeKeys(r) == EdgeKeys(es)
  {
    r := es;
    var i := 0;
    while i < |r|
      invariant 0 <= i <= |r| == |es|
      invariant forall m :: 0 <= m < i ==> r[m] == es[m].(value := Some(Get(w, KeyOf(es[m]))))
      invariant forall m :: i <= m < |r| ==> r[m] == es[m]
    {
      var key := SortedPair(r[i].src, r[i].dst);
      var weight := Get(w, key);
      r := r[i := r[i].(value := Some(weight))];
      i := i + 1;
    }
    SameKeys(es, r);
  }

  /**
   * The loop with `edge_weights[edge_key]`: it stops with KeyError at the
   * first edge whose key was never counted, having set the values before it.
   */
  method SetValuesStrict(es: seq<VisEdge>, w: Weights) returns (r: seq<VisEdge>, ok: bool)
    ensures |r| == |es|
    ensures forall i :: 0 <= i < |es| ==> r[i].src == es[i].src && r[i].dst == es[i].dst
    ensures ok <==> forall i :: 0 <= i < |es| ==> KeyOf(es[i]) in w
    ensures ok ==> forall i :: 0 <= i < |es| ==> r[i] == es[i].(value := Some(w[KeyOf(es[i])]))
    ensures !ok ==> exists f :: (0 <= f < |es| && KeyOf(es[f]) !in w
      && (forall m :: 0 <= m < f ==> KeyOf(es[m]) in w && r[m] == es[m].(value := Some(w[KeyOf(es[m])])))
      && (forall m :: f <= m < |es| ==> r[m] == es[m]))
  {
    r := es;
    var i := 0;
    while i < |r|
      invariant 0 <= i <= |r| == |es|
      invariant forall m :: 0 <= m < i ==> KeyOf(es[m]) in w && r[m] == es[m].(value := Some(w[KeyOf(es[m])]))
      invariant forall m :: i <= m < |r| ==> r[m] == es[m]
    {
      var key := SortedPair(r[i].src, r[i].dst);
      if key !in w {
        return r, false;
      }
      r := r[i := r[i].(value := Some(w[key]))];
      i := i + 1;
    }
    return r, true;
  }

  /** Changing only values keeps the set of edge keys. */
  lemma SameKeys(es: seq<VisEdge>, r: seq<VisEdge>)
    requires |r| == |es|
    requires forall i :: 0 <= i < |es| ==> r[i].src == es[i].src && r[i].dst == es[i].dst
    ensures EdgeKeys(r) == EdgeKeys(es)
  {
    forall e | e in r ensures KeyOf(e) in EdgeKeys(es) {
      var i :| 0 <= i < |r| && r[i] == e;
      assert KeyOf(e) == KeyOf(es[i]) && es[i] in es;
    }
    forall e | e in es ensures KeyOf(e) in EdgeKeys(r) {
      var i :| 0 <= i < |es| && es[i] == e;
      assert KeyOf(e) == KeyOf(r[i]) && r[i] in r;
    }
  }

  /** Every edge dict has a counter exactly when every key of the dicts is a counter key. */
  lemma AllCounted(es: seq<VisEdge>, w: Weights)
    ensures (forall i :: 0 <= i < |es| ==> KeyOf(es[i]) in w) <==> EdgeKeys(es) <= w.Keys
  {
    if forall i :: 0 <= i < |es| ==> KeyOf(es[i]) in w {
      forall k | k in EdgeKeys(es) ensures k in w {
        var e :| e in es && KeyOf(e) == k;
        var i :| 0 <= i < |es| && es[i] == e;
      }
    }
    if EdgeKeys(es) <= w.Keys {
      forall i | 0 <= i < |es| ensures KeyOf(es[i]) in w {
        assert es[i] in es;
      }
    }
  }

  /**
   * `nt.from_nx(G)` followed by the loop with `edge_weights[edge_key]`
   * (create_graph.py, create_graph2.py), on a Network holding `nt`: the
   * loop walks every dict, earlier ones included, so it succeeds exactly
   * when every edge drawn so far is a key of `edge_weights`.
   */
  method ConvertStrict(nt: seq<VisEdge>, g: Graph, w: Weights) returns (ntEdges: seq<VisEdge>, moved: Graph, ok: bool)
    requires Valid(g)
    ensures moved == WeightsMoved(g)
    ensures |ntEdges| == |nt| + |g.edges - EdgeKeys(nt)| && EdgeKeys(ntEdges) == EdgeKeys(nt) + g.edges
    ensures forall i :: 0 <= i < |nt| ==> ntEdges[i].src == nt[i].src && ntEdges[i].dst == nt[i].dst
    ensures ok <==> EdgeKeys(nt) + g.edges <= w.Keys
    ensures g.edges <= w.Keys ==> (ok <==> EdgeKeys(nt) <= w.Keys)
    ensures nt == [] && g.edges <= w.Keys ==> ok
    ensures ok ==> forall i :: 0 <= i < |ntEdges| ==> (KeyOf(ntEdges[i]) in w
      && ntEdges[i].value == Some(w[KeyOf(ntEdges[i])]))
  {
    var es;
    es, moved := FromNx(nt, g);
    assert forall i :: 0 <= i < |nt| ==> es[i] == es[..|nt|][i];
    ntEdges, ok := SetValuesStrict(es, w);
    SameKeys(es, ntEdges);
    AllCounted(es, w);
    DrawnOnEmpty(g.edges);
  }

  /**
   * `nt.from_nx(G)` followed by the loop with `edge_weights.get(edge_key, 0)`
   * (creategraph.py), on a Network holding `nt`: every dict drawn so far is
   * valued by its counter, or 0.
   */
  method ConvertOrZero(nt: seq<VisEdge>, g: Graph, w: Weights) returns (ntEdges: seq<VisEdge>, moved: Graph)
    requires Valid(g)
    ensures moved == WeightsMoved(g)
    ensures nt == [] ==> |ntEdges| == |g.edges| && EdgeKeys(ntEdges) == g.edges
    ensures |ntEdges| == |nt| + |g.edges - EdgeKeys(nt)| && EdgeKeys(ntEdges) == EdgeKeys(nt) + g.edges
    ensures forall i :: 0 <= i < |nt| ==> ntEdges[i].src == nt[i].src && ntEdges[i].dst == nt[i].dst
    ensures forall i :: 0 <= i < |ntEdges| ==> ntEdges[i].value == Some(Get(w, KeyOf(ntEdges[i])))
  {
    var es;
    es, moved := FromNx(nt, g);
    assert forall i :: 0 <= i < |nt| ==> es[i] == es[..|nt|][i];
    DrawnOnEmpty(g.edges);
    ntEdges := SetValuesOrZero(es, w);
  }
}
