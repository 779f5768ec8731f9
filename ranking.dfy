/**
 * The ranking step shared by the analyzer's queries: sort the items by a
 * score, highest first, keep the first n, then take the name of each item.
 * Python's sort is stable. The model sorts by insertion, which is stable
 * too, but its contract states only a non-increasing permutation: the order
 * among equal scores is left unstated.
 */
module Ranking {
  import opened Graphs

  /** The length of Python's `s[:n]` for a list of length `len`: a negative n drops that many from the end. */
  function PrefixLength(len: nat, n: int): (k: nat)
    ensures k <= len
  {
    if n >= 0 then (if n <= len then n else len)
    else if len + n >= 0 then len + n else 0
  }

  /** Python's `s[:n]`. */
  function Prefix<T>(s: seq<T>, n: int): seq<T>
  {
    s[..PrefixLength(|s|, n)]
  }

  /** Keys non-increasing from left to right: the order `reverse=True` produces. */
  predicate SortedDesc<T>(s: seq<T>, key: T -> real)
  {
    forall i, j :: 0 <= i < j < |s| ==> key(s[i]) >= key(s[j])
  }

  /**
   * Insert `x` in front of the first element whose key is not larger; an
   * element inserted this way precedes the equal ones after it, which is
   * what stability asks of the element that came first.
   */
  function Insert<T>(x: T, ys: seq<T>, key: T -> real): (r: seq<T>)
    ensures multiset(r) == multiset(ys) + multiset{x}
    ensures |r| == |ys| + 1
  {
    if ys == [] || key(ys[0]) <= key(x) then [x] + ys
    else
      assert ys == [ys[0]] + ys[1..];
      [ys[0]] + Insert(x, ys[1..], key)
  }

  lemma {:induction false} InsertSorted<T>(x: T, ys: seq<T>, key: T -> real)
    requires SortedDesc(ys, key)
    ensures SortedDesc(Insert(x, ys, key), key)
    ensures Insert(x, ys, key) != [] && (Insert(x, ys, key)[0] == x || Insert(x, ys, key)[0] == ys[0])
  {
    if ys == [] || key(ys[0]) <= key(x) {
      ConsSorted(x, ys, key);
    } else {
      var tail := ys[1..];
      assert SortedDesc(tail, key);
      InsertSorted(x, tail, key);
      ConsSorted(ys[0], Insert(x, tail, key), key);
    }
  }

  /** Putting an element no smaller than the head in front keeps the order. */
  lemma ConsSorted<T>(y: T, rest: seq<T>, key: T -> real)
    requires SortedDesc(rest, key) && (rest == [] || key(y) >= key(rest[0]))
    ensures SortedDesc([y] + rest, key)
  {
    var r := [y] + rest;
    forall i, j | 0 <= i < j < |r| ensures key(r[i]) >= key(r[j]) {
      if i == 0 {
        assert r[j] == rest[j - 1];
        assert key(rest[0]) >= key(rest[j - 1]);
      } else {
        assert r[i] == rest[i - 1] && r[j] == rest[j - 1];
      }
    }
  }

  /** `sorted(xs, key=key, reverse=True)`: a permutation of `xs` with non-increasing keys. */
  function SortDesc<T>(xs: seq<T>, key: T -> real): (r: seq<T>)
    ensures multiset(r) == multiset(xs) && |r| == |xs|
    ensures SortedDesc(r, key)
  {
    if xs == [] then []
    else
      var rest := SortDesc(xs[1..], key);
      InsertSorted(xs[0], rest, key);
      assert xs == [xs[0]] + xs[1..];
      Insert(xs[0], rest, key)
  }

  /** No element repeated. */
  lemma {:induction false} DistinctCount<T>(s: seq<T>, x: T)
    requires Distinct(s)
    ensures multiset(s)[x] <= 1
  {
    if s != [] {
      assert s == [s[0]] + s[1..];
      assert Distinct(s[1..]);
      DistinctCount(s[1..], x);
      if s[0] == x {
        assert x !in s[1..];
      }
    }
  }

  /** A sequence in which every element occurs at most once has no repeated element. */
  lemma {:induction false} CountDistinct<T>(s: seq<T>)
    requires forall x :: multiset(s)[x] <= 1
    ensures Distinct(s)
  {
    if s != [] {
      assert s == [s[0]] + s[1..];
      forall x ensures multiset(s[1..])[x] <= 1 {
        assert multiset(s)[x] == multiset([s[0]])[x] + multiset(s[1..])[x];
      }
      CountDistinct(s[1..]);
      assert s[0] !in multiset(s[1..]) by {
        assert multiset(s)[s[0]] == 1 + multiset(s[1..])[s[0]];
      }
      forall i, j | 0 <= i < j < |s| ensures s[i] != s[j] {
        if i == 0 {
          assert s[j] == s[1..][j - 1];
          assert s[j] in multiset(s[1..]);
        } else {
          assert s[i] == s[1..][i - 1] && s[j] == s[1..][j - 1];
        }
      }
    }
  }

  /** A distinct sequence of k elements has a set of k elements. */
  lemma {:induction false} DistinctCardinality<T>(s: seq<T>)
    requires Distinct(s)
    ensures |set x | x in s| == |s|
  {
    if s != [] {
      var last := |s| - 1;
      assert Distinct(s[..last]);
      DistinctCardinality(s[..last]);
      assert (set x | x in s) == (set x | x in s[..last]) + {s[last]};
      assert s[last] !in s[..last];
    }
  }

  /** The score dictionary's `items()`: its keys in insertion order, each with its value. */
  function Items(order: seq<Name>, m: map<Name, real>): (items: seq<(Name, real)>)
    requires forall x :: x in order ==> x in m
    ensures |items| == |order|
  {
    seq(|order|, i requires 0 <= i < |order| => (order[i], m[order[i]]))
  }

  function ByScore(item: (Name, real)): real
  {
    item.1
  }

  /** The list comprehension `[item[0] for item in items]`. */
  function Firsts(items: seq<(Name, real)>): (r: seq<Name>)
    ensures |r| == |items|
  {
    seq(|items|, i requires 0 <= i < |items| => items[i].0)
  }

  /** The names of the first n entries of a score dictionary sorted by score, highest first. */
  function Ranked(order: seq<Name>, m: map<Name, real>, n: int): seq<Name>
    requires forall x :: x in order ==> x in m
  {
    Firsts(Prefix(SortDesc(Items(order, m), ByScore), n))
  }

  /** Every item of the sorted list is a key of the dictionary paired with its value. */
  lemma SortedItems(order: seq<Name>, m: map<Name, real>, s: seq<(Name, real)>, j: nat)
    requires forall x :: x in order ==> x in m
    requires multiset(s) == multiset(Items(order, m)) && j < |s|
    ensures s[j].0 in m && s[j].1 == m[s[j].0] && s[j].0 in order
  {
    assert s[j] in multiset(Items(order, m));
    var i :| 0 <= i < |order| && Items(order, m)[i] == s[j];
  }

  /** The sorted items of a dictionary whose keys are listed once each are all different. */
  lemma SortedItemsDistinct(order: seq<Name>, m: map<Name, real>, s: seq<(Name, real)>)
    requires Distinct(order) && forall x :: x in order ==> x in m
    requires multiset(s) == multiset(Items(order, m))
    ensures Distinct(s)
  {
    var items := Items(order, m);
    assert Distinct(items) by {
      forall a, b | 0 <= a < b < |items| ensures items[a] != items[b] {
        assert items[a].0 == order[a] && items[b].0 == order[b];
      }
    }
    forall p ensures multiset(s)[p] <= 1 {
      DistinctCount(items, p);
    }
    CountDistinct(s);
  }

  /**
   * The recommendations over a dictionary with keys `order` (each once)
   * and values `m`: distinct keys of `m`, in non-increasing score order,
   * and as many as the slice allows.
   */
  lemma RankedProperties(order: seq<Name>, m: map<Name, real>, n: int)
    requires Distinct(order) && forall x :: x in order <==> x in m
    ensures Distinct(Ranked(order, m, n))
    ensures forall x :: x in Ranked(order, m, n) ==> x in m
    ensures |Ranked(order, m, n)| == PrefixLength(|m|, n)
    ensures forall i, j :: 0 <= i < j < |Ranked(order, m, n)| ==> m[Ranked(order, m, n)[i]] >= m[Ranked(order, m, n)[j]]
  {
    var s := SortDesc(Items(order, m), ByScore);
    var k := PrefixLength(|s|, n);
    var r := Ranked(order, m, n);
    assert |r| == k && forall i :: 0 <= i < k ==> r[i] == s[i].0;
    assert m.Keys == set x | x in order;
    DistinctCardinality(order);
    forall j | 0 <= j < |s| ensures s[j].0 in m && s[j].1 == m[s[j].0] {
      SortedItems(order, m, s, j);
    }
    SortedItemsDistinct(order, m, s);
    forall i, j | 0 <= i < j < k ensures r[i] != r[j] {
      assert s[i] != s[j];
    }
    forall i, j | 0 <= i < j < k ensures m[r[i]] >= m[r[j]] {
      assert ByScore(s[i]) >= ByScore(s[j]);
    }
  }

  /** No key left out of the recommendations scores higher than one taken. */
  lemma RankedTop(order: seq<Name>, m: map<Name, real>, n: int)
    requires forall x :: x in order <==> x in m
    ensures forall x :: x in Ranked(order, m, n) ==> x in m
    ensures forall v, i :: v in m && v !in Ranked(order, m, n) && 0 <= i < |Ranked(order, m, n)| ==> m[v] <= m[Ranked(order, m, n)[i]]
  {
    var items := Items(order, m);
    var s := SortDesc(items, ByScore);
    var k := PrefixLength(|s|, n);
    var r := Ranked(order, m, n);
    assert |r| == k && forall i :: 0 <= i < k ==> r[i] == s[i].0;
    forall j | 0 <= j < |s| ensures s[j].0 in m && s[j].1 == m[s[j].0] {
      SortedItems(order, m, s, j);
    }
    forall v, i | v in m && v !in r && 0 <= i < k ensures m[v] <= m[r[i]] {
      var a :| 0 <= a < |order| && order[a] == v;
      assert items[a] == (v, m[v]);
      assert items[a] in multiset(s);
      var j :| 0 <= j < |s| && s[j] == (v, m[v]);
      assert j >= k;
      assert ByScore(s[i]) >= ByScore(s[j]);
    }
  }

  /** An insertion-ordered dict from names to scores: `order` lists each key once, in insertion order. */
  datatype ScoreDict = ScoreDict(order: seq<Name>, scores: map<Name, real>)

  ghost predicate WellFormed(d: ScoreDict)
  {
    Distinct(d.order) && forall x :: x in d.order <==> x in d.scores
  }

  /** `{}` or `defaultdict(int)`. */
  function EmptyDict(): (d: ScoreDict)
    ensures WellFormed(d) && d.scores == map[]
  {
    ScoreDict([], map[])
  }

  /**
   * Adding `x` to the score of `k`, on a defaultdict or on a plain dict
   * that sets a missing key: a new key goes last in the order.
   */
  function AddTo(d: ScoreDict, k: Name, x: real): (r: ScoreDict)
    requires WellFormed(d)
    ensures WellFormed(r)
    ensures r.scores == d.scores[k := (if k in d.scores then d.scores[k] else 0.0) + x]
  {
    if k in d.scores then ScoreDict(d.order, d.scores[k := d.scores[k] + x])
    else ScoreDict(d.order + [k], d.scores[k := x])
  }

  /** `del d[k]` when `k in d`, and `d.pop(k, None)`: the other keys keep their order. */
  function Discard(d: ScoreDict, k: Name): (r: ScoreDict)
    requires WellFormed(d)
    ensures WellFormed(r)
    ensures r.scores == d.scores - {k}
  {
    ScoreDict(Filter(d.order, d.scores.Keys - {k}), d.scores - {k})
  }
}
