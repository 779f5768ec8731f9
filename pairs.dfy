/**
 * The index pairs i < j of a list, in the order the builders' nested
 * loops visit them (i ascending, then j from i + 1 to the end);
 * `itertools.combinations(xs, 2)` yields the same sequence.
 */
module Pairs {

  /** The pairs (xs[i], xs[m]) for i < m < j, in increasing m. */
  function Row<T>(xs: seq<T>, i: nat, j: nat): (r: seq<(T, T)>)
    requires i < |xs| && j <= |xs|
    decreases j
  {
    if j <= i + 1 then [] else Row(xs, i, j - 1) + [(xs[i], xs[j - 1])]
  }

  /** All rows 0 .. i-1, each run up to the end of the list. */
  function Rows<T>(xs: seq<T>, i: nat): (r: seq<(T, T)>)
    requires i <= |xs|
  {
    if i == 0 then [] else Rows(xs, i - 1) + Row(xs, i - 1, |xs|)
  }

  /** Every index pair i < j of `xs`, row by row. */
  function Combinations<T>(xs: seq<T>): seq<(T, T)>
  {
    Rows(xs, |xs|)
  }

  lemma {:induction false} RowAt<T>(xs: seq<T>, i: nat, j: nat, m: nat)
    requires i < |xs| && i < j <= |xs| && m < j - i - 1
    ensures |Row(xs, i, j)| == j - i - 1
    ensures Row(xs, i, j)[m] == (xs[i], xs[i + 1 + m])
    decreases j
  {
    if m < j - i - 2 {
      RowAt(xs, i, j - 1, m);
    } else {
      RowLength(xs, i, j - 1);
    }
  }

  lemma {:induction false} RowLength<T>(xs: seq<T>, i: nat, j: nat)
    requires i < |xs| && j <= |xs|
    ensures |Row(xs, i, j)| == if j <= i then 0 else j - i - 1
    decreases j
  {
    if j > i + 1 {
      RowLength(xs, i, j - 1);
    }
  }

  lemma {:induction false} RowsLength<T>(xs: seq<T>, i: nat)
    requires i <= |xs|
    ensures 2 * |Rows(xs, i)| == i * (2 * |xs| - i - 1)
  {
    if i > 0 {
      RowsLength(xs, i - 1);
      RowLength(xs, i - 1, |xs|);
      assert |Rows(xs, i)| == |Rows(xs, i - 1)| + (|xs| - i);
      TriangleStep(i, |xs|);
    }
  }

  /** Going from row i-1 to row i adds 2(k-i) to twice the count. */
  lemma TriangleStep(i: int, k: int)
    ensures (i - 1) * (2 * k - (i - 1) - 1) + 2 * (k - i) == i * (2 * k - i - 1)
  {
    assert (i - 1) * (2 * k - i) == i * (2 * k - i) - (2 * k - i);
    assert i * (2 * k - i) - i == i * (2 * k - i - 1);
  }

  /** A list of k elements has exactly k(k-1)/2 index pairs; k <= 1 has none. */
  lemma CombinationsLength<T>(xs: seq<T>)
    ensures 2 * |Combinations(xs)| == |xs| * (|xs| - 1)
    ensures |xs| <= 1 ==> Combinations(xs) == []
  {
    RowsLength(xs, |xs|);
  }

  /** Membership in a row: exactly the pairs (xs[i], xs[m]) with i < m < j. */
  lemma {:induction false} RowMember<T>(xs: seq<T>, i: nat, j: nat, p: (T, T))
    requires i < |xs| && j <= |xs|
    ensures p in Row(xs, i, j) <==> exists m :: i < m < j && p == (xs[i], xs[m])
    decreases j
  {
    if j > i + 1 {
      RowMember(xs, i, j - 1, p);
    }
  }

  lemma {:induction false} RowsMember<T>(xs: seq<T>, i: nat, p: (T, T))
    requires i <= |xs|
    ensures p in Rows(xs, i) <==> exists a, b :: 0 <= a < i && a < b < |xs| && p == (xs[a], xs[b])
  {
    if i > 0 {
      RowsMember(xs, i - 1, p);
      RowMember(xs, i - 1, |xs|, p);
      if p in Row(xs, i - 1, |xs|) {
        var m :| i - 1 < m < |xs| && p == (xs[i - 1], xs[m]);
        assert 0 <= i - 1 < i && i - 1 < m < |xs| && p == (xs[i - 1], xs[m]);
      }
      if exists a, b :: 0 <= a < i && a < b < |xs| && p == (xs[a], xs[b]) {
        var a, b :| 0 <= a < i && a < b < |xs| && p == (xs[a], xs[b]);
        if a == i - 1 {
          assert i - 1 < b < |xs| && p == (xs[i - 1], xs[b]);
        } else {
          assert 0 <= a < i - 1 && a < b < |xs| && p == (xs[a], xs[b]);
        }
      }
    }
  }

  /** The pairs enumerated are exactly the elements at index pairs i < j. */
  lemma CombinationsMember<T>(xs: seq<T>, p: (T, T))
    ensures p in Combinations(xs) <==> exists a, b :: 0 <= a < b < |xs| && p == (xs[a], xs[b])
  {
    RowsMember(xs, |xs|, p);
  }
}
