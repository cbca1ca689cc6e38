/**
 * Ranking positions by score. Both rankings in the retriever are sorts of
 * positions `0..n-1` by a score, higher first, with a fixed tie-break:
 *  - BM25 (`np.argsort(scores)[::-1]`): equal scores, higher position first;
 *  - RRF fusion (`sorted(keys, key=score, reverse=True)`, a stable sort):
 *    equal scores, lower position (earlier insertion) first.
 * Either rule is a strict total order on positions, so the ranking is the one
 * permutation of `0..n-1` that is sorted by it.
 */
module Ranking {

  /** Position `i` ranks before position `j`. */
  predicate Before(sc: seq<real>, lowFirst: bool, i: nat, j: nat)
    requires i < |sc| && j < |sc|
  {
    sc[i] > sc[j] || (sc[i] == sc[j] && (if lowFirst then i < j else i > j))
  }

  predicate InRange(s: seq<nat>, n: nat) {
    forall k :: 0 <= k < |s| ==> s[k] < n
  }

  /** Every earlier entry ranks before every later one. */
  predicate SortedBy(sc: seq<real>, lowFirst: bool, s: seq<nat>)
    requires InRange(s, |sc|)
  {
    forall a, b :: 0 <= a < b < |s| ==> Before(sc, lowFirst, s[a], s[b])
  }

  lemma BeforeTotal(sc: seq<real>, lowFirst: bool, i: nat, j: nat)
    requires i < |sc| && j < |sc| && i != j
    ensures Before(sc, lowFirst, i, j) || Before(sc, lowFirst, j, i)
  {
  }

  lemma BeforeTransitive(sc: seq<real>, lowFirst: bool, i: nat, j: nat, k: nat)
    requires i < |sc| && j < |sc| && k < |sc|
    requires Before(sc, lowFirst, i, j) && Before(sc, lowFirst, j, k)
    ensures Before(sc, lowFirst, i, k)
  {
  }

  /** Insert position `x` in front of the first entry it ranks before. */
  function Insert(sc: seq<real>, lowFirst: bool, x: nat, s: seq<nat>): (r: seq<nat>)
    requires x < |sc| && InRange(s, |sc|)
    ensures InRange(r, |sc|)
    ensures |r| == |s| + 1
  {
    if s == [] then [x]
    else if Before(sc, lowFirst, x, s[0]) then [x] + s
    else [s[0]] + Insert(sc, lowFirst, x, s[1..])
  }

  /** Inserting adds exactly `x`: the result holds `x` and the entries of `s`, and nothing else. */
  lemma {:induction false} InsertElements(sc: seq<real>, lowFirst: bool, x: nat, s: seq<nat>)
    requires x < |sc| && InRange(s, |sc|)
    ensures forall y :: y in Insert(sc, lowFirst, x, s) <==> y == x || y in s
    decreases |s|
  {
    if s != [] && !Before(sc, lowFirst, x, s[0]) {
      InsertElements(sc, lowFirst, x, s[1..]);
      assert s == [s[0]] + s[1..];
    }
  }

  /** Inserting a position below `bound` into positions below `bound` keeps them below it. */
  lemma InsertInRange(sc: seq<real>, lowFirst: bool, x: nat, s: seq<nat>, bound: nat)
    requires x < |sc| && InRange(s, |sc|)
    requires x < bound && InRange(s, bound)
    ensures InRange(Insert(sc, lowFirst, x, s), bound)
  {
    InsertElements(sc, lowFirst, x, s);
    var r := Insert(sc, lowFirst, x, s);
    forall k | 0 <= k < |r| ensures r[k] < bound {
      assert r[k] in r;
    }
  }

  lemma {:induction false} InsertSorted(sc: seq<real>, lowFirst: bool, x: nat, s: seq<nat>)
    requires x < |sc| && InRange(s, |sc|) && InRange(s, x)
    requires SortedBy(sc, lowFirst, s)
    ensures SortedBy(sc, lowFirst, Insert(sc, lowFirst, x, s))
    decreases |s|
  {
    if s == [] {
    } else if Before(sc, lowFirst, x, s[0]) {
      var r := [x] + s;
      forall a, b | 0 <= a < b < |r| ensures Before(sc, lowFirst, r[a], r[b]) {
        if a == 0 && b > 1 {
          BeforeTransitive(sc, lowFirst, x, s[0], s[b - 1]);
        }
      }
    } else {
      var tail := Insert(sc, lowFirst, x, s[1..]);
      InsertSorted(sc, lowFirst, x, s[1..]);
      InsertElements(sc, lowFirst, x, s[1..]);
      BeforeTotal(sc, lowFirst, x, s[0]);
      var r := [s[0]] + tail;
      forall a, b | 0 <= a < b < |r| ensures Before(sc, lowFirst, r[a], r[b]) {
        if a == 0 {
          assert r[b] in tail;
          if r[b] != x {
            var c :| 0 <= c < |s[1..]| && s[1..][c] == r[b];
            assert s[c + 1] == r[b];
          }
        }
      }
    }
  }

  /** The positions `0..n-1` in ranking order. */
  function RankPrefix(sc: seq<real>, lowFirst: bool, n: nat): (r: seq<nat>)
    requires n <= |sc|
    ensures InRange(r, n)
    ensures |r| == n
  {
    if n == 0 then []
    else
      var prev := RankPrefix(sc, lowFirst, n - 1);
      InsertInRange(sc, lowFirst, n - 1, prev, n);
      Insert(sc, lowFirst, n - 1, prev)
  }

  /** Ranking the positions `0..n-1` lists every one of them. */
  lemma {:induction false} RankPrefixAll(sc: seq<real>, lowFirst: bool, n: nat)
    requires n <= |sc|
    ensures forall i :: 0 <= i < n ==> i in RankPrefix(sc, lowFirst, n)
  {
    if n > 0 {
      var prev := RankPrefix(sc, lowFirst, n - 1);
      assert RankPrefix(sc, lowFirst, n) == Insert(sc, lowFirst, n - 1, prev);
      RankPrefixAll(sc, lowFirst, n - 1);
      InsertElements(sc, lowFirst, n - 1, prev);
    }
  }

  /** All positions of `sc`, best first. */
  function Rank(sc: seq<real>, lowFirst: bool): (r: seq<nat>)
    ensures |r| == |sc|
  {
    RankPrefix(sc, lowFirst, |sc|)
  }

  lemma {:induction false} RankPrefixSorted(sc: seq<real>, lowFirst: bool, n: nat)
    requires n <= |sc|
    ensures SortedBy(sc, lowFirst, RankPrefix(sc, lowFirst, n))
  {
    if n > 0 {
      var prev := RankPrefix(sc, lowFirst, n - 1);
      assert RankPrefix(sc, lowFirst, n) == Insert(sc, lowFirst, n - 1, prev);
      RankPrefixSorted(sc, lowFirst, n - 1);
      InsertSorted(sc, lowFirst, n - 1, prev);
    }
  }

  /**
   * The ranking is a permutation of the positions (each exactly once) sorted by
   * score, best first, with the tie-break of `Before`.
   */
  lemma RankIsSortedPermutation(sc: seq<real>, lowFirst: bool)
    ensures |Rank(sc, lowFirst)| == |sc|
    ensures InRange(Rank(sc, lowFirst), |sc|)
    ensures forall i :: 0 <= i < |sc| ==> i in Rank(sc, lowFirst)
    ensures SortedBy(sc, lowFirst, Rank(sc, lowFirst))
  {
    RankPrefixSorted(sc, lowFirst, |sc|);
    RankPrefixAll(sc, lowFirst, |sc|);
  }

  /** A sorted sequence has no repeated position. */
  lemma SortedDistinct(sc: seq<real>, lowFirst: bool, s: seq<nat>)
    requires InRange(s, |sc|) && SortedBy(sc, lowFirst, s)
    ensures forall a, b :: 0 <= a < b < |s| ==> s[a] != s[b]
  {
  }

  /** In a sorted sequence, an entry that ranks before another sits earlier. */
  lemma SortedOrderRespected(sc: seq<real>, lowFirst: bool, s: seq<nat>, a: nat, b: nat)
    requires InRange(s, |sc|) && SortedBy(sc, lowFirst, s)
    requires a < |s| && b < |s|
    requires Before(sc, lowFirst, s[a], s[b])
    ensures a < b
  {
  }

  /** The entries of `c` in ranking order. */
  function Arrange<T>(c: seq<T>, rank: seq<nat>): (o: seq<T>)
    requires InRange(rank, |c|)
    ensures |o| == |rank|
    ensures forall j :: 0 <= j < |rank| ==> o[j] == c[rank[j]]
  {
    seq(|rank|, j requires 0 <= j < |rank| => c[rank[j]])
  }

  /** Arranging by a ranking of `c`'s own positions keeps exactly the entries of `c`, each once if they were distinct. */
  lemma ArrangePermutation<T>(c: seq<T>, sc: seq<real>, lowFirst: bool)
    requires |sc| == |c|
    ensures forall x :: x in Arrange(c, Rank(sc, lowFirst)) <==> x in c
    ensures (forall a, b :: 0 <= a < b < |c| ==> c[a] != c[b]) ==>
      forall a, b :: 0 <= a < b < |c| ==> Arrange(c, Rank(sc, lowFirst))[a] != Arrange(c, Rank(sc, lowFirst))[b]
  {
    var rank := Rank(sc, lowFirst);
    RankIsSortedPermutation(sc, lowFirst);
    SortedDistinct(sc, lowFirst, rank);
    var o := Arrange(c, rank);
    forall x | x in c ensures x in o {
      var p :| 0 <= p < |c| && c[p] == x;
      assert p in rank;
      var j :| 0 <= j < |rank| && rank[j] == p;
      assert o[j] == x;
    }
  }

  /** `TopK`: the first `min(k, n)` positions of the ranking. */
  function TopK(sc: seq<real>, lowFirst: bool, k: nat): (r: seq<nat>)
    ensures InRange(r, |sc|)
  {
    var order := Rank(sc, lowFirst);
    if k <= |order| then order[..k] else order
  }

  /** A prefix of the ranking outranks everything after it. */
  lemma PrefixOutranksRest(sc: seq<real>, lowFirst: bool, m: nat, a: nat, j: nat)
    requires m <= |sc| && a < m && j < |sc|
    requires j !in Rank(sc, lowFirst)[..m]
    ensures sc[j] <= sc[Rank(sc, lowFirst)[a]]
  {
    var order := Rank(sc, lowFirst);
    RankIsSortedPermutation(sc, lowFirst);
    assert j in order;
    var p :| 0 <= p < |order| && order[p] == j;
    assert Before(sc, lowFirst, order[a], order[p]);
  }

  /**
   * Top-k selection: `min(k, n)` distinct positions, scores non-increasing,
   * and no position left out scores higher than one taken.
   */
  lemma TopKSpec(sc: seq<real>, lowFirst: bool, k: nat)
    ensures |TopK(sc, lowFirst, k)| == if k <= |sc| then k else |sc|
    ensures forall a, b :: 0 <= a < b < |TopK(sc, lowFirst, k)| ==>
      TopK(sc, lowFirst, k)[a] != TopK(sc, lowFirst, k)[b]
    ensures forall a, b :: 0 <= a < b < |TopK(sc, lowFirst, k)| ==>
      sc[TopK(sc, lowFirst, k)[a]] >= sc[TopK(sc, lowFirst, k)[b]]
    ensures forall a, j :: 0 <= a < |TopK(sc, lowFirst, k)| && 0 <= j < |sc| && j !in TopK(sc, lowFirst, k) ==>
      sc[j] <= sc[TopK(sc, lowFirst, k)[a]]
  {
    var order := Rank(sc, lowFirst);
    RankIsSortedPermutation(sc, lowFirst);
    var r := TopK(sc, lowFirst, k);
    assert r == order[..|r|];
    assert SortedBy(sc, lowFirst, r);
    SortedDistinct(sc, lowFirst, r);
    forall a, j | 0 <= a < |r| && 0 <= j < |sc| && j !in r ensures sc[j] <= sc[r[a]] {
      PrefixOutranksRest(sc, lowFirst, |r|, a, j);
    }
  }
}
