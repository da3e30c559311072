/** Ordering by score and Python's prefix slice: the parts of `list.sort`
    (stable, `reverse=True`) and `s[:n]` that the pipeline relies on. */
module Ranking {

  /** Python's `s[:n]`: a negative `n` counts from the end. */
  function Take<T>(s: seq<T>, n: int): seq<T> {
    if n >= 0 then (if n <= |s| then s[..n] else s)
    else if -n <= |s| then s[..|s| + n]
    else []
  }

  /** `Take` is a prefix; for `n >= 0` it has `min(n, |s|)` elements. */
  lemma TakeIsPrefix<T>(s: seq<T>, n: int)
    ensures |Take(s, n)| <= |s| && Take(s, n) == s[..|Take(s, n)|]
    ensures n >= 0 ==> |Take(s, n)| == (if n <= |s| then n else |s|)
    ensures n < 0 ==> |Take(s, n)| == (if -n <= |s| then |s| + n else 0)
  {
  }

  /** The positions 0 .. n-1 in order. */
  function Positions(n: nat): (ps: seq<nat>)
    ensures |ps| == n
    ensures forall k :: 0 <= k < n ==> ps[k] == k
  {
    if n == 0 then [] else Positions(n - 1) + [n - 1]
  }

  /** Position `x` comes before position `y` in a stable descending sort by
      score: a higher score first, equal scores in their original order. */
  predicate Before(scores: seq<real>, x: nat, y: nat) {
    x < |scores| && y < |scores| &&
    (scores[x] > scores[y] || (scores[x] == scores[y] && x < y))
  }

  /** Every earlier entry comes `Before` every later one. */
  predicate Chain(scores: seq<real>, order: seq<nat>) {
    forall i, j :: 0 <= i < j < |order| ==> Before(scores, order[i], order[j])
  }

  /** `order` is what a stable sort with `reverse=True` makes of the positions
      of `scores`: a permutation of them, best score first, ties in input order. */
  predicate IsRanking(scores: seq<real>, order: seq<nat>) {
    multiset(order) == multiset(Positions(|scores|)) && Chain(scores, order)
  }

  /** The ranking of the first `n` positions, built by inserting each position
      after every earlier one whose score is at least its own. */
  function RankPrefix(scores: seq<real>, n: nat): (order: seq<nat>)
    requires n <= |scores|
    ensures |order| == n
    ensures forall k :: 0 <= k < n ==> order[k] < n
  {
    if n == 0 then [] else Insert(scores, RankPrefix(scores, n - 1), n - 1)
  }

  /** `order` with position `p` placed after every leading entry whose score is
      at least that of `p`. */
  function Insert(scores: seq<real>, order: seq<nat>, p: nat): (r: seq<nat>)
    requires p < |scores|
    requires forall k :: 0 <= k < |order| ==> order[k] < p
    ensures |r| == |order| + 1
    ensures forall k :: 0 <= k < |r| ==> r[k] <= p
    decreases |order|
  {
    if order == [] || scores[order[0]] < scores[p] then [p] + order
    else [order[0]] + Insert(scores, order[1..], p)
  }

  /** The positions of `scores`, best score first, ties in input order. */
  function Rank(scores: seq<real>): (order: seq<nat>)
    ensures |order| == |scores|
    ensures forall k :: 0 <= k < |order| ==> order[k] < |scores|
  {
    RankPrefix(scores, |scores|)
  }

  /** Insertion adds exactly the one new position. */
  lemma {:induction false} InsertMultiset(scores: seq<real>, order: seq<nat>, p: nat)
    requires p < |scores|
    requires forall k :: 0 <= k < |order| ==> order[k] < p
    ensures multiset(Insert(scores, order, p)) == multiset(order) + multiset{p}
    decreases |order|
  {
    if order != [] && scores[order[0]] >= scores[p] {
      InsertMultiset(scores, order[1..], p);
      assert order == [order[0]] + order[1..];
    }
  }

  /** A head that comes `Before` everything after it, followed by a chain, is a chain. */
  lemma ChainCons(scores: seq<real>, a: nat, rest: seq<nat>)
    requires forall x :: x in rest ==> Before(scores, a, x)
    requires Chain(scores, rest)
    ensures Chain(scores, [a] + rest)
  {
    var order := [a] + rest;
    forall i, j | 0 <= i < j < |order| ensures Before(scores, order[i], order[j]) {
      assert order[j] == rest[j - 1];
      if i == 0 {
        assert rest[j - 1] in rest;
      } else {
        assert order[i] == rest[i - 1];
      }
    }
  }

  /** Inserting a new, larger position into a chain keeps it a chain. */
  lemma {:induction false} InsertKeepsChain(scores: seq<real>, order: seq<nat>, p: nat)
    requires p < |scores|
    requires forall k :: 0 <= k < |order| ==> order[k] < p
    requires Chain(scores, order)
    ensures Chain(scores, Insert(scores, order, p))
    decreases |order|
  {
    if order == [] || scores[order[0]] < scores[p] {
      forall x | x in order ensures Before(scores, p, x) {
        var k :| 0 <= k < |order| && order[k] == x;
        if k > 0 { assert Before(scores, order[0], order[k]); }
      }
      ChainCons(scores, p, order);
    } else {
      var tail := order[1..];
      var rest := Insert(scores, tail, p);
      ChainTail(scores, order);
      InsertKeepsChain(scores, tail, p);
      InsertMultiset(scores, tail, p);
      forall x | x in rest ensures Before(scores, order[0], x) {
        assert x in multiset(rest);
        if x != p {
          assert x in multiset(tail);
          var k :| 0 <= k < |tail| && tail[k] == x;
          assert Before(scores, order[0], order[k + 1]);
        }
      }
      ChainCons(scores, order[0], rest);
    }
  }

  /** The ranking of the first `n` positions holds each of them once and
      orders them by `Before`. */
  predicate RankedPrefix(scores: seq<real>, n: nat)
    requires n <= |scores|
  {
    multiset(RankPrefix(scores, n)) == multiset(Positions(n)) && Chain(scores, RankPrefix(scores, n))
  }

  /** Every prefix ranking is a stable descending ordering of its positions. */
  lemma {:induction false} RankPrefixIsRanking(scores: seq<real>, n: nat)
    requires n <= |scores|
    ensures RankedPrefix(scores, n)
  {
    if n > 0 {
      RankPrefixIsRanking(scores, n - 1);
      RankStep(scores, n);
    }
  }

  /** Inserting position `n - 1` into the ranking of the positions before it
      gives the ranking of the first `n` positions. */
  lemma RankStep(scores: seq<real>, n: nat)
    requires 0 < n <= |scores|
    requires RankedPrefix(scores, n - 1)
    ensures RankedPrefix(scores, n)
  {
    var p := n - 1;
    var prev := RankPrefix(scores, p);
    assert RankPrefix(scores, n) == Insert(scores, prev, p);
    InsertMultiset(scores, prev, p);
    assert Positions(n) == Positions(p) + [p];
    InsertKeepsChain(scores, prev, p);
  }

  /** `Rank` is a ranking in the sense of `IsRanking`. */
  lemma RankIsRanking(scores: seq<real>)
    ensures IsRanking(scores, Rank(scores))
  {
    RankPrefixIsRanking(scores, |scores|);
  }

  /** The head of a chain comes `Before` every other element of it. */
  lemma ChainHeadFirst(scores: seq<real>, a: seq<nat>)
    requires |a| > 0 && Chain(scores, a)
    ensures forall z :: z in a && z != a[0] ==> Before(scores, a[0], z)
  {
    forall z | z in a && z != a[0] ensures Before(scores, a[0], z) {
      var j :| 0 <= j < |a| && a[j] == z;
    }
  }

  /** Two sequences ordered by `Before` with the same elements are equal. */
  lemma {:induction false} ChainUnique(scores: seq<real>, a: seq<nat>, b: seq<nat>)
    requires Chain(scores, a) && Chain(scores, b)
    requires multiset(a) == multiset(b)
    ensures a == b
    decreases |a|
  {
    assert |a| == |multiset(a)| == |multiset(b)| == |b|;
    if |a| > 0 {
      ChainHeadsAgree(scores, a, b);
      MultisetTail(a);
      MultisetTail(b);
      ChainTail(scores, a);
      ChainTail(scores, b);
      ChainUnique(scores, a[1..], b[1..]);
      assert a == [a[0]] + a[1..] && b == [b[0]] + b[1..];
    }
  }

  /** Two chains with the same elements start with the same element. */
  lemma ChainHeadsAgree(scores: seq<real>, a: seq<nat>, b: seq<nat>)
    requires |a| > 0 && |b| > 0 && Chain(scores, a) && Chain(scores, b)
    requires multiset(a) == multiset(b)
    ensures a[0] == b[0]
  {
    var x, y := a[0], b[0];
    assert x in multiset(b) && y in multiset(a) by {
      assert x in a && y in b;
    }
    ChainHeadFirst(scores, a);
    ChainHeadFirst(scores, b);
  }

  lemma MultisetTail(a: seq<nat>)
    requires |a| > 0
    ensures multiset(a[1..]) == multiset(a) - multiset{a[0]}
  {
    assert a == [a[0]] + a[1..];
  }

  /** Dropping the head of a chain leaves a chain. */
  lemma ChainTail(scores: seq<real>, a: seq<nat>)
    requires |a| > 0 && Chain(scores, a)
    ensures Chain(scores, a[1..])
  {
    forall i, j | 0 <= i < j < |a| - 1 ensures Before(scores, a[1..][i], a[1..][j]) {
      assert Before(scores, a[i + 1], a[j + 1]);
    }
  }

  /** Any stable descending sort of the positions yields exactly `Rank`. */
  lemma RankingUnique(scores: seq<real>, order: seq<nat>)
    requires IsRanking(scores, order)
    ensures order == Rank(scores)
  {
    RankIsRanking(scores);
    ChainUnique(scores, order, Rank(scores));
  }

  /** What a ranking promises, spelled out: it lists every position exactly
      once, scores never increase along it, and equal scores keep input order. */
  lemma RankingProperties(scores: seq<real>, order: seq<nat>)
    requires IsRanking(scores, order)
    ensures |order| == |scores|
    ensures forall p :: 0 <= p < |scores| ==> p in order
    ensures forall i, j :: 0 <= i < j < |order| ==> order[i] != order[j]
    ensures forall k :: 0 <= k < |order| ==> order[k] < |scores|
    ensures forall i, j :: 0 <= i < j < |order| ==> scores[order[i]] >= scores[order[j]]
    ensures forall i, j :: 0 <= i < j < |order| && scores[order[i]] == scores[order[j]] ==> order[i] < order[j]
  {
    var ps := Positions(|scores|);
    assert |order| == |multiset(order)| == |multiset(ps)| == |scores|;
    forall p | 0 <= p < |scores| ensures p in order {
      assert ps[p] == p;
      assert p in multiset(ps);
    }
    forall k | 0 <= k < |order| ensures order[k] < |scores| {
      if |order| > 1 {
        if k + 1 < |order| { assert Before(scores, order[k], order[k + 1]); }
        else { assert Before(scores, order[k - 1], order[k]); }
      } else {
        assert order[k] in multiset(ps);
      }
    }
    forall i, j | 0 <= i < j < |order| ensures order[i] != order[j] {
      assert Before(scores, order[i], order[j]);
    }
  }

  /** Three positions in `Before` order are the ranking of three scores. */
  lemma RankOfThree(scores: seq<real>, order: seq<nat>)
    requires |scores| == 3 && |order| == 3
    requires multiset(order) == multiset{0, 1, 2}
    requires Before(scores, order[0], order[1]) && Before(scores, order[1], order[2]) && Before(scores, order[0], order[2])
    ensures Rank(scores) == order
  {
    assert multiset(order) == multiset(Positions(3)) by {
      assert Positions(3) == [0, 1, 2];
      assert multiset([0, 1, 2]) == multiset{0, 1, 2};
    }
    assert Chain(scores, order) by {
      forall i, j | 0 <= i < j < 3 ensures Before(scores, order[i], order[j]) {
        if i == 0 && j == 1 { } else if i == 0 { } else { }
      }
    }
    RankingUnique(scores, order);
  }
}
