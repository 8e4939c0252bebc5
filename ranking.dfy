/** Top-N selection over a score vector, the step every recommender variant
    ends with (`np.argsort(scores)[::-1][:top_n]`, `nlargest(top_n, 'rating')`,
    `sorted(..., reverse=True)[:3]`, `max(...)`, `Counter.most_common(50)`).

    The selection is by repeated "first maximum among the rows not yet taken",
    so equal scores come out in ascending row order. That is exactly the tie
    order of `nlargest(keep='first')`, of Python's stable `sorted` with
    `reverse=True`, of `max` and of `Counter.most_common`; numpy's `argsort`
    promises no tie order, so for it this is a modelling choice. */
module Ranking {
  import opened Text

  function Min(a: nat, b: nat): nat {
    if a <= b then a else b
  }

  /** Left-to-right scan from `i` for the first maximal score among indices
      outside `taken`; `best` is the candidate so far, -1 for none. */
  function Scan(s: seq<real>, taken: seq<nat>, i: nat, best: int): (r: int)
    requires i <= |s| && -1 <= best < |s|
    ensures -1 <= r < |s|
    decreases |s| - i
  {
    if i == |s| then best
    else if i !in taken && (best < 0 || s[i] > s[best]) then Scan(s, taken, i + 1, i)
    else Scan(s, taken, i + 1, best)
  }

  /** The first index of maximal score outside `taken`, or -1 if every index is taken. */
  function Best(s: seq<real>, taken: seq<nat>): int {
    Scan(s, taken, 0, -1)
  }

  /** `b` is the first index outside `taken` whose score is maximal among them. */
  ghost predicate IsFirstMax(s: seq<real>, taken: seq<nat>, b: nat) {
    && b < |s| && b !in taken
    && (forall j :: 0 <= j < |s| && j !in taken ==> s[j] <= s[b])
    && (forall j :: 0 <= j < b && j !in taken ==> s[j] < s[b])
  }

  lemma {:induction false} ScanFindsFirstMax(s: seq<real>, taken: seq<nat>, i: nat, best: int)
    requires i <= |s| && -1 <= best < |s|
    requires best >= 0 ==> best < i && best !in taken
    requires best >= 0 ==> forall j :: 0 <= j < i && j !in taken ==> s[j] <= s[best]
    requires best >= 0 ==> forall j :: 0 <= j < best && j !in taken ==> s[j] < s[best]
    requires best < 0 ==> forall j :: 0 <= j < i ==> j in taken
    ensures Scan(s, taken, i, best) >= 0 ==> IsFirstMax(s, taken, Scan(s, taken, i, best))
    ensures Scan(s, taken, i, best) < 0 ==> forall j :: 0 <= j < |s| ==> j in taken
    decreases |s| - i
  {
    if i < |s| {
      if i !in taken && (best < 0 || s[i] > s[best]) {
        ScanFindsFirstMax(s, taken, i + 1, i);
      } else {
        ScanFindsFirstMax(s, taken, i + 1, best);
      }
    }
  }

  lemma BestIsFirstMax(s: seq<real>, taken: seq<nat>)
    ensures Best(s, taken) >= 0 ==> IsFirstMax(s, taken, Best(s, taken))
    ensures Best(s, taken) < 0 ==> forall j :: 0 <= j < |s| ==> j in taken
  {
    ScanFindsFirstMax(s, taken, 0, -1);
  }

  /** The first `k` picks: each the first maximum among the indices not yet picked. */
  function Picks(s: seq<real>, k: nat): seq<nat>
    decreases k
  {
    if k == 0 then []
    else
      var p := Picks(s, k - 1);
      var b := Best(s, p);
      if b < 0 then p else p + [b as nat]
  }

  /** Indices of the `k` highest scores, highest first, equal scores in index order. */
  function TopIndices(s: seq<real>, k: nat): seq<nat> {
    Picks(s, Min(k, |s|))
  }

  /** Scores never increase along `r`, and equal scores appear in index order. */
  ghost predicate Descending(s: seq<real>, r: seq<nat>)
    requires forall a :: 0 <= a < |r| ==> r[a] < |s|
  {
    forall a, b :: 0 <= a < b < |r| ==> s[r[a]] >= s[r[b]] && (s[r[a]] == s[r[b]] ==> r[a] < r[b])
  }

  /** No index outside `r` scores above a chosen one, nor ties with it from an earlier position. */
  ghost predicate Dominates(s: seq<real>, r: seq<nat>)
    requires forall a :: 0 <= a < |r| ==> r[a] < |s|
  {
    forall a, u :: 0 <= a < |r| && 0 <= u < |s| && u !in r ==>
      s[r[a]] >= s[u] && (s[u] == s[r[a]] ==> r[a] < u)
  }

  /** `r` lists distinct indices of `s`, by non-increasing score, with nothing
      left out scoring higher than anything taken, and equal scores in index order. */
  ghost predicate IsRanking(s: seq<real>, r: seq<nat>) {
    && NoDup(r)
    && (forall a :: 0 <= a < |r| ==> r[a] < |s|)
    && Descending(s, r)
    && Dominates(s, r)
  }

  /** A duplicate-free list of indices below `n` has at most `n` elements, and
      when it is shorter it misses one. */
  lemma {:induction false} Pigeonhole(p: seq<nat>, n: nat)
    requires NoDup(p)
    requires forall a :: 0 <= a < |p| ==> p[a] < n
    ensures |p| <= n
    ensures |p| < n ==> exists i :: 0 <= i < n && i !in p
    decreases n
  {
    if n == 0 {
    } else if n - 1 in p {
      var k :| 0 <= k < |p| && p[k] == n - 1;
      var q := p[..k] + p[k + 1..];
      assert forall a :: 0 <= a < |q| ==> q[a] == (if a < k then p[a] else p[a + 1]);
      assert NoDup(q);
      forall a | 0 <= a < |q| ensures q[a] < n - 1 {
        assert q[a] != n - 1;
      }
      Pigeonhole(q, n - 1);
      if |p| < n {
        var i :| 0 <= i < n - 1 && i !in q;
        forall a | 0 <= a < |p| ensures p[a] != i {
          if a < k { assert q[a] == p[a]; } else if a > k { assert q[a - 1] == p[a]; }
        }
        assert i !in p;
      }
    } else {
      forall a | 0 <= a < |p| ensures p[a] < n - 1 {
        assert p[a] != n - 1;
      }
      Pigeonhole(p, n - 1);
    }
  }

  /** Appending the first maximum among the untaken indices keeps a ranking a ranking. */
  lemma RankingExtend(s: seq<real>, p: seq<nat>, b: nat)
    requires IsRanking(s, p) && IsFirstMax(s, p, b)
    ensures IsRanking(s, p + [b])
  {
    var r := p + [b];
    assert forall a :: 0 <= a < |p| ==> r[a] == p[a];
    assert NoDup(r);
    ExtendDescending(s, p, b);
    ExtendDominates(s, p, b);
  }

  lemma ExtendDescending(s: seq<real>, p: seq<nat>, b: nat)
    requires IsRanking(s, p) && IsFirstMax(s, p, b)
    ensures Descending(s, p + [b])
  {
    var r := p + [b];
    forall x, y | 0 <= x < y < |r|
      ensures s[r[x]] >= s[r[y]] && (s[r[x]] == s[r[y]] ==> r[x] < r[y])
    {
      assert r[x] == p[x];
      if y < |p| {
        assert r[y] == p[y];
      } else {
        assert r[y] == b;
      }
    }
  }

  lemma ExtendDominates(s: seq<real>, p: seq<nat>, b: nat)
    requires IsRanking(s, p) && IsFirstMax(s, p, b)
    ensures Dominates(s, p + [b])
  {
    var r := p + [b];
    forall x, u | 0 <= x < |r| && 0 <= u < |s| && u !in r
      ensures s[r[x]] >= s[u] && (s[u] == s[r[x]] ==> r[x] < u)
    {
      assert u !in p && u != b;
      if x < |p| {
        assert r[x] == p[x];
      } else {
        assert r[x] == b;
      }
    }
  }

  lemma {:induction false} PicksRank(s: seq<real>, k: nat)
    ensures IsRanking(s, Picks(s, k))
    ensures |Picks(s, k)| == Min(k, |s|)
    decreases k
  {
    if k > 0 {
      var p := Picks(s, k - 1);
      PicksRank(s, k - 1);
      var b := Best(s, p);
      BestIsFirstMax(s, p);
      if b < 0 {
        if |p| < |s| {
          Pigeonhole(p, |s|);
        }
      } else {
        RankingExtend(s, p, b as nat);
        Pigeonhole(p + [b as nat], |s|);
      }
    }
  }

  /** Top-N contract: exactly min(k, |s|) distinct indices of `s`, ranked by
      non-increasing score with ties in index order, and no omitted index
      scores above any chosen one. */
  lemma TopIndicesRank(s: seq<real>, k: nat)
    ensures IsRanking(s, TopIndices(s, k))
    ensures |TopIndices(s, k)| == Min(k, |s|)
  {
    PicksRank(s, Min(k, |s|));
  }

  /** Asking for at least as many rows as exist returns every index, ranked. */
  lemma TopIndicesAll(s: seq<real>, k: nat)
    requires k >= |s|
    ensures forall i :: 0 <= i < |s| ==> i in TopIndices(s, k)
  {
    TopIndicesRank(s, k);
    var r := TopIndices(s, k);
    forall i | 0 <= i < |s| ensures i in r {
      if i !in r {
        Pigeonhole(r + [i], |s|);
      }
    }
  }

  /** The top-N selection as the recommenders run it: each round scans all
      rows for the first maximal score not yet taken. */
  method SelectTop(s: seq<real>, k: nat) returns (r: seq<nat>)
    ensures r == TopIndices(s, k)
  {
    var rounds := Min(k, |s|);
    r := [];
    var c := 0;
    while c < rounds
      invariant c <= rounds
      invariant r == Picks(s, c)
    {
      var best := -1;
      var i := 0;
      while i < |s|
        invariant i <= |s| && -1 <= best < |s|
        invariant Scan(s, r, i, best) == Best(s, r)
      {
        if i !in r && (best < 0 || s[i] > s[best]) {
          best := i;
        }
        i := i + 1;
      }
      if best >= 0 {
        r := r + [best];
      }
      c := c + 1;
    }
  }
}
