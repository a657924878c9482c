/** Counting the unordered pairs of `n` teams, as index pairs `(i, j)` with
    `i < j`: there are `n * (n - 1) / 2` of them, the number of matches a
    round robin needs. */
module PairCount {

  /** Every index pair `(i, j)` with `0 <= i < j < n`. */
  function AllPairs(n: nat): set<(int, int)>
  {
    set i, j | 0 <= i < j < n :: (i, j)
  }

  /** The pairs `(i, j)` with `0 <= i < k`: the j-th column of `AllPairs`, cut at `k`. */
  function Column(k: nat, j: int): set<(int, int)>
  {
    set i | 0 <= i < k :: (i, j)
  }

  lemma {:induction false} ColumnSize(k: nat, j: int)
    ensures |Column(k, j)| == k
  {
    if k > 0 {
      ColumnSize(k - 1, j);
      assert Column(k, j) == Column(k - 1, j) + {(k - 1, j)};
    }
  }

  /** Adding a team adds one column of pairs, one per earlier team. */
  lemma AllPairsStep(m: nat)
    ensures AllPairs(m + 1) == AllPairs(m) + Column(m, m)
    ensures AllPairs(m) !! Column(m, m)
  {
    forall p | p in AllPairs(m + 1) ensures p in AllPairs(m) + Column(m, m) {
      if p.1 < m {
        assert p in AllPairs(m);
      } else {
        assert p in Column(m, m);
      }
    }
  }

  lemma {:induction false} AllPairsDoubled(n: nat)
    ensures 2 * |AllPairs(n)| == n * (n - 1)
  {
    if n > 0 {
      var m := n - 1;
      AllPairsDoubled(m);
      ColumnSize(m, m);
      AllPairsStep(m);
      assert |AllPairs(n)| == |AllPairs(m)| + m;
      assert n * (n - 1) == m * (m - 1) + 2 * m by {
        assert n * (n - 1) == (m + 1) * m;
      }
    }
  }

  lemma AllPairsSize(n: nat)
    ensures |AllPairs(n)| == n * (n - 1) / 2
  {
    AllPairsDoubled(n);
  }

  lemma SubsetSize<T>(a: set<T>, b: set<T>)
    requires a <= b
    ensures |a| <= |b|
    ensures |a| == |b| ==> a == b
    ensures |b - a| == |b| - |a|
  {
    assert b == a + (b - a);
  }
}
