/** The arithmetic of rank displacement: positions always exist, the total is even, at
    most half the square of the number of candidates, and reached by reversal. */
module RankDisplacement {
  import opened Wrappers
  import opened Permutations
  import opened Recommendations

  lemma {:induction false} PositionsFacts(ids: seq<string>, i: nat)
    requires NoDuplicates(ids) && i < |ids|
    ensures ids[i] in Positions(ids) && Positions(ids)[ids[i]] == i + 1
  {
    var n := |ids| - 1;
    if i < n {
      var rest := ids[..n];
      assert NoDuplicates(rest) by {
        forall j, k | 0 <= j < k < n ensures rest[j] != rest[k] { assert ids[j] != ids[k]; }
      }
      PositionsFacts(rest, i);
      assert ids[i] != ids[n];
    }
  }

  /** The advisory ranks of the baseline candidates, in baseline order. */
  ghost predicate RanksOf(ranks: seq<int>, baseline: seq<string>, ids: seq<string>) {
    && |ranks| == |baseline| == |ids|
    && forall i | 0 <= i < |baseline| :: 1 <= ranks[i] <= |ids| && ids[ranks[i] - 1] == baseline[i]
  }

  lemma RankAt(baseline: seq<string>, ids: seq<string>, i: nat)
    requires NoDuplicates(ids) && multiset(ids) == multiset(baseline) && i < |baseline|
    ensures baseline[i] in Positions(ids)
    ensures 1 <= Positions(ids)[baseline[i]] <= |ids| && ids[Positions(ids)[baseline[i]] - 1] == baseline[i]
  {
    assert baseline[i] in multiset(ids);
    var j :| 0 <= j < |ids| && ids[j] == baseline[i];
    PositionsFacts(ids, j);
  }

  /** The lookup of a position never fails. */
  lemma RanksExist(baseline: seq<string>, ids: seq<string>) returns (ranks: seq<int>)
    requires NoDuplicates(ids) && multiset(ids) == multiset(baseline) && |ids| == |baseline|
    ensures RanksOf(ranks, baseline, ids)
    ensures forall i | 0 <= i < |baseline| ::
              baseline[i] in Positions(ids) && Positions(ids)[baseline[i]] == ranks[i]
  {
    forall i | 0 <= i < |baseline|
      ensures baseline[i] in Positions(ids)
      ensures 1 <= Positions(ids)[baseline[i]] <= |ids| && ids[Positions(ids)[baseline[i]] - 1] == baseline[i]
    {
      RankAt(baseline, ids, i);
    }
    ranks := seq(|baseline|, i requires 0 <= i < |baseline| && baseline[i] in Positions(ids) => Positions(ids)[baseline[i]]);
  }

  /** Ranks are a rearrangement of 1..n. */
  lemma RanksRearrange(ranks: seq<int>, baseline: seq<string>, ids: seq<string>)
    requires NoDuplicates(baseline) && RanksOf(ranks, baseline, ids)
    ensures multiset(ranks) == multiset(After(0, |ids|))
  {
    forall i, j | 0 <= i < j < |ranks| ensures ranks[i] != ranks[j] {
      assert ids[ranks[i] - 1] == baseline[i] && ids[ranks[j] - 1] == baseline[j];
    }
    forall x | x in ranks ensures x in After(0, |ids|) { assert After(0, |ids|)[x - 1] == x; }
    Exhausts(ranks, After(0, |ids|));
  }

  /** The displacement of ranks against the order i+1, i+2, ... */
  function Displacement(ranks: seq<int>, i: int): nat {
    if ranks == [] then 0 else Abs(i + 1 - ranks[0]) + Displacement(ranks[1..], i + 1)
  }

  lemma {:induction false} DifferencesTotal(baseline: seq<string>, ids: seq<string>, ranks: seq<int>, i: nat)
    requires i <= |baseline| == |ranks|
    requires forall k | 0 <= k < |baseline| ::
               baseline[k] in Positions(ids) && Positions(ids)[baseline[k]] == ranks[k]
    ensures var ds := Differences(baseline, Positions(ids), i);
            ds.Some? && Total(ds.value) == Displacement(ranks[i..], i)
    decreases |baseline| - i
  {
    if i < |baseline| {
      DifferencesTotal(baseline, ids, ranks, i + 1);
      assert ranks[i..][1..] == ranks[i + 1..];
      var rest := Differences(baseline, Positions(ids), i + 1).value;
      assert ([RankDifference(baseline[i], i + 1, ranks[i])] + rest)[1..] == rest;
    }
  }

  /** Twice the distance of a rank from the middle of 1..n. */
  function FromMiddle(n: nat): int -> int {
    x => Abs(2 * x - (n + 1))
  }

  function Identity(): int -> int {
    x => x
  }

  /** k consecutive numbers after i. */
  function After(i: int, k: nat): seq<int> {
    seq(k, j requires 0 <= j < k => i + 1 + j)
  }

  lemma {:induction false} DisplacementHalves(ranks: seq<int>, i: int, n: nat)
    ensures 2 * Displacement(ranks, i) <= SumOf(FromMiddle(n), ranks) + SumOf(FromMiddle(n), After(i, |ranks|))
    decreases |ranks|
  {
    if ranks != [] {
      assert After(i, |ranks|)[1..] == After(i + 1, |ranks| - 1);
      DisplacementHalves(ranks[1..], i + 1, n);
    }
  }

  lemma {:induction false} DisplacementParity(ranks: seq<int>, i: int)
    ensures (Displacement(ranks, i) - SumOf(Identity(), ranks) - SumOf(Identity(), After(i, |ranks|))) % 2 == 0
    decreases |ranks|
  {
    if ranks != [] {
      assert After(i, |ranks|)[1..] == After(i + 1, |ranks| - 1);
      DisplacementParity(ranks[1..], i + 1);
    }
  }

  /** The distances from the middle of 1..n add up to floor(n*n/2). */
  lemma {:induction false} MiddleSum(n: nat, k: nat)
    requires k <= n
    ensures SumOf(FromMiddle(n), After(n - k, k))
         == if 2 * k <= n then k * (n - k) else n * n / 2 - (n - k) * k
    decreases k
  {
    if k > 0 {
      assert After(n - k, k)[1..] == After(n - (k - 1), k - 1);
      MiddleSum(n, k - 1);
      MiddleStep(n, k);
    }
  }

  lemma MiddleStep(n: nat, k: nat)
    requires 0 < k <= n
    ensures Abs(2 * (n - k + 1) - (n + 1))
            + (if 2 * (k - 1) <= n then (k - 1) * (n - (k - 1)) else n * n / 2 - (n - (k - 1)) * (k - 1))
         == if 2 * k <= n then k * (n - k) else n * n / 2 - (n - k) * k
  {
    var m := n / 2;
    assert (k - 1) * (n - (k - 1)) == k * (n - k) - n + 2 * k - 1;
    if n % 2 == 0 {
      assert n == 2 * m && n * n == 2 * (2 * m * m);
      assert n * n / 2 == 2 * m * m;
      if 2 * k > n && 2 * (k - 1) <= n { assert k == m + 1; assert (n - k) * k == (m - 1) * (m + 1); }
    } else {
      assert n == 2 * m + 1 && n * n == 2 * (2 * m * m + 2 * m) + 1;
      assert n * n / 2 == 2 * m * m + 2 * m;
      if 2 * k > n && 2 * (k - 1) <= n { assert k == m + 1; assert (n - k) * k == m * (m + 1); }
    }
  }

  /** Both advice and baseline list the same n ids, so a comparison is always produced,
      and its total is the displacement of a rearrangement of 1..n. */
  lemma ComparisonRanks(n: nat, agent: Option<Outcome>) returns (ranks: seq<int>)
    ensures EvaluateShadow(true, true, n, agent).Ok?
    ensures |ranks| == n && multiset(ranks) == multiset(After(0, n))
    ensures EvaluateShadow(true, true, n, agent).value.displacement == Displacement(ranks, 0)
    ensures forall i | 0 <= i < n :: 1 <= ranks[i] <= n && Recommend(n, agent).ids[ranks[i] - 1] == Fallback(n)[i]
  {
    var ids := Recommend(n, agent).ids;
    FallbackDistinct(n);
    AdvisoryRearranges(n, agent);
    ranks := RanksExist(Fallback(n), ids);
    RanksRearrange(ranks, Fallback(n), ids);
    DifferencesTotal(Fallback(n), ids, ranks, 0);
    assert ranks[0..] == ranks;
  }

  lemma MiddleTotal(n: nat)
    ensures SumOf(FromMiddle(n), After(0, n)) == n * n / 2
  {
    MiddleSum(n, n);
  }

  lemma RanksBound(ranks: seq<int>, n: nat)
    requires |ranks| == n && multiset(ranks) == multiset(After(0, n))
    ensures Displacement(ranks, 0) <= n * n / 2
  {
    SumRearranged(FromMiddle(n), ranks, After(0, n));
    DisplacementHalves(ranks, 0, n);
    MiddleTotal(n);
  }

  lemma RanksParity(ranks: seq<int>, n: nat)
    requires |ranks| == n && multiset(ranks) == multiset(After(0, n))
    ensures Displacement(ranks, 0) % 2 == 0
  {
    SumRearranged(Identity(), ranks, After(0, n));
    DisplacementParity(ranks, 0);
  }

  /** For any agent the comparison succeeds, and its total displacement is even and at
      most floor(n*n/2). */
  lemma DisplacementBounds(n: nat, agent: Option<Outcome>)
    ensures var r := EvaluateShadow(true, true, n, agent);
            r.Ok? && r.value.displacement % 2 == 0 && r.value.displacement <= n * n / 2
  {
    var ranks := ComparisonRanks(n, agent);
    RanksBound(ranks, n);
    RanksParity(ranks, n);
  }

  function Reversed(s: seq<string>): seq<string> {
    seq(|s|, i requires 0 <= i < |s| => s[|s| - 1 - i])
  }

  lemma ReversedRearranges(s: seq<string>)
    requires NoDuplicates(s)
    ensures multiset(Reversed(s)) == multiset(s)
  {
    forall x | x in s ensures x in Reversed(s) {
      var i :| 0 <= i < |s| && s[i] == x;
      assert Reversed(s)[|s| - 1 - i] == x;
    }
    Exhausts(s, Reversed(s));
  }

  lemma {:induction false} ReversalTotal(ranks: seq<int>, i: nat, n: nat)
    requires i + |ranks| == n && forall k | 0 <= k < |ranks| :: ranks[k] == n - i - k
    ensures Displacement(ranks, i) == SumOf(FromMiddle(n), After(i, |ranks|))
    decreases |ranks|
  {
    if ranks != [] {
      assert After(i, |ranks|)[1..] == After(i + 1, |ranks| - 1);
      ReversalTotal(ranks[1..], i + 1, n);
    }
  }

  lemma ReversedRanks(s: seq<string>, ranks: seq<int>)
    requires NoDuplicates(s) && |ranks| == |s|
    requires forall i | 0 <= i < |s| :: 1 <= ranks[i] <= |s| && Reversed(s)[ranks[i] - 1] == s[i]
    ensures Displacement(ranks, 0) == SumOf(FromMiddle(|s|), After(0, |s|))
  {
    forall k | 0 <= k < |s| ensures ranks[k] == |s| - 0 - k {
      assert Reversed(s)[ranks[k] - 1] == s[|s| - ranks[k]] == s[k];
    }
    ReversalTotal(ranks, 0, |s|);
  }

  lemma ReversalAdopted(n: nat)
    ensures Recommend(n, Some(Answered(Some(Reversed(Fallback(n)))))).ids == Reversed(Fallback(n))
  {
    FallbackDistinct(n);
    ReversedRearranges(Fallback(n));
    if n > 0 { AdoptedIffRearrangement(n, Reversed(Fallback(n))); }
  }

  /** The bound is reached: an agent that reverses the shortlist displaces it by floor(n*n/2). */
  lemma ReversalReachesBound(n: nat)
    ensures var r := EvaluateShadow(true, true, n, Some(Answered(Some(Reversed(Fallback(n))))));
            r.Ok? && r.value.displacement == n * n / 2
  {
    var ranks := ComparisonRanks(n, Some(Answered(Some(Reversed(Fallback(n))))));
    ReversalAdopted(n);
    FallbackDistinct(n);
    ReversedRanks(Fallback(n), ranks);
    MiddleTotal(n);
  }

  lemma {:induction false} NoDisplacement(ranks: seq<int>, i: int)
    ensures Displacement(ranks, i) == 0 <==> forall k | 0 <= k < |ranks| :: ranks[k] == i + 1 + k
    decreases |ranks|
  {
    if ranks != [] {
      NoDisplacement(ranks[1..], i + 1);
      if forall k | 0 <= k < |ranks| :: ranks[k] == i + 1 + k {
        assert forall k | 0 <= k < |ranks[1..]| :: ranks[1..][k] == ranks[k + 1];
      }
      if Displacement(ranks, i) == 0 {
        forall k | 0 <= k < |ranks| ensures ranks[k] == i + 1 + k {
          if k > 0 { assert ranks[1..][k - 1] == ranks[k]; }
        }
      }
    }
  }

  lemma SameRanks(ranks: seq<int>, baseline: seq<string>, ids: seq<string>)
    requires RanksOf(ranks, baseline, ids) && NoDuplicates(ids)
    ensures (forall k | 0 <= k < |ranks| :: ranks[k] == 0 + 1 + k) <==> ids == baseline
  {
    if ids == baseline {
      forall k | 0 <= k < |ranks| ensures ranks[k] == 0 + 1 + k {
        assert ids[ranks[k] - 1] == ids[k];
      }
    } else if forall k | 0 <= k < |ranks| :: ranks[k] == 0 + 1 + k {
      forall k | 0 <= k < |ids| ensures ids[k] == baseline[k] { assert ids[ranks[k] - 1] == baseline[k]; }
    }
  }

  /** No displacement means no change of order, and conversely. */
  lemma ZeroIffSameOrder(n: nat, agent: Option<Outcome>)
    ensures EvaluateShadow(true, true, n, agent).Ok?
    ensures EvaluateShadow(true, true, n, agent).value.displacement == 0 <==> Recommend(n, agent).ids == Fallback(n)
  {
    var ranks := ComparisonRanks(n, agent);
    AdvisoryRearranges(n, agent);
    NoDisplacement(ranks, 0);
    SameRanks(ranks, Fallback(n), Recommend(n, agent).ids);
  }
}
