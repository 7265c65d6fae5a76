/** Read-only recommendations over an ordered shortlist, and their comparison with it. */
module Recommendations {
  import opened Wrappers
  import opened Numerals
  import opened Permutations

  datatype Source = FromAgent | Deterministic

  datatype Reason = NoCandidates | AgentUnavailable | AgentTimeout | AgentFailure | MalformedOutput | Recommended

  datatype RecommendationResult = RecommendationResult(ids: seq<string>, source: Source, reason: Reason)

  /** How a call of the agent ended; Answered(None) is an output that is no ranking. */
  datatype Outcome = TimedOut | Unavailable | Failed | Answered(ranking: Option<seq<string>>)

  datatype Error = BadTimeout | Unauthorized | MissingPosition

  function CandidateId(i: nat): string {
    "candidate-" + Digits(i)
  }

  /** The opaque ids of a shortlist of n candidates, in shortlist order. */
  function Fallback(n: nat): seq<string> {
    seq(n, i requires 0 <= i < n => CandidateId(i))
  }

  lemma CandidateIdInjective(i: nat, j: nat)
    requires CandidateId(i) == CandidateId(j)
    ensures i == j
  {
    assert CandidateId(i)[10..] == Digits(i) && CandidateId(j)[10..] == Digits(j);
    DigitsInjective(i, j);
  }

  lemma FallbackDistinct(n: nat)
    ensures NoDuplicates(Fallback(n))
  {
    forall i, j | 0 <= i < j < n ensures Fallback(n)[i] != Fallback(n)[j] {
      if CandidateId(i) == CandidateId(j) { CandidateIdInjective(i, j); }
    }
  }

  /** The recommendation for n candidates: the agent's ranking when it is a list of the
      same length over the same ids, the shortlist order in every other case. */
  function Recommend(n: nat, agent: Option<Outcome>): RecommendationResult {
    var fallback := Fallback(n);
    if n == 0 then RecommendationResult(fallback, Deterministic, NoCandidates)
    else match agent
         case None => RecommendationResult(fallback, Deterministic, AgentUnavailable)
         case Some(TimedOut) => RecommendationResult(fallback, Deterministic, AgentTimeout)
         case Some(Unavailable) => RecommendationResult(fallback, Deterministic, AgentUnavailable)
         case Some(Failed) => RecommendationResult(fallback, Deterministic, AgentFailure)
         case Some(Answered(None)) => RecommendationResult(fallback, Deterministic, MalformedOutput)
         case Some(Answered(Some(ids))) =>
           if |ids| != |fallback| || Members(ids) != Members(fallback) then
             RecommendationResult(fallback, Deterministic, MalformedOutput)
           else RecommendationResult(ids, FromAgent, Recommended)
  }

  /** Whatever the agent does, the advisory ids rearrange the shortlist ids. */
  lemma AdvisoryRearranges(n: nat, agent: Option<Outcome>)
    ensures var ids := Recommend(n, agent).ids;
            |ids| == n && NoDuplicates(ids) && multiset(ids) == multiset(Fallback(n))
  {
    FallbackDistinct(n);
    if Recommend(n, agent).source == FromAgent {
      Pigeonhole(Recommend(n, agent).ids, Fallback(n));
    }
  }

  /** An answer is adopted exactly when it rearranges a nonempty shortlist. */
  lemma AdoptedIffRearrangement(n: nat, ids: seq<string>)
    requires n > 0
    ensures Recommend(n, Some(Answered(Some(ids)))).source == FromAgent <==> multiset(ids) == multiset(Fallback(n))
  {
    var fallback := Fallback(n);
    if multiset(ids) == multiset(fallback) {
      assert |ids| == |multiset(ids)| && |fallback| == |multiset(fallback)|;
      forall x ensures x in Members(ids) <==> x in Members(fallback) {
        assert x in ids <==> x in multiset(ids);
        assert x in fallback <==> x in multiset(fallback);
      }
    } else {
      AdvisoryRearranges(n, Some(Answered(Some(ids))));
    }
  }

  datatype RankDifference = RankDifference(id: string, baseline: nat, advisory: nat)

  datatype Comparison = Comparison(
    baseline: seq<string>, advisory: RecommendationResult, differences: seq<RankDifference>,
    topAgrees: Option<bool>, displacement: nat)

  /** The rank of every id, the last occurrence winning. */
  function Positions(ids: seq<string>): map<string, nat> {
    if ids == [] then map[] else Positions(ids[..|ids| - 1])[ids[|ids| - 1] := |ids|]
  }

  /** The ids from the i-th on whose rank changed, or None when one has no rank. */
  function Differences(baseline: seq<string>, positions: map<string, nat>, i: nat): Option<seq<RankDifference>>
    requires i <= |baseline|
    decreases |baseline| - i
  {
    if i == |baseline| then Some([])
    else if baseline[i] !in positions then None
    else
      match Differences(baseline, positions, i + 1)
      case None => None
      case Some(rest) =>
        Some(if positions[baseline[i]] == i + 1 then rest
             else [RankDifference(baseline[i], i + 1, positions[baseline[i]])] + rest)
  }

  function Abs(x: int): nat {
    if x < 0 then -x else x
  }

  function Total(ds: seq<RankDifference>): nat {
    if ds == [] then 0 else Abs(ds[0].baseline - ds[0].advisory) + Total(ds[1..])
  }

  /** The comparison of n candidates' baseline with the agent's advice; granted says
      whether the capability check and the fixed labels admit the caller. */
  function EvaluateShadow(granted: bool, usableTimeout: bool, n: nat, agent: Option<Outcome>): Result<Comparison, Error> {
    if !granted then Err(Unauthorized)
    else if !usableTimeout then Err(BadTimeout)
    else
      var baseline, advisory := Recommend(n, None).ids, Recommend(n, agent);
      match Differences(baseline, Positions(advisory.ids), 0)
      case None => Err(MissingPosition)
      case Some(ds) =>
        Ok(Comparison(baseline, advisory, ds,
                      if n == 0 then None else Some(baseline[0] == advisory.ids[0]), Total(ds)))
  }
}
