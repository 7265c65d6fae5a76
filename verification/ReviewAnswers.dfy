/** What the recommendation and the review store answer, said of their arguments and of
    the stored rows alone. */
module ReviewAnswers {
  import opened Wrappers
  import opened Permutations
  import opened Recommendations
  import opened RankDisplacement
  import opened ReviewModel
  import opened ReviewRuns
  import opened Texts

  // ------------------------------------------------------------- recommendations

  predicate Rearranges(n: nat, ids: seq<string>) {
    multiset(ids) == multiset(Fallback(n))
  }

  /** The reason of a recommendation tells how the agent ended, and its source whether the
      answer was taken; in every other case the order is that of the shortlist. */
  lemma ReasonTold(n: nat, agent: Option<Outcome>)
    ensures var r := Recommend(n, agent);
            && (r.reason == NoCandidates <==> n == 0)
            && (r.reason == AgentUnavailable <==> n > 0 && (agent.None? || agent == Some(Unavailable)))
            && (r.reason == AgentTimeout <==> n > 0 && agent == Some(TimedOut))
            && (r.reason == AgentFailure <==> n > 0 && agent == Some(Failed))
            && (r.reason == MalformedOutput <==>
                  && n > 0 && agent.Some? && agent.value.Answered?
                  && (agent.value.ranking.Some? ==> !Rearranges(n, agent.value.ranking.value)))
            && (r.reason == Recommended <==>
                  && n > 0 && agent.Some? && agent.value.Answered? && agent.value.ranking.Some?
                  && Rearranges(n, agent.value.ranking.value))
            && (r.source == FromAgent <==> r.reason == Recommended)
            && (r.reason == Recommended ==> agent == Some(Answered(Some(r.ids))))
            && (r.reason != Recommended ==> r.ids == Fallback(n))
  {
    if n > 0 && agent.Some? && agent.value.Answered? && agent.value.ranking.Some? {
      AdoptedIffRearrangement(n, agent.value.ranking.value);
    }
  }

  /** A comparison is made exactly for an admitted caller with a usable timeout. */
  lemma ComparedExactly(granted: bool, usable: bool, n: nat, agent: Option<Outcome>)
    ensures EvaluateShadow(granted, usable, n, agent).Ok? <==> granted && usable
    ensures !granted ==> EvaluateShadow(granted, usable, n, agent) == Err(Unauthorized)
    ensures granted && !usable ==> EvaluateShadow(granted, usable, n, agent) == Err(BadTimeout)
  {
    if granted && usable { var _ := ComparisonRanks(n, agent); }
  }

  /** It sets the advice beside the shortlist order and tells whether they agree on the first. */
  lemma ComparisonSays(n: nat, agent: Option<Outcome>)
    requires EvaluateShadow(true, true, n, agent).Ok?
    ensures |Recommend(n, agent).ids| == n
    ensures var c := EvaluateShadow(true, true, n, agent).value;
            && c.baseline == Fallback(n) && c.advisory == Recommend(n, agent)
            && (c.topAgrees.None? <==> n == 0)
            && (n > 0 ==> (c.topAgrees == Some(true) <==> Recommend(n, agent).ids[0] == CandidateId(0)))
  {
    AdvisoryRearranges(n, agent);
  }

  predicate ChangedAt(baseline: seq<string>, positions: map<string, nat>, k: int, d: RankDifference) {
    && 0 <= k < |baseline| && baseline[k] in positions && positions[baseline[k]] != k + 1
    && d == RankDifference(baseline[k], k + 1, positions[baseline[k]])
  }

  lemma {:induction false} DifferencesListed(baseline: seq<string>, positions: map<string, nat>, i: nat, d: RankDifference)
    requires i <= |baseline| && Differences(baseline, positions, i).Some?
    ensures d in Differences(baseline, positions, i).value <==> exists k | i <= k < |baseline| :: ChangedAt(baseline, positions, k, d)
    decreases |baseline| - i
  {
    if i < |baseline| {
      DifferencesListed(baseline, positions, i + 1, d);
      assert ChangedAt(baseline, positions, i, d) ==> d in Differences(baseline, positions, i).value;
    }
  }

  /** The id stands at one rank in the one list and at another in the other. */
  predicate Moves(baseline: seq<string>, ids: seq<string>, d: RankDifference) {
    && 1 <= d.baseline <= |baseline| && 1 <= d.advisory <= |ids| && d.baseline != d.advisory
    && d.id == baseline[d.baseline - 1] && d.id == ids[d.advisory - 1]
  }

  lemma ChangedMoves(baseline: seq<string>, ids: seq<string>, k: int, d: RankDifference)
    requires NoDuplicates(ids) && multiset(ids) == multiset(baseline)
    requires ChangedAt(baseline, Positions(ids), k, d)
    ensures Moves(baseline, ids, d)
  {
    RankAt(baseline, ids, k);
  }

  lemma MovesChanged(baseline: seq<string>, ids: seq<string>, d: RankDifference)
    requires NoDuplicates(ids) && Moves(baseline, ids, d)
    ensures ChangedAt(baseline, Positions(ids), d.baseline - 1, d)
  {
    PositionsFacts(ids, d.advisory - 1);
  }

  lemma ChangesListed(baseline: seq<string>, ids: seq<string>, d: RankDifference)
    requires NoDuplicates(ids) && multiset(ids) == multiset(baseline) && |ids| == |baseline|
    requires Differences(baseline, Positions(ids), 0).Some?
    ensures d in Differences(baseline, Positions(ids), 0).value <==> Moves(baseline, ids, d)
  {
    DifferencesListed(baseline, Positions(ids), 0, d);
    if Moves(baseline, ids, d) {
      MovesChanged(baseline, ids, d);
    } else {
      forall k | 0 <= k < |baseline| ensures !ChangedAt(baseline, Positions(ids), k, d) {
        if ChangedAt(baseline, Positions(ids), k, d) { ChangedMoves(baseline, ids, k, d); }
      }
    }
  }

  /** A difference is listed exactly for an id that stands at one rank in the shortlist and
      at another in the advice, with the two ranks. */
  lemma DifferencesExactly(n: nat, agent: Option<Outcome>, d: RankDifference)
    requires EvaluateShadow(true, true, n, agent).Ok?
    ensures |Recommend(n, agent).ids| == n
    ensures d in EvaluateShadow(true, true, n, agent).value.differences
       <==> && 1 <= d.baseline <= n && 1 <= d.advisory <= n && d.baseline != d.advisory
            && d.id == CandidateId(d.baseline - 1) && d.id == Recommend(n, agent).ids[d.advisory - 1]
  {
    AdvisoryRearranges(n, agent);
    var baseline, ids := Fallback(n), Recommend(n, agent).ids;
    ChangesListed(baseline, ids, d);
  }

  // ------------------------------------------------------------- creations

  /** A creation waits for its comparison exactly when it is new and in order. */
  lemma BegunExactly(s: Store, pid: nat, id: string, c: Creation)
    requires pid !in s.waiting
    ensures var (s', r) := Apply(s, Begin(pid, id, c));
            && (r == Suspended <==> !Blank(id) && c.created < c.expires && id !in s.creations)
            && (r.Answer? <==> !Blank(id) && c.created < c.expires && id in s.creations && s.creations[id].0 == c)
            && (r == Refused(Conflict) <==> !Blank(id) && c.created < c.expires && id in s.creations && s.creations[id].0 != c)
            && (r == Refused(Invalid) <==> Blank(id) || c.expires <= c.created)
            && (r.Answer? ==> r.review == s.creations[id].1)
            && (r != Suspended ==> s' == s)
            && (r == Suspended ==> s' == s.(waiting := s.waiting[pid := Creating(id, c)]))
  {
  }

  /** A waiting creation of a new review is answered exactly when the comparison could be
      made; the review then says what was asked and advised, and it is the one stored. */
  lemma CreatedExactly(s: Store, pid: nat, granted: bool, outcome: Option<Outcome>)
    requires pid in s.waiting && s.waiting[pid].id !in s.creations
    ensures var id, c := s.waiting[pid].id, s.waiting[pid].creation;
            var (s', r) := Apply(s, Resume(pid, granted, outcome));
            && (r.Answer? <==> granted && c.timeout > 0.0)
            && (!r.Answer? ==> r == Refused(NoComparison) && s' == s.(waiting := s.waiting - {pid}))
            && (r.Answer? ==>
                  && r.review.id == id && r.review.snapshot == c.snapshot
                  && r.review.created == c.created && r.review.expires == c.expires && r.review.updated == c.created
                  && r.review.status == Pending && r.review.reviewer.None? && r.review.preference.None? && r.review.key.None?
                  && r.review.recommendation == Recommend(|c.snapshot.matches|, if c.agent.None? then None else outcome)
                  && s'.records == s.records[id := r.review] && s'.creations == s.creations[id := (c, r.review)])
  {
    var c := s.waiting[pid].creation;
    ComparedExactly(granted, c.timeout > 0.0, |c.snapshot.matches|, if c.agent.None? then None else outcome);
  }

  /** A record lives and dies by the times its creation asked for. */
  lemma TimesAsked(s: Store, id: string)
    requires CreationsWf(s.records, s.creations) && StatusesWf(s.records, s.submissions) && id in s.records
    ensures id in s.creations
    ensures s.records[id].created == s.creations[id].0.created && s.records[id].expires == s.creations[id].0.expires
    ensures s.records[id].status == Pending ==> s.records[id].updated == s.creations[id].0.created
    ensures s.records[id].status == Expired ==> s.records[id].updated == s.creations[id].0.expires
  {
    assert Created(s.creations[id].0, id, s.creations[id].1) && Descends(s.records[id], s.creations[id].1);
    assert StatusWf(s.records[id], s.submissions);
  }

  /** In every run: the expiry a creation asked for is the instant from which a review that
      nobody decided is answered as expired, and it is answered as pending before. */
  lemma ExpiryAsked(cs: seq<Call>, id: string, now: int)
    requires id in Run(cs).records
    requires Run(cs).records[id].status == Pending
    ensures id in Run(cs).creations
    ensures var c := Run(cs).creations[id].0;
            var (s', r) := Apply(Run(cs), Get(id, now));
            && (r == Refused(Invalid) <==> now < c.created)
            && (r.Answer? && r.review.status == Pending <==> c.created <= now < c.expires)
            && (r.Answer? && r.review.status == Expired <==> c.expires <= now)
            && (c.expires <= now ==> r.review.updated == c.expires && id in s'.records && s'.records[id] == r.review)
            && (now < c.expires ==> s' == Run(cs))
  {
    RunWf(cs);
    TimesAsked(Run(cs), id);
    assert Created(Run(cs).creations[id].0, id, Run(cs).creations[id].1);
  }

  /** A review that is not pending is answered as it stands, from its last change on. */
  lemma SettledAnswered(s: Store, id: string, now: int)
    requires id in s.records && s.records[id].status != Pending
    ensures Apply(s, Get(id, now)) == if now < s.records[id].updated then (s, Refused(Invalid)) else (s, Answer(s.records[id]))
  {
  }

  // ------------------------------------------------------------- submissions

  /** The submission is in order: a human reviewer, a key, a known review seen as it is, and
      a decision with the preference it needs. */
  predicate InOrder(s: Store, key: string, sub: Submission, now: int) {
    && (sub.reviewer == HumanA || sub.reviewer == HumanB) && !Blank(key)
    && sub.id in s.records && s.records[sub.id].updated <= now && sub.snapshot == s.records[sub.id].snapshot
    && ((sub.decision == "accepted" && sub.preference.Some? && sub.preference.value in s.records[sub.id].recommendation.ids)
        || (sub.decision == "rejected" && sub.preference.None?))
  }

  /** A decision is taken exactly by a submission in order under a new key, while the review
      is pending and has not expired; it is recorded as it was made. */
  lemma DecidedExactly(s: Store, key: string, sub: Submission, now: int)
    requires key !in s.submissions
    ensures var (s', r) := Apply(s, Submit(key, sub, now));
            && (r.Answer? <==>
                  InOrder(s, key, sub, now) && s.records[sub.id].status == Pending && now < s.records[sub.id].expires)
            && (r.Answer? ==>
                  && (r.review.status == Accepted <==> sub.decision == "accepted")
                  && (r.review.status == Rejected <==> sub.decision == "rejected")
                  && r.review.reviewer == Some(sub.reviewer) && r.review.preference == sub.preference
                  && r.review.key == Some(key) && r.review.updated == now
                  && r.review.id == s.records[sub.id].id && r.review.snapshot == s.records[sub.id].snapshot
                  && r.review.recommendation == s.records[sub.id].recommendation
                  && r.review.created == s.records[sub.id].created && r.review.expires == s.records[sub.id].expires
                  && s'.records == s.records[sub.id := r.review]
                  && s'.submissions == s.submissions[key := (sub, r.review)])
  {
  }

  /** Why a submission under a new key is refused. */
  lemma RefusedExactly(s: Store, key: string, sub: Submission, now: int)
    requires key !in s.submissions
    ensures var r := Apply(s, Submit(key, sub, now)).1;
            && (r == Refused(NotAReviewer) <==> sub.reviewer == AgentReviewer || sub.reviewer == Outsider)
            && (r == Refused(Unknown) <==>
                  (sub.reviewer == HumanA || sub.reviewer == HumanB) && !Blank(key) && sub.id !in s.records)
            && (r == Refused(Stale) <==>
                  && (sub.reviewer == HumanA || sub.reviewer == HumanB) && !Blank(key) && sub.id in s.records
                  && s.records[sub.id].updated <= now && sub.snapshot != s.records[sub.id].snapshot)
            && (r == Refused(TooLate) <==>
                  && InOrder(s, key, sub, now)
                  && (s.records[sub.id].status == Expired
                      || (s.records[sub.id].status == Pending && s.records[sub.id].expires <= now)))
            && (r == Refused(Conflict) <==>
                  && InOrder(s, key, sub, now)
                  && (s.records[sub.id].status == Accepted || s.records[sub.id].status == Rejected))
  {
  }

  /** Under a known key a submission in order is replayed exactly when it is the same. */
  lemma ReplayedExactly(s: Store, key: string, sub: Submission, now: int)
    requires key in s.submissions
    ensures var (s', r) := Apply(s, Submit(key, sub, now));
            && s' == s
            && (r.Answer? <==> InOrder(s, key, sub, now) && s.submissions[key].0 == sub)
            && (r.Answer? ==> r.review == s.submissions[key].1)
            && (r == Refused(Conflict) <==> InOrder(s, key, sub, now) && s.submissions[key].0 != sub)
  {
  }

  /** A refused submission records the expiry it found, and nothing else. */
  lemma RefusalRecords(s: Store, key: string, sub: Submission, now: int)
    requires Apply(s, Submit(key, sub, now)).1.Refused?
    ensures var (s', r) := Apply(s, Submit(key, sub, now));
            s' == if r == Refused(TooLate) then Apply(s, Get(sub.id, now)).0 else s
  {
  }
}
