/** What the review store keeps over every run, with creations interleaved at their wait. */
module ReviewRuns {
  import opened Wrappers
  import opened Recommendations
  import opened ReviewModel
  import opened Texts

  /** A record is the review its creation produced, but for the progress of its status. */
  predicate Descends(r: Review, original: Review) {
    r.(updated := original.updated, status := original.status, reviewer := original.reviewer,
       preference := original.preference, key := original.key) == original
  }

  predicate Created(c: Creation, id: string, original: Review) {
    && original == Fresh(id, c, original.recommendation)
    && c.created < c.expires
    && multiset(original.recommendation.ids) == multiset(Fallback(|c.snapshot.matches|))
  }

  /** Records and creations correspond, and each record descends from its creation. */
  predicate CreationsWf(records: map<string, Review>, creations: map<string, (Creation, Review)>) {
    && records.Keys == creations.Keys
    && forall id | id in records ::
         Created(creations[id].0, id, creations[id].1) && Descends(records[id], creations[id].1)
  }

  predicate Matches(r: Review, key: string, sub: Submission) {
    && sub.id == r.id && sub.snapshot == r.snapshot && r.key == Some(key)
    && r.status == DecisionStatus(sub.decision) && (sub.decision == "accepted" || sub.decision == "rejected")
    && r.reviewer == Some(sub.reviewer) && r.preference == sub.preference
    && (sub.reviewer == HumanA || sub.reviewer == HumanB) && (sub.decision == "rejected" ==> sub.preference.None?)
    && !Blank(key)
  }

  /** A decision was taken while the review was open, and an acceptance names an advised candidate. */
  predicate InTime(r: Review) {
    && r.created <= r.updated < r.expires
    && (r.status == Accepted ==> r.preference.Some? && r.preference.value in r.recommendation.ids)
  }

  predicate Untouched(r: Review) {
    r.reviewer.None? && r.preference.None? && r.key.None?
  }

  /** The status of a record says what else it may hold. */
  predicate StatusWf(r: Review, submissions: map<string, (Submission, Review)>) {
    match r.status
    case Pending => Untouched(r) && r.updated == r.created
    case Expired => Untouched(r) && r.updated == r.expires
    case _ => InTime(r) && r.key.Some? && r.key.value in submissions && submissions[r.key.value].1 == r
  }

  /** Every stored submission is the decision of the record it names. */
  predicate SubmissionsWf(records: map<string, Review>, submissions: map<string, (Submission, Review)>) {
    forall k | k in submissions ::
      && submissions[k].0.id in records && records[submissions[k].0.id] == submissions[k].1
      && Matches(submissions[k].1, k, submissions[k].0)
  }

  predicate Wf(s: Store) {
    && CreationsWf(s.records, s.creations)
    && StatusesWf(s.records, s.submissions)
    && SubmissionsWf(s.records, s.submissions)
    && (forall p | p in s.waiting :: s.waiting[p].creation.created < s.waiting[p].creation.expires)
  }

  predicate StatusesWf(records: map<string, Review>, submissions: map<string, (Submission, Review)>) {
    forall id | id in records :: StatusWf(records[id], submissions)
  }

  lemma CreationsStep(records: map<string, Review>, creations: map<string, (Creation, Review)>, id: string, r: Review)
    requires CreationsWf(records, creations) && id in records && Descends(r, records[id])
    ensures CreationsWf(records[id := r], creations)
  {
  }

  /** No submission speaks of a pending record, so it may move without disturbing any. */
  lemma SubmissionsStep(records: map<string, Review>, submissions: map<string, (Submission, Review)>, id: string, r: Review)
    requires SubmissionsWf(records, submissions) && id in records && records[id].status == Pending
    ensures SubmissionsWf(records[id := r], submissions)
  {
    forall k | k in submissions ensures submissions[k].0.id != id {
      assert Matches(submissions[k].1, k, submissions[k].0);
    }
  }

  lemma LapseStatuses(records: map<string, Review>, submissions: map<string, (Submission, Review)>, id: string)
    requires StatusesWf(records, submissions) && id in records && records[id].status == Pending
    ensures StatusesWf(records[id := records[id].(status := Expired, updated := records[id].expires)], submissions)
  {
    assert StatusWf(records[id], submissions);
  }

  lemma LapseWf(s: Store, id: string, now: int)
    requires Wf(s) && id in s.records && Lapsed(s.records[id], now)
    ensures Wf(ApplyGet(s, id, now).0)
  {
    if now >= s.records[id].updated {
      var lapsed := s.records[id].(status := Expired, updated := s.records[id].expires);
      CreationsStep(s.records, s.creations, id, lapsed);
      SubmissionsStep(s.records, s.submissions, id, lapsed);
      LapseStatuses(s.records, s.submissions, id);
    }
  }

  lemma CreateTables(records: map<string, Review>, creations: map<string, (Creation, Review)>,
                     submissions: map<string, (Submission, Review)>, id: string, c: Creation, r: Review)
    requires CreationsWf(records, creations) && SubmissionsWf(records, submissions) && StatusesWf(records, submissions)
    requires id !in records && Created(c, id, r)
    ensures CreationsWf(records[id := r], creations[id := (c, r)])
    ensures SubmissionsWf(records[id := r], submissions) && StatusesWf(records[id := r], submissions)
  {
  }

  lemma ResumeWf(s: Store, pid: nat, granted: bool, outcome: Option<Outcome>)
    requires Wf(s)
    ensures Wf(ApplyResume(s, pid, granted, outcome).0)
  {
    var after := ApplyResume(s, pid, granted, outcome);
    if pid in s.waiting {
      var c := s.waiting[pid];
      var agent := if c.creation.agent.None? then None else outcome;
      var advice := Recommend(|c.creation.snapshot.matches|, agent);
      AdvisoryRearranges(|c.creation.snapshot.matches|, agent);
      if c.id !in s.creations {
        CreateTables(s.records, s.creations, s.submissions, c.id, c.creation, Fresh(c.id, c.creation, advice));
      }
      assert after.0 == s.(waiting := s.waiting - {pid}, records := after.0.records, creations := after.0.creations);
      assert StatusesWf(after.0.records, after.0.submissions);
    }
  }

  lemma DecideTables(records: map<string, Review>, creations: map<string, (Creation, Review)>,
                     submissions: map<string, (Submission, Review)>, key: string, sub: Submission, r: Review)
    requires CreationsWf(records, creations) && SubmissionsWf(records, submissions) && StatusesWf(records, submissions)
    requires sub.id in records && records[sub.id].status == Pending && key !in submissions
    requires Descends(r, records[sub.id]) && Matches(r, key, sub) && InTime(r)
    ensures CreationsWf(records[sub.id := r], creations)
    ensures SubmissionsWf(records[sub.id := r], submissions[key := (sub, r)])
    ensures StatusesWf(records[sub.id := r], submissions[key := (sub, r)])
  {
    CreationsStep(records, creations, sub.id, r);
    SubmissionsStep(records, submissions, sub.id, r);
    forall id | id in records && id != sub.id ensures StatusWf(records[id], submissions[key := (sub, r)]) {
      assert StatusWf(records[id], submissions);
    }
  }

  lemma DecisionFacts(s: Store, key: string, sub: Submission, now: int)
    requires SubmissionProblem(s, key, sub, now).None? && s.records[sub.id].id == sub.id
    requires s.records[sub.id].created <= s.records[sub.id].updated && now < s.records[sub.id].expires
    ensures var decided := Decided(s.records[sub.id], key, sub, now);
            Descends(decided, s.records[sub.id]) && Matches(decided, key, sub) && InTime(decided)
  {
  }

  lemma DecideWf(s: Store, key: string, sub: Submission, now: int)
    requires Wf(s) && SubmissionProblem(s, key, sub, now).None? && key !in s.submissions
    requires s.records[sub.id].status == Pending && now < s.records[sub.id].expires
    ensures Wf(ApplySubmit(s, key, sub, now).0)
  {
    var r := s.records[sub.id];
    assert StatusWf(r, s.submissions);
    assert Created(s.creations[sub.id].0, sub.id, s.creations[sub.id].1) && Descends(r, s.creations[sub.id].1);
    DecisionFacts(s, key, sub, now);
    DecideTables(s.records, s.creations, s.submissions, key, sub, Decided(r, key, sub, now));
  }

  lemma StepWf(s: Store, c: Call)
    requires Wf(s)
    ensures Wf(Apply(s, c).0)
  {
    match c {
      case Begin(_, _, _) =>
      case Resume(pid, granted, outcome) => ResumeWf(s, pid, granted, outcome);
      case Get(id, now) =>
        if id in s.records && Lapsed(s.records[id], now) { LapseWf(s, id, now); }
      case Submit(key, sub, now) =>
        if SubmissionProblem(s, key, sub, now).None? && key !in s.submissions {
          if Lapsed(s.records[sub.id], now) {
            LapseWf(s, sub.id, now);
          } else if s.records[sub.id].status == Pending {
            DecideWf(s, key, sub, now);
          }
        }
    }
  }

  /** Decided records and submission keys are in bijection and carry one decision. */
  lemma {:induction false} RunWf(cs: seq<Call>)
    ensures Wf(Run(cs))
  {
    if cs != [] {
      RunWf(cs[..|cs| - 1]);
      StepWf(Run(cs[..|cs| - 1]), cs[|cs| - 1]);
    }
  }

  /** The moves a record may make: from pending to a decision or to expiry, and no other. */
  predicate Advances(r: Review, t: Review) {
    r == t || (r.status == Pending && t.status != Pending && Descends(t, r))
  }

  lemma ResumeAdvances(s: Store, pid: nat, granted: bool, outcome: Option<Outcome>, id: string)
    requires CreationsWf(s.records, s.creations) && id in s.records
    ensures var after := ApplyResume(s, pid, granted, outcome).0;
            id in after.records && after.records[id] == s.records[id]
  {
  }

  lemma GetAdvances(s: Store, at: string, now: int, id: string)
    requires id in s.records
    ensures var after := ApplyGet(s, at, now).0;
            id in after.records && Advances(s.records[id], after.records[id])
  {
  }

  lemma SubmitAdvances(s: Store, key: string, sub: Submission, now: int, id: string)
    requires id in s.records
    ensures var after := ApplySubmit(s, key, sub, now).0;
            id in after.records && Advances(s.records[id], after.records[id])
  {
    if SubmissionProblem(s, key, sub, now).None? { GetAdvances(s, sub.id, now, id); }
  }

  lemma StepAdvances(s: Store, c: Call, id: string)
    requires Wf(s) && id in s.records
    ensures id in Apply(s, c).0.records && Advances(s.records[id], Apply(s, c).0.records[id])
  {
    match c {
      case Begin(_, _, _) =>
      case Resume(pid, granted, outcome) => ResumeAdvances(s, pid, granted, outcome, id);
      case Get(at, now) => GetAdvances(s, at, now, id);
      case Submit(key, sub, now) => SubmitAdvances(s, key, sub, now, id);
    }
  }

  /** A record is never overwritten by a concurrent creation, and once decided or expired
      it never changes again. */
  lemma {:induction false} TerminalForever(cs: seq<Call>, i: nat, id: string)
    requires i <= |cs| && id in Run(cs[..i]).records
    ensures id in Run(cs).records && Advances(Run(cs[..i]).records[id], Run(cs).records[id])
    decreases |cs| - i
  {
    if i == |cs| {
      assert cs[..i] == cs;
    } else {
      assert cs[..i + 1][..i] == cs[..i];
      RunWf(cs[..i]);
      StepAdvances(Run(cs[..i]), cs[i], id);
      TerminalForever(cs, i + 1, id);
    }
  }

  /** The same submission again, in any later store, returns the stored result and
      changes nothing, exactly when the time given does not precede the decision. */
  lemma ResubmissionReplays(s: Store, key: string, now: int)
    requires Wf(s) && key in s.submissions
    ensures var sub := s.submissions[key].0;
            ApplySubmit(s, key, sub, now) == (s, Answer(s.submissions[key].1)) <==> s.submissions[key].1.updated <= now
  {
    var r := s.submissions[key].1;
    assert s.records[s.submissions[key].0.id] == r;
    assert StatusWf(r, s.submissions);
  }

  /** Stored submissions are never lost or rewritten. */
  predicate SubmissionsKept(s: Store, t: Store) {
    forall k | k in s.submissions :: k in t.submissions && t.submissions[k] == s.submissions[k]
  }

  lemma StepKeepsSubmissions(s: Store, c: Call)
    ensures SubmissionsKept(s, Apply(s, c).0)
  {
  }

  lemma {:induction false} RunKeepsSubmissions(cs: seq<Call>, i: nat)
    requires i <= |cs|
    ensures SubmissionsKept(Run(cs[..i]), Run(cs))
    decreases |cs| - i
  {
    if i == |cs| {
      assert cs[..i] == cs;
    } else {
      assert cs[..i + 1][..i] == cs[..i];
      StepKeepsSubmissions(Run(cs[..i]), cs[i]);
      RunKeepsSubmissions(cs, i + 1);
    }
  }

  lemma AnsweredIsStored(s: Store, key: string, sub: Submission, now: int)
    requires ApplySubmit(s, key, sub, now).1.Answer?
    ensures var after := ApplySubmit(s, key, sub, now);
            key in after.0.submissions && after.0.submissions[key] == (sub, after.1.review)
  {
  }

  /** Over every run: a submission answered at one step is answered with the same review at
      every later step, changing nothing, exactly when the clock there is not before the
      decision. */
  lemma ResubmissionForever(cs: seq<Call>, i: nat, j: nat, key: string, sub: Submission, now: int, later: int)
    requires i < j <= |cs| && cs[i] == Submit(key, sub, now) && Apply(Run(cs[..i]), cs[i]).1.Answer?
    ensures var answer, at := Apply(Run(cs[..i]), cs[i]).1, Run(cs[..j]);
            ApplySubmit(at, key, sub, later) == (at, answer) <==> answer.review.updated <= later
  {
    AnsweredIsStored(Run(cs[..i]), key, sub, now);
    assert cs[..j][..i + 1] == cs[..i + 1] && cs[..i + 1][..i] == cs[..i];
    assert Run(cs[..i + 1]) == Apply(Run(cs[..i]), cs[i]).0;
    RunKeepsSubmissions(cs[..j], i + 1);
    RunWf(cs[..j]);
    ResubmissionReplays(Run(cs[..j]), key, later);
  }

  /** An accepted preference names a candidate of the snapshot that was reviewed. */
  lemma PreferenceIsCandidate(cs: seq<Call>, id: string)
    requires var s := Run(cs); id in s.records && s.records[id].status == Accepted
    ensures var r := Run(cs).records[id];
            exists i | 0 <= i < |r.snapshot.matches| :: r.preference == Some(CandidateId(i))
  {
    var s := Run(cs);
    var r := s.records[id];
    RunWf(cs);
    assert StatusWf(r, s.submissions);
    var p := r.preference.value;
    var n := |r.snapshot.matches|;
    assert p in multiset(r.recommendation.ids);
    assert p in multiset(Fallback(n));
    var i :| 0 <= i < n && Fallback(n)[i] == p;
  }

  /** Two concurrent creations of one review: whichever resumes second gets the stored
      review if it asked for the same thing, a conflict otherwise, and overwrites nothing. */
  lemma SecondCreationReplays(s: Store, pid: nat, granted: bool, outcome: Option<Outcome>)
    requires pid in s.waiting && s.waiting[pid].id in s.creations
    ensures var after := ApplyResume(s, pid, granted, outcome);
            && after.0.records == s.records && after.0.creations == s.creations && after.0.submissions == s.submissions
            && (after.1.Answer? ==> s.creations[s.waiting[pid].id] == (s.waiting[pid].creation, after.1.review))
  {
  }
}
