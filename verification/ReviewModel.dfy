/** The advisory review store as values: its three tables and one function per call,
    with a creation split at the point where it waits for the shadow comparison. */
module ReviewModel {
  import opened Wrappers
  import opened Recommendations
  import opened Texts

  datatype Match = Match(distance: Option<real>, score: Option<real>)

  datatype Snapshot = Snapshot(id: string, matches: seq<Match>)

  datatype FakeAgent = FakeAgent(response: string, outcome: string)

  datatype Reviewer = HumanA | HumanB | AgentReviewer | Outsider

  datatype Status = Pending | Accepted | Rejected | Expired

  datatype Review = Review(
    id: string, snapshot: Snapshot, recommendation: RecommendationResult, created: int, expires: int, updated: int,
    status: Status, reviewer: Option<Reviewer>, preference: Option<string>, key: Option<string>)

  datatype Creation = Creation(snapshot: Snapshot, agent: Option<FakeAgent>, created: int, expires: int, timeout: real)

  datatype Submission = Submission(
    id: string, snapshot: Snapshot, reviewer: Reviewer, decision: string, preference: Option<string>)

  datatype Creating = Creating(id: string, creation: Creation)

  datatype Store = Store(
    records: map<string, Review>,
    creations: map<string, (Creation, Review)>,
    submissions: map<string, (Submission, Review)>,
    waiting: map<nat, Creating>)

  datatype Problem = Invalid | Conflict | Stale | TooLate | NotAReviewer | Unknown | NoComparison

  datatype Reply = Suspended | Answer(review: Review) | Refused(problem: Problem)

  datatype Call =
    | Begin(pid: nat, id: string, creation: Creation)
    | Resume(pid: nat, granted: bool, outcome: Option<Outcome>)
    | Get(id: string, now: int)
    | Submit(key: string, submission: Submission, now: int)

  function Empty(): Store {
    Store(map[], map[], map[], map[])
  }

  function ReplayCreation(s: Store, id: string, creation: Creation): Reply
    requires id in s.creations
  {
    if s.creations[id].0 != creation then Refused(Conflict) else Answer(s.creations[id].1)
  }

  function ApplyBegin(s: Store, pid: nat, id: string, creation: Creation): (Store, Reply) {
    if Blank(id) || creation.expires <= creation.created then (s, Refused(Invalid))
    else if id in s.creations then (s, ReplayCreation(s, id, creation))
    else (s.(waiting := s.waiting[pid := Creating(id, creation)]), Suspended)
  }

  /** A new review of the advice given for a snapshot. */
  function Fresh(id: string, c: Creation, advice: RecommendationResult): Review {
    Review(id, c.snapshot, advice, c.created, c.expires, c.created, Pending, None, None, None)
  }

  /** The creation continues once the comparison is there, or failed; outcome is how the
      agent, if there is one, ended. */
  function ApplyResume(s: Store, pid: nat, granted: bool, outcome: Option<Outcome>): (Store, Reply) {
    if pid !in s.waiting then (s, Refused(Unknown))
    else
      var c := s.waiting[pid];
      var rest := s.(waiting := s.waiting - {pid});
      match EvaluateShadow(granted, c.creation.timeout > 0.0, |c.creation.snapshot.matches|,
                           if c.creation.agent.None? then None else outcome)
      case Err(_) => (rest, Refused(NoComparison))
      case Ok(comparison) =>
        if c.id in s.creations then (rest, ReplayCreation(s, c.id, c.creation))
        else
          var review := Fresh(c.id, c.creation, comparison.advisory);
          (rest.(records := s.records[c.id := review], creations := s.creations[c.id := (c.creation, review)]),
           Answer(review))
  }

  predicate Lapsed(r: Review, now: int) {
    r.status == Pending && now >= r.expires
  }

  function ApplyGet(s: Store, id: string, now: int): (Store, Reply) {
    if id !in s.records then (s, Refused(Unknown))
    else if now < s.records[id].updated then (s, Refused(Invalid))
    else if Lapsed(s.records[id], now) then
      var lapsed := s.records[id].(status := Expired, updated := s.records[id].expires);
      (s.(records := s.records[id := lapsed]), Answer(lapsed))
    else (s, Answer(s.records[id]))
  }

  /** Why a submission is refused before its key is looked up. */
  function SubmissionProblem(s: Store, key: string, sub: Submission, now: int): Option<Problem> {
    if sub.reviewer != HumanA && sub.reviewer != HumanB then Some(NotAReviewer)
    else if Blank(key) then Some(Invalid)
    else if sub.id !in s.records then Some(Unknown)
    else
      var r := s.records[sub.id];
      if now < r.updated then Some(Invalid)
      else if sub.snapshot != r.snapshot then Some(Stale)
      else if sub.decision == "accepted" then
        if sub.preference.Some? && sub.preference.value in r.recommendation.ids then None else Some(Invalid)
      else if sub.decision == "rejected" then
        if sub.preference.None? then None else Some(Invalid)
      else Some(Invalid)
  }

  function DecisionStatus(decision: string): Status {
    if decision == "accepted" then Accepted else Rejected
  }

  /** A pending review with the decision of a submission. */
  function Decided(r: Review, key: string, sub: Submission, now: int): Review {
    r.(status := DecisionStatus(sub.decision), reviewer := Some(sub.reviewer), preference := sub.preference,
       key := Some(key), updated := now)
  }

  /** Expiry is recorded even when the submission that found it is refused. */
  function ApplySubmit(s: Store, key: string, sub: Submission, now: int): (Store, Reply) {
    if SubmissionProblem(s, key, sub, now).Some? then (s, Refused(SubmissionProblem(s, key, sub, now).value))
    else if key in s.submissions then
      (s, if s.submissions[key].0 != sub then Refused(Conflict) else Answer(s.submissions[key].1))
    else
      var r := s.records[sub.id];
      if Lapsed(r, now) then (ApplyGet(s, sub.id, now).0, Refused(TooLate))
      else if r.status == Expired then (s, Refused(TooLate))
      else if r.status != Pending then (s, Refused(Conflict))
      else
        var decided := Decided(r, key, sub, now);
        (s.(records := s.records[sub.id := decided], submissions := s.submissions[key := (sub, decided)]), Answer(decided))
  }

  function Apply(s: Store, c: Call): (Store, Reply) {
    match c
    case Begin(pid, id, creation) => if pid in s.waiting then (s, Refused(Unknown)) else ApplyBegin(s, pid, id, creation)
    case Resume(pid, granted, outcome) => ApplyResume(s, pid, granted, outcome)
    case Get(id, now) => ApplyGet(s, id, now)
    case Submit(key, submission, now) => ApplySubmit(s, key, submission, now)
  }

  function Run(cs: seq<Call>): Store {
    if cs == [] then Empty() else Apply(Run(cs[..|cs| - 1]), cs[|cs| - 1]).0
  }
}
