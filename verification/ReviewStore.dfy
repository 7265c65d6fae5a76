/** The review store as an object whose calls update its dictionaries. */
module ReviewStore {
  import opened Wrappers
  import opened Recommendations
  import opened ReviewModel
  import opened Texts

  class FakeReviewStore {
    var records: map<string, Review>
    var creations: map<string, (Creation, Review)>
    var submissions: map<string, (Submission, Review)>
    var waiting: map<nat, Creating>

    ghost function State(): Store
      reads this
    {
      Store(records, creations, submissions, waiting)
    }

    constructor ()
      ensures State() == Empty()
    {
      records, creations, submissions, waiting := map[], map[], map[], map[];
    }

    /** The first half of a creation, up to its wait for the comparison. */
    method BeginCreate(pid: nat, id: string, creation: Creation) returns (r: Reply)
      requires pid !in waiting
      modifies this
      ensures (State(), r) == Apply(old(State()), Begin(pid, id, creation))
    {
      if Blank(id) { return Refused(Invalid); }
      if creation.expires <= creation.created { return Refused(Invalid); }
      if id in creations {
        var previous := creations[id];
        if previous.0 != creation { return Refused(Conflict); }
        return Answer(previous.1);
      }
      waiting := waiting[pid := Creating(id, creation)];
      return Suspended;
    }

    /** The second half: the comparison is there and the review is stored, unless another
        creation of the same review came first. */
    method ResumeCreate(pid: nat, granted: bool, outcome: Option<Outcome>) returns (r: Reply)
      requires pid in waiting
      modifies this
      ensures (State(), r) == Apply(old(State()), Resume(pid, granted, outcome))
    {
      var id, creation := waiting[pid].id, waiting[pid].creation;
      waiting := waiting - {pid};
      var comparison := EvaluateShadow(granted, creation.timeout > 0.0, |creation.snapshot.matches|,
                                       if creation.agent.None? then None else outcome);
      if comparison.Err? { return Refused(NoComparison); }
      if id in creations {
        var previous := creations[id];
        if previous.0 != creation { return Refused(Conflict); }
        return Answer(previous.1);
      }
      var record := Fresh(id, creation, comparison.value.advisory);
      records := records[id := record];
      creations := creations[id := (creation, record)];
      return Answer(record);
    }

    method Lookup(id: string, now: int) returns (r: Reply)
      modifies this
      ensures (State(), r) == Apply(old(State()), Get(id, now))
    {
      if id !in records { return Refused(Unknown); }
      var record := records[id];
      if now < record.updated { return Refused(Invalid); }
      if record.status == Pending && now >= record.expires {
        record := record.(status := Expired, updated := record.expires);
        records := records[id := record];
      }
      return Answer(record);
    }

    method Review(key: string, sub: Submission, now: int) returns (r: Reply)
      modifies this
      ensures (State(), r) == Apply(old(State()), Submit(key, sub, now))
    {
      if sub.reviewer != HumanA && sub.reviewer != HumanB { return Refused(NotAReviewer); }
      if Blank(key) { return Refused(Invalid); }
      if sub.id !in records { return Refused(Unknown); }
      var record := records[sub.id];
      if now < record.updated { return Refused(Invalid); }
      if sub.snapshot != record.snapshot { return Refused(Stale); }
      if sub.decision != "accepted" && sub.decision != "rejected" { return Refused(Invalid); }
      if sub.decision == "accepted" {
        if sub.preference.None? || sub.preference.value !in record.recommendation.ids { return Refused(Invalid); }
      } else if sub.preference.Some? {
        return Refused(Invalid);
      }
      if key in submissions {
        var previous := submissions[key];
        if previous.0 != sub { return Refused(Conflict); }
        return Answer(previous.1);
      }
      var current := Lookup(sub.id, now);
      if current.review.status == Expired { return Refused(TooLate); }
      if current.review.status != Pending { return Refused(Conflict); }
      var result := Decided(current.review, key, sub, now);
      records := records[sub.id := result];
      submissions := submissions[key := (sub, result)];
      return Answer(result);
    }
  }
}
