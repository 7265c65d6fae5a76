/** What accepted evidence implies: results and listener events in bijection, phases
    apart, silent denials, and rulesets that let through exactly the granted tuples. */
module EvidenceCorrelation {
  import opened Permutations
  import opened NftPolicy
  import opened NftMeaning
  import opened NftVerdicts
  import opened NftSnapshot
  import opened EvidenceModel

  function PhaseOf(ev: Evidence, second: bool): Phase {
    if second then ev.restricted else ev.calibration
  }

  /** The i-th probe of a phase was granted. */
  predicate GrantedSlot(ev: Evidence, second: bool, i: int) {
    0 <= i < 14 && (!second || Cases()[i].permitted)
  }

  function ChallengeOf(ev: Evidence, second: bool, i: int): string {
    if 0 <= i < |PhaseOf(ev, second).results| then PhaseOf(ev, second).results[i].challenge else ""
  }

  lemma {:induction false} UsedMembers(used: set<string>, p: Phase, i: nat, x: string)
    requires i <= |p.results|
    ensures x in Used(used, p, i) <==> x in used || exists j | i <= j < |p.results| :: p.results[j].challenge == x
    decreases |p.results| - i
  {
    if i < |p.results| { UsedMembers(used + {p.results[i].challenge}, p, i + 1, x); }
  }

  lemma {:induction false} AnsweredMembers(answered: set<string>, phase: string, p: Phase, cs: seq<Case>, i: nat, x: string)
    requires i <= |cs| == |p.results|
    ensures x in Answered(answered, phase, p, cs, i)
       <==> x in answered || exists j | i <= j < |cs| :: Responds(phase, cs[j]) && p.results[j].challenge == x
    decreases |cs| - i
  {
    if i < |cs| {
      AnsweredMembers(if Responds(phase, cs[i]) then answered + {p.results[i].challenge} else answered, phase, p, cs, i + 1, x);
    }
  }

  lemma {:induction false} FreshMeans(p: Phase, i: nat, used: set<string>)
    requires i <= |p.results| && FreshChallenges(p, i, used)
    ensures forall j | i <= j < |p.results| :: p.results[j].challenge !in used
    ensures forall j, k | i <= j < k < |p.results| :: p.results[j].challenge != p.results[k].challenge
    decreases |p.results| - i
  {
    if i < |p.results| { FreshMeans(p, i + 1, used + {p.results[i].challenge}); }
  }

  /** What the later lemmas use of accepted evidence. */
  lemma AcceptedFacts(ev: Evidence, cs: seq<Case>)
    requires |cs| == 14 && AcceptedFor(ev, cs)
    ensures |ev.calibration.results| == |ev.restricted.results| == 14
    ensures FreshChallenges(ev.calibration, 0, {}) && FreshChallenges(ev.restricted, 0, Used({}, ev.calibration, 0))
    ensures |ev.listener.events| == |EventMap(ev.listener.events)| == 20
    ensures AllHeard(ev, cs)
    ensures ev.calibration.name == "calibration" && ev.restricted.name == "restricted"
  {
  }

  lemma TwoPhases(p: Phase, q: Phase, i: nat, j: nat)
    requires |p.results| == |q.results| == 14 && i < 14 && j < 14
    requires FreshChallenges(p, 0, {}) && FreshChallenges(q, 0, Used({}, p, 0))
    ensures i != j ==> p.results[i].challenge != p.results[j].challenge
    ensures i != j ==> q.results[i].challenge != q.results[j].challenge
    ensures p.results[i].challenge != q.results[j].challenge
  {
    FreshMeans(p, 0, {});
    FreshMeans(q, 0, Used({}, p, 0));
    UsedMembers({}, p, 0, p.results[i].challenge);
  }

  /** No two of the 28 probes share a challenge. */
  lemma ChallengesDistinct(ev: Evidence, s: bool, i: nat, t: bool, j: nat)
    requires Accepted(ev) && i < 14 && j < 14
    requires ChallengeOf(ev, s, i) == ChallengeOf(ev, t, j)
    ensures s == t && i == j
  {
    AcceptedFacts(ev, Cases());
    TwoPhases(ev.calibration, ev.restricted, i, j);
    TwoPhases(ev.calibration, ev.restricted, j, i);
  }

  lemma {:induction false} EventMapMembers(events: seq<Event>, x: string)
    ensures x in EventMap(events) <==> exists j | 0 <= j < |events| :: events[j].challenge == x
    ensures x in EventMap(events) ==> EventMap(events)[x].challenge == x && EventMap(events)[x] in events
  {
    if events != [] {
      var n := |events| - 1;
      EventMapMembers(events[..n], x);
      assert events == events[..n] + [events[n]];
    }
  }

  function EventChallenges(events: seq<Event>): seq<string> {
    seq(|events|, j requires 0 <= j < |events| => events[j].challenge)
  }

  /** The index has an entry for every event exactly when no two share a challenge. */
  lemma EventsIndexed(events: seq<Event>)
    ensures |EventMap(events)| == |events| <==> NoDuplicates(EventChallenges(events))
  {
    var s := EventChallenges(events);
    forall x ensures x in EventMap(events).Keys <==> x in Members(s) {
      EventMapMembers(events, x);
      if x in EventMap(events) {
        var j :| 0 <= j < |events| && events[j].challenge == x;
        assert s[j] == x;
      }
      if x in s { var j :| 0 <= j < |s| && s[j] == x; }
    }
    assert EventMap(events).Keys == Members(s);
    assert |EventMap(events).Keys| == |EventMap(events)|;
    MembersBound(s);
  }

  /** The event answers the probe: same challenge, same case, in the probe's window. */
  predicate AnswersAt(e: Event, r: ProbeResult, i: int, start: real) {
    e.challenge == r.challenge && e.index == i && start + r.started - 0.25 <= e.at <= start + r.finished + 0.25
  }

  predicate Answers(ev: Evidence, j: int, second: bool, i: int) {
    && 0 <= j < |ev.listener.events| && 0 <= i < |PhaseOf(ev, second).results|
    && AnswersAt(ev.listener.events[j], PhaseOf(ev, second).results[i], i, PhaseOf(ev, second).start)
  }

  lemma ProbeFacts(ev: Evidence, cs: seq<Case>, second: bool, i: nat)
    requires |cs| == 14 && PhasesAccepted(ev, cs) && i < 14
    ensures var p := PhaseOf(ev, second);
            |p.results| == 14 && CountersOf(p.after.ruleset).Ok?
            && CountersOf(p.peerBefore.ruleset).Ok? && CountersOf(p.peerAfter.ruleset).Ok?
            && ResultSound(EventMap(ev.listener.events), CountedIn(p), p.name, p, cs, i)
  {
  }

  lemma ProbeHeard(ev: Evidence, cs: seq<Case>, second: bool, i: nat)
    requires |cs| == 14 && PhasesAccepted(ev, cs) && i < 14
    ensures var p := PhaseOf(ev, second);
            |p.results| == 14
            && Heard(EventMap(ev.listener.events), p.results[i], i, p.start, Responds(p.name, cs[i]))
  {
    ProbeFacts(ev, cs, second, i);
  }

  lemma HeardOnce(events: seq<Event>, r: ProbeResult, i: int, start: real)
    requires Heard(EventMap(events), r, i, start, true) && |EventMap(events)| == |events|
    ensures exists j :: 0 <= j < |events| && AnswersAt(events[j], r, i, start)
    ensures forall j, k | 0 <= j < |events| && 0 <= k < |events|
              && AnswersAt(events[j], r, i, start) && AnswersAt(events[k], r, i, start) :: j == k
  {
    EventMapMembers(events, r.challenge);
    EventsIndexed(events);
    var j :| 0 <= j < |events| && events[j] == EventMap(events)[r.challenge];
    assert AnswersAt(events[j], r, i, start);
    forall j, k | 0 <= j < |events| && 0 <= k < |events|
                  && AnswersAt(events[j], r, i, start) && AnswersAt(events[k], r, i, start)
      ensures j == k
    {
      assert EventChallenges(events)[j] == EventChallenges(events)[k];
    }
  }

  lemma SlotHeard(ev: Evidence, second: bool, i: nat)
    requires |EventMap(ev.listener.events)| == |ev.listener.events| && i < |PhaseOf(ev, second).results|
    requires var p := PhaseOf(ev, second); Heard(EventMap(ev.listener.events), p.results[i], i, p.start, true)
    ensures exists j :: Answers(ev, j, second, i)
    ensures forall j, k | Answers(ev, j, second, i) && Answers(ev, k, second, i) :: j == k
  {
    var p, events := PhaseOf(ev, second), ev.listener.events;
    HeardOnce(events, p.results[i], i, p.start);
    var j :| 0 <= j < |events| && AnswersAt(events[j], p.results[i], i, p.start);
    assert Answers(ev, j, second, i);
  }

  lemma RespondingIsHeard(ev: Evidence, cs: seq<Case>, second: bool, i: nat)
    requires |cs| == 14 && PhasesAccepted(ev, cs) && |EventMap(ev.listener.events)| == |ev.listener.events|
    requires i < 14 && Responds(PhaseOf(ev, second).name, cs[i])
    ensures exists j :: Answers(ev, j, second, i)
    ensures forall j, k | Answers(ev, j, second, i) && Answers(ev, k, second, i) :: j == k
  {
    ProbeHeard(ev, cs, second, i);
    SlotHeard(ev, second, i);
  }

  /** Every granted probe is answered by an event, and by only one. */
  lemma GrantedIsHeard(ev: Evidence, second: bool, i: nat)
    requires Accepted(ev) && GrantedSlot(ev, second, i)
    ensures exists j :: Answers(ev, j, second, i)
    ensures forall j, k | Answers(ev, j, second, i) && Answers(ev, k, second, i) :: j == k
  {
    AcceptedFacts(ev, Cases());
    RespondingIsHeard(ev, Cases(), second, i);
  }

  lemma ClaimedIn(ev: Evidence, cs: seq<Case>, x: string) returns (second: bool, i: nat)
    requires |cs| == |ev.calibration.results| == |ev.restricted.results| && AllHeard(ev, cs)
    requires x in EventMap(ev.listener.events)
    ensures i < |cs| && Responds(PhaseOf(ev, second).name, cs[i]) && ChallengeOf(ev, second, i) == x
  {
    var first := Answered({}, ev.calibration.name, ev.calibration, cs, 0);
    AnsweredMembers({}, ev.calibration.name, ev.calibration, cs, 0, x);
    AnsweredMembers(first, ev.restricted.name, ev.restricted, cs, 0, x);
    if x in first {
      var j :| 0 <= j < |cs| && Responds(ev.calibration.name, cs[j]) && ev.calibration.results[j].challenge == x;
      second, i := false, j;
    } else {
      var j :| 0 <= j < |cs| && Responds(ev.restricted.name, cs[j]) && ev.restricted.results[j].challenge == x;
      second, i := true, j;
    }
  }

  lemma EventOfProbe(ev: Evidence, cs: seq<Case>, j: nat) returns (second: bool, i: nat)
    requires |cs| == 14 && PhasesAccepted(ev, cs) && AllHeard(ev, cs)
    requires |EventMap(ev.listener.events)| == |ev.listener.events| && j < |ev.listener.events|
    ensures i < 14 && Responds(PhaseOf(ev, second).name, cs[i]) && Answers(ev, j, second, i)
  {
    var events := ev.listener.events;
    EventMapMembers(events, events[j].challenge);
    second, i := ClaimedIn(ev, cs, events[j].challenge);
    RespondingIsHeard(ev, cs, second, i);
    var k :| Answers(ev, k, second, i);
    SameEvent(events, j, k);
  }

  lemma SameEvent(events: seq<Event>, j: nat, k: nat)
    requires |EventMap(events)| == |events| && j < |events| && k < |events|
    requires events[j].challenge == events[k].challenge
    ensures j == k
  {
    EventsIndexed(events);
    assert EventChallenges(events)[j] == EventChallenges(events)[k];
  }

  /** Every event answers a granted probe. */
  lemma EventIsClaimed(ev: Evidence, j: nat)
    requires Accepted(ev) && j < |ev.listener.events|
    ensures exists second, i :: GrantedSlot(ev, second, i) && Answers(ev, j, second, i)
  {
    AcceptedFacts(ev, Cases());
    var second, i := EventOfProbe(ev, Cases(), j);
    assert GrantedSlot(ev, second, i);
  }

  /** No event answers two probes. */
  lemma EventClaimedOnce(ev: Evidence, j: nat, s: bool, i: nat, t: bool, k: nat)
    requires Accepted(ev) && Answers(ev, j, s, i) && Answers(ev, j, t, k)
    ensures s == t && i == k
  {
    AcceptedFacts(ev, Cases());
    ChallengesDistinct(ev, s, i, t, k);
  }

  /** A denied tuple left the peer's counter, from the end of calibration to the end of the
      restricted phase, exactly as it was. */
  lemma DeniedIsSilent(ev: Evidence, i: nat)
    requires Accepted(ev) && i < 14 && !Cases()[i].permitted
    ensures var before, after := CountersOf(ev.calibration.peerAfter.ruleset), CountersOf(ev.restricted.peerAfter.ruleset);
            && before.Ok? && after.Ok? && CounterName(i) in before.value && CounterName(i) in after.value
            && before.value[CounterName(i)] == after.value[CounterName(i)]
  {
    ProbeFacts(ev, Cases(), true, i);
  }

  /** The calibration is over before the restricted phase begins. */
  lemma PhasesApart(ev: Evidence, i: nat, k: nat)
    requires Accepted(ev) && i < 14 && k < 14
    ensures var p, q := ev.calibration, ev.restricted;
            && p.end <= q.start && p.start + p.results[i].finished <= p.end + 0.25
            && q.start <= q.start + q.results[k].started
  {
    ProbeFacts(ev, Cases(), false, i);
    ProbeFacts(ev, Cases(), true, k);
  }

  /** The listener heard the whole calibration before the restricted phase, up to the
      tolerances: no event of the first is more than 0.75 seconds after one of the second. */
  lemma EventsApart(ev: Evidence, j: nat, i: nat, l: nat, k: nat)
    requires Accepted(ev) && Answers(ev, j, false, i) && Answers(ev, l, true, k)
    ensures ev.listener.events[j].at <= ev.listener.events[l].at + 0.75
  {
    AcceptedFacts(ev, Cases());
    PhasesApart(ev, i, k);
  }

  lemma RestrictedShapes(ev: Evidence, cs: seq<Case>)
    requires |cs| == 14 && PhasesAccepted(ev, cs)
    ensures ShapedAs(ev.restricted.before, ev.restricted.after, ev.restricted.name)
  {
  }

  lemma ShapedPasses(s: Snapshot, t: Snapshot, phase: string, m: Meaning, hook: string, p: Packet, depth: nat)
    requires ShapedAs(s, t, phase)
    ensures Passes(m, s.ruleset, hook, p, depth) <==> Allowed(phase, hook, p)
    ensures Passes(m, t.ruleset, hook, p, depth) <==> Allowed(phase, hook, p)
  {
    ShapedLikePolicy(m, phase, s.ruleset, hook, p, depth);
    ShapedLikePolicy(m, phase, t.ruleset, hook, p, depth);
  }

  /** Before and after the restricted phase, the target lets an output packet through
      exactly when it bears a permitted tuple, an input packet exactly when it is a reply,
      and forwards nothing. */
  lemma RestrictedEnforced(ev: Evidence, m: Meaning, p: Packet, depth: nat)
    requires Accepted(ev)
    ensures var before, after := ev.restricted.before.ruleset, ev.restricted.after.ruleset;
            && (Passes(m, before, "output", p, depth) <==> GrantedFrom("restricted", Cases(), 0, p))
            && (Passes(m, after, "output", p, depth) <==> GrantedFrom("restricted", Cases(), 0, p))
            && (Passes(m, before, "input", p, depth) <==> p.state in ["established", "related"])
            && (Passes(m, after, "input", p, depth) <==> p.state in ["established", "related"])
            && !Passes(m, before, "forward", p, depth) && !Passes(m, after, "forward", p, depth)
  {
    AcceptedFacts(ev, Cases());
    RestrictedShapes(ev, Cases());
    ShapedPasses(ev.restricted.before, ev.restricted.after, ev.restricted.name, m, "output", p, depth);
    ShapedPasses(ev.restricted.before, ev.restricted.after, ev.restricted.name, m, "input", p, depth);
    ShapedPasses(ev.restricted.before, ev.restricted.after, ev.restricted.name, m, "forward", p, depth);
  }
}
