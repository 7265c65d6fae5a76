/** Acceptance of the evidence, restated without tables: every bound spelled out, every probe
    by itself, and results and events matched by who carries which challenge. */
module EvidenceReference {
  import opened Permutations
  import opened NftPolicy
  import opened NftListings
  import opened NftSnapshot
  import opened EvidenceModel
  import opened EvidenceCorrelation
  import opened EvidenceOutcomes

  // ------------------------------------------------------------- the conditions

  /** When everything happened. */
  predicate Clocked(ev: Evidence) {
    var l := ev.listener;
    && ev.originalAt < l.ready < l.final <= ev.restoredAt
    && l.final <= l.ready + 42.0 && ev.restoredAt <= l.final + 120.0
    && PhaseClocked(l, ev.calibration) && PhaseClocked(l, ev.restricted)
    && ev.calibration.end <= ev.restricted.start && ev.restricted.end <= ev.calibration.start + 40.0
  }

  predicate PhaseClocked(l: Listener, p: Phase) {
    && l.ready <= p.before.captured <= p.start < p.end <= p.after.captured <= l.final
    && l.ready <= p.peerBefore.captured <= p.start && p.end <= p.peerAfter.captured <= l.final
    && p.end <= p.start + 16.5
  }

  /** Where it happened, and that its parts are what they say. */
  predicate Placed(ev: Evidence) {
    && ev.sound && ev.listener.sound && ev.calibration.sound && ev.restricted.sound
    && ev.calibration.name == "calibration" && ev.restricted.name == "restricted"
    && ev.calibration.before.inode == ev.calibration.after.inode == ev.target
    && ev.restricted.before.inode == ev.restricted.after.inode == ev.target
    && ev.calibration.peerBefore.inode == ev.calibration.peerAfter.inode == ev.peer
    && ev.restricted.peerBefore.inode == ev.restricted.peerAfter.inode == ev.peer
    && ev.calibration.invocation != ev.restricted.invocation
    && ev.listener.invocation != ev.calibration.invocation && ev.listener.invocation != ev.restricted.invocation
    && |ev.calibration.results| == |ev.restricted.results| == 14 && |ev.listener.events| == 20
  }

  /** Both listings have the shape of the policy and the same objects. */
  predicate KeepsPolicy(a: Snapshot, b: Snapshot, phase: string) {
    && ShapeOf(a.ruleset) == ShapeOf(PolicyItems(phase)) && ShapeOf(b.ruleset) == ShapeOf(PolicyItems(phase))
    && Identity(a.ruleset).Ok? && Identity(b.ruleset) == Identity(a.ruleset)
  }

  predicate Untouched(s: Snapshot) {
    CountersOf(s.ruleset).Ok? && forall name | name in CountersOf(s.ruleset).value :: CountersOf(s.ruleset).value[name] == (0, 0)
  }

  predicate Counts(s: Snapshot) {
    CountersOf(s.ruleset).Ok?
  }

  /** The target ran the policy of each phase from fresh counters, the peer ran its own
      throughout, and its counters went on from one phase to the next. */
  predicate Ruled(ev: Evidence) {
    var p, q := ev.calibration, ev.restricted;
    && KeepsPolicy(p.before, p.after, "calibration") && KeepsPolicy(q.before, q.after, "restricted")
    && KeepsPolicy(p.peerBefore, p.peerAfter, "peer") && KeepsPolicy(q.peerBefore, q.peerAfter, "peer")
    && Untouched(p.before) && Untouched(q.before) && Untouched(p.peerBefore)
    && Counts(p.after) && Counts(q.after) && Counts(p.peerAfter) && Counts(q.peerAfter)
    && Identity(q.peerBefore.ruleset) == Identity(p.peerAfter.ruleset)
    && CountersOf(q.peerBefore.ruleset) == CountersOf(p.peerAfter.ruleset)
  }

  /** One probe reports its case, with the outcome its phase grants it, in its time. */
  predicate Reports(r: ProbeResult, c: Case, granted: bool) {
    && r.family == c.family && r.address == c.address && r.transport == c.transport && r.port == c.port
    && (if granted then r.expected == "response" && r.outcome == "RESPONSE_MATCHED"
        else r.expected == "policy_correlated_denial" && r.outcome == "NO_RESPONSE_UNVERIFIED")
    && |r.challenge| == 64 && forall x | x in r.challenge :: '0' <= x <= '9' || 'a' <= x <= 'f'
  }

  predicate InTime(p: Phase, i: nat, granted: bool)
    requires i < |p.results|
  {
    var r := p.results[i];
    && 0.0 <= r.started <= r.finished <= 16.0 && r.finished <= r.started + 1.1
    && (i > 0 ==> p.results[i - 1].finished <= r.started)
    && r.finished <= p.end - p.start + 0.25
    && (!granted ==> r.started + 0.9 <= r.finished)
  }

  predicate CountedRight(n: Counted, i: nat, header: nat, granted: bool)
    requires i < 100
  {
    var name := CounterName(i);
    && name in n.final && name in n.peerInitial && name in n.peerFinal
    && n.final[name].0 > 0 && n.final[name].1 >= n.final[name].0 * header
    && (if granted then n.peerFinal[name].0 > n.peerInitial[name].0 && n.peerFinal[name].1 > n.peerInitial[name].1
        else n.peerFinal[name] == n.peerInitial[name])
  }

  /** A granted probe has an event of its own; a denied one's challenge was never heard. */
  ghost predicate HeardRight(ev: Evidence, second: bool, i: int, granted: bool)
    requires 0 <= i < |PhaseOf(ev, second).results|
  {
    if granted then exists j :: Answers(ev, j, second, i) else !EventCarries(ev, PhaseOf(ev, second).results[i].challenge)
  }

  ghost predicate ProbeRight(ev: Evidence, cs: seq<Case>, second: bool, i: nat)
    requires i < |cs| == |PhaseOf(ev, second).results| && |cs| <= 100
  {
    var p, granted := PhaseOf(ev, second), !second || cs[i].permitted;
    && Counts(p.after) && Counts(p.peerBefore) && Counts(p.peerAfter)
    && Reports(p.results[i], cs[i], granted) && InTime(p, i, granted)
    && CountedRight(CountedIn(p), i, if cs[i].family == "ipv4" then 20 else 40, granted)
    && HeardRight(ev, second, i, granted)
  }

  ghost predicate ProbesRight(ev: Evidence, cs: seq<Case>)
    requires |cs| == |ev.calibration.results| == |ev.restricted.results| && |cs| <= 100
  {
    forall second: bool, i: nat | i < |cs| :: ProbeRight(ev, cs, second, i)
  }

  /** No two probes share a challenge, no two events do, and each event carries that of a
      granted probe. */
  ghost predicate Matched(ev: Evidence, cs: seq<Case>) {
    && (forall s, i, t, j | 0 <= i < 14 && 0 <= j < 14 && ChallengeOf(ev, s, i) == ChallengeOf(ev, t, j) :: s == t && i == j)
    && NoDuplicates(EventChallenges(ev.listener.events))
    && (forall j | 0 <= j < |ev.listener.events| ::
          Claimed(ev, cs, ev.listener.events[j].challenge))
  }

  ghost predicate Claimed(ev: Evidence, cs: seq<Case>, challenge: string) {
    exists second, i :: Carries(ev, cs, second, i, challenge)
  }

  /** The challenge is that of a granted probe. */
  predicate Carries(ev: Evidence, cs: seq<Case>, second: bool, i: int, challenge: string) {
    0 <= i < |cs| && (!second || cs[i].permitted) && ChallengeOf(ev, second, i) == challenge
  }

  ghost predicate Correlated(ev: Evidence, cs: seq<Case>)
    requires |cs| == 14
  {
    Clocked(ev) && Placed(ev) && Ruled(ev) && ProbesRight(ev, cs) && Matched(ev, cs)
  }

  // ------------------------------------------------------------- events

  lemma EventAt(events: seq<Event>, j: nat)
    requires |EventMap(events)| == |events| && j < |events|
    ensures events[j].challenge in EventMap(events) && EventMap(events)[events[j].challenge] == events[j]
  {
    EventMapMembers(events, events[j].challenge);
    var k :| 0 <= k < |events| && events[k] == EventMap(events)[events[j].challenge];
    SameEvent(events, j, k);
  }

  lemma HeardExactly(ev: Evidence, second: bool, i: nat, granted: bool)
    requires |EventMap(ev.listener.events)| == |ev.listener.events| && i < |PhaseOf(ev, second).results|
    ensures var p := PhaseOf(ev, second);
            Heard(EventMap(ev.listener.events), p.results[i], i, p.start, granted) <==> HeardRight(ev, second, i, granted)
  {
    var p, events := PhaseOf(ev, second), ev.listener.events;
    EventMapMembers(events, p.results[i].challenge);
    if granted {
      if Heard(EventMap(events), p.results[i], i, p.start, true) { SlotHeard(ev, second, i); }
      if j :| Answers(ev, j, second, i) { EventAt(events, j); }
    }
  }

  // ------------------------------------------------------------- probes

  lemma ReportsExactly(r: ProbeResult, c: Case, granted: bool)
    ensures Reports(r, c, granted) <==> Expected(r, c, granted) && HexDigest(r.challenge)
  {
  }

  lemma InTimeExactly(p: Phase, i: nat, granted: bool)
    requires i < |p.results|
    ensures InTime(p, i, granted)
       <==> Timed(p.results[i], if i == 0 then 0.0 else p.results[i - 1].finished, p.end - p.start, granted)
  {
  }

  lemma CountedExactly(n: Counted, i: nat, family: string, granted: bool)
    requires i < 100
    ensures CountedRight(n, i, if family == "ipv4" then 20 else 40, granted)
       <==> CountedAs(n.final, n.peerInitial, n.peerFinal, CounterName(i), family, granted)
  {
  }

  lemma ProbeExactly(ev: Evidence, cs: seq<Case>, second: bool, i: nat)
    requires |EventMap(ev.listener.events)| == |ev.listener.events|
    requires i < |cs| == |PhaseOf(ev, second).results| && |cs| <= 100
    requires var p := PhaseOf(ev, second);
             Counts(p.after) && Counts(p.peerBefore) && Counts(p.peerAfter) && (p.name == "calibration" <==> !second)
    ensures var p := PhaseOf(ev, second);
            ResultSound(EventMap(ev.listener.events), CountedIn(p), p.name, p, cs, i) <==> ProbeRight(ev, cs, second, i)
  {
    var p, granted := PhaseOf(ev, second), !second || cs[i].permitted;
    ReportsExactly(p.results[i], cs[i], granted);
    InTimeExactly(p, i, granted);
    CountedExactly(CountedIn(p), i, cs[i].family, granted);
    HeardExactly(ev, second, i, granted);
  }

  lemma PhaseProbesExactly(ev: Evidence, cs: seq<Case>, second: bool)
    requires |EventMap(ev.listener.events)| == |ev.listener.events|
    requires |cs| == |PhaseOf(ev, second).results| && |cs| <= 100
    requires var p := PhaseOf(ev, second);
             Counts(p.after) && Counts(p.peerBefore) && Counts(p.peerAfter) && (p.name == "calibration" <==> !second)
    ensures var p := PhaseOf(ev, second);
            ResultsSound(EventMap(ev.listener.events), CountedIn(p), p.name, p, cs)
            <==> forall i: nat | i < |cs| :: ProbeRight(ev, cs, second, i)
  {
    var p := PhaseOf(ev, second);
    forall i: nat | i < |cs|
      ensures ResultSound(EventMap(ev.listener.events), CountedIn(p), p.name, p, cs, i) <==> ProbeRight(ev, cs, second, i)
    {
      ProbeExactly(ev, cs, second, i);
    }
  }

  // ------------------------------------------------------------- challenges

  lemma {:induction false} FreshExactly(p: Phase, i: nat, used: set<string>)
    requires i <= |p.results|
    ensures FreshChallenges(p, i, used)
       <==> && (forall j | i <= j < |p.results| :: p.results[j].challenge !in used)
            && (forall j, k | i <= j < k < |p.results| :: p.results[j].challenge != p.results[k].challenge)
    decreases |p.results| - i
  {
    if i < |p.results| { FreshExactly(p, i + 1, used + {p.results[i].challenge}); }
  }

  /** Challenges are new in both phases exactly when no two of the probes share one. */
  predicate Apart(ev: Evidence) {
    forall s, i, t, j | 0 <= i < 14 && 0 <= j < 14 && ChallengeOf(ev, s, i) == ChallengeOf(ev, t, j) :: s == t && i == j
  }

  lemma ApartMeansFresh(ev: Evidence)
    requires |ev.calibration.results| == |ev.restricted.results| == 14 && Apart(ev)
    ensures FreshChallenges(ev.calibration, 0, {}) && FreshChallenges(ev.restricted, 0, Used({}, ev.calibration, 0))
  {
    var p, q := ev.calibration, ev.restricted;
    FreshExactly(p, 0, {});
    FreshExactly(q, 0, Used({}, p, 0));
    forall j | 0 <= j < 14 ensures q.results[j].challenge !in Used({}, p, 0) {
      UsedMembers({}, p, 0, q.results[j].challenge);
      forall k | 0 <= k < 14 ensures p.results[k].challenge != q.results[j].challenge {
        assert ChallengeOf(ev, false, k) == p.results[k].challenge && ChallengeOf(ev, true, j) == q.results[j].challenge;
      }
    }
    forall j, k | 0 <= j < k < 14
      ensures p.results[j].challenge != p.results[k].challenge && q.results[j].challenge != q.results[k].challenge
    {
      assert ChallengeOf(ev, false, j) == p.results[j].challenge && ChallengeOf(ev, false, k) == p.results[k].challenge;
      assert ChallengeOf(ev, true, j) == q.results[j].challenge && ChallengeOf(ev, true, k) == q.results[k].challenge;
    }
  }

  lemma FreshMeansApart(ev: Evidence)
    requires |ev.calibration.results| == |ev.restricted.results| == 14
    requires FreshChallenges(ev.calibration, 0, {}) && FreshChallenges(ev.restricted, 0, Used({}, ev.calibration, 0))
    ensures Apart(ev)
  {
    forall s, i, t, j | 0 <= i < 14 && 0 <= j < 14 && ChallengeOf(ev, s, i) == ChallengeOf(ev, t, j)
      ensures s == t && i == j
    {
      TwoPhases(ev.calibration, ev.restricted, i, j);
      TwoPhases(ev.calibration, ev.restricted, j, i);
    }
  }

  // ------------------------------------------------------------- who carries what

  lemma AnsweredExactly(ev: Evidence, cs: seq<Case>, x: string)
    requires |cs| == |ev.calibration.results| == |ev.restricted.results|
    requires ev.calibration.name == "calibration" && ev.restricted.name == "restricted"
    ensures x in Answered(Answered({}, ev.calibration.name, ev.calibration, cs, 0), ev.restricted.name, ev.restricted, cs, 0)
       <==> Claimed(ev, cs, x)
  {
    var first := Answered({}, ev.calibration.name, ev.calibration, cs, 0);
    AnsweredMembers({}, ev.calibration.name, ev.calibration, cs, 0, x);
    AnsweredMembers(first, ev.restricted.name, ev.restricted, cs, 0, x);
    if j :| 0 <= j < |cs| && Responds(ev.calibration.name, cs[j]) && ev.calibration.results[j].challenge == x {
      assert Carries(ev, cs, false, j, x);
    }
    if j :| 0 <= j < |cs| && Responds(ev.restricted.name, cs[j]) && ev.restricted.results[j].challenge == x {
      assert Carries(ev, cs, true, j, x);
    }
    if second, i :| Carries(ev, cs, second, i, x) {
      assert PhaseOf(ev, second).results[i].challenge == x;
    }
  }

  lemma ClaimedIsHeard(ev: Evidence, cs: seq<Case>, x: string)
    requires |cs| == |ev.calibration.results| == |ev.restricted.results| && |cs| <= 100 && ProbesRight(ev, cs)
    requires Claimed(ev, cs, x)
    ensures x in EventMap(ev.listener.events)
  {
    var second, i :| Carries(ev, cs, second, i, x);
    assert ProbeRight(ev, cs, second, i);
    var j :| Answers(ev, j, second, i);
    EventMapMembers(ev.listener.events, x);
  }

  lemma HeardAllExactly(ev: Evidence, cs: seq<Case>)
    requires |cs| == |ev.calibration.results| == |ev.restricted.results| && |cs| <= 100 && ProbesRight(ev, cs)
    requires ev.calibration.name == "calibration" && ev.restricted.name == "restricted"
    ensures AllHeard(ev, cs)
       <==> forall j | 0 <= j < |ev.listener.events| :: Claimed(ev, cs, ev.listener.events[j].challenge)
  {
    var events := ev.listener.events;
    var answered := Answered(Answered({}, ev.calibration.name, ev.calibration, cs, 0), ev.restricted.name, ev.restricted, cs, 0);
    forall x ensures x in answered <==> Claimed(ev, cs, x) { AnsweredExactly(ev, cs, x); }
    forall x | x in answered ensures x in EventMap(events).Keys { ClaimedIsHeard(ev, cs, x); }
    forall j | 0 <= j < |events| ensures events[j].challenge in EventMap(events) { EventMapMembers(events, events[j].challenge); }
    if forall j | 0 <= j < |events| :: Claimed(ev, cs, events[j].challenge) {
      forall x | x in EventMap(events).Keys ensures x in answered { EventMapMembers(events, x); }
      assert answered == EventMap(events).Keys;
    }
  }

  // ------------------------------------------------------------- phases

  lemma {:induction false} CaseItemsPlain(phase: string, cs: seq<Case>, i: nat)
    requires i <= |cs| <= 100
    ensures forall k | 0 <= k < |CaseItems(phase, cs, i)| ::
              CaseItems(phase, cs, i)[k].Counter? || CaseItems(phase, cs, i)[k].Rule?
    decreases |cs| - i
  {
    if i < |cs| { CaseItemsPlain(phase, cs, i + 1); }
  }

  lemma HeadPlain(phase: string, k: nat)
    requires k < |PolicyHead(phase)|
    ensures !PolicyHead(phase)[k].Foreign? && !PolicyHead(phase)[k].Metainfo?
  {
  }

  lemma PlainHasShape(head: seq<Item>, tail: seq<Item>)
    requires forall k | 0 <= k < |head| :: !head[k].Foreign? && !head[k].Metainfo?
    requires forall k | 0 <= k < |tail| :: tail[k].Counter? || tail[k].Rule?
    ensures ShapeOf(head + tail).Ok?
  {
    ShapeExactly(head + tail);
  }

  lemma PolicyHasShape(phase: string)
    ensures ShapeOf(PolicyItems(phase)).Ok?
  {
    var cs := Cases();
    CaseItemsPlain(phase, cs, 0);
    forall k: nat | k < |PolicyHead(phase)| ensures !PolicyHead(phase)[k].Foreign? && !PolicyHead(phase)[k].Metainfo? {
      HeadPlain(phase, k);
    }
    PlainHasShape(PolicyHead(phase), CaseItems(phase, cs, 0));
  }

  lemma KeepsExactly(a: Snapshot, b: Snapshot, phase: string)
    ensures KeepsPolicy(a, b, phase) <==> ShapedAs(a, b, phase) && SameIdentity(a, b)
  {
    PolicyHasShape(phase);
  }

  lemma TargetExactly(phase: string, p: Phase)
    ensures TargetSound(phase, p) <==> KeepsPolicy(p.before, p.after, phase) && Untouched(p.before) && Counts(p.after)
  {
    KeepsExactly(p.before, p.after, phase);
  }

  lemma PeerExactly(phase: string, p: Phase, calibrated: Snapshot)
    ensures PeerSound(phase, p, calibrated)
       <==> && KeepsPolicy(p.peerBefore, p.peerAfter, "peer") && Counts(p.peerBefore) && Counts(p.peerAfter)
            && (if phase == "calibration" then Untouched(p.peerBefore)
                else SameIdentity(calibrated, p.peerBefore) && CountersOf(calibrated.ruleset) == CountersOf(p.peerBefore.ruleset))
  {
    KeepsExactly(p.peerBefore, p.peerAfter, "peer");
  }

  lemma RulesExactly(ev: Evidence)
    ensures Ruled(ev)
       <==> && TargetSound("calibration", ev.calibration) && TargetSound("restricted", ev.restricted)
            && PeerSound("calibration", ev.calibration, ev.calibration.peerAfter)
            && PeerSound("restricted", ev.restricted, ev.calibration.peerAfter)
  {
    TargetExactly("calibration", ev.calibration);
    TargetExactly("restricted", ev.restricted);
    PeerExactly("calibration", ev.calibration, ev.calibration.peerAfter);
    PeerExactly("restricted", ev.restricted, ev.calibration.peerAfter);
  }

  /** The two phases, as far as they are not about single probes. */
  predicate Outer(ev: Evidence) {
    && ListenerSound(ev) && Named(ev) && Ordered(ev)
    && PhaseSound(ev, "calibration", ev.calibration) && PhaseSound(ev, "restricted", ev.restricted)
  }

  lemma ClockAndPlace(ev: Evidence)
    ensures && ListenerSound(ev) && Named(ev) && Ordered(ev) && Windowed(ev, ev.calibration) && Windowed(ev, ev.restricted)
            && ev.calibration.sound && ev.restricted.sound
            && |ev.calibration.results| == 14 && |ev.restricted.results| == 14
       <==> Clocked(ev) && Placed(ev) && |EventMap(ev.listener.events)| == 20
  {
  }

  lemma OuterExactly(ev: Evidence)
    ensures Outer(ev) <==> Clocked(ev) && Placed(ev) && Ruled(ev) && |EventMap(ev.listener.events)| == 20
  {
    ClockAndPlace(ev);
    RulesExactly(ev);
  }

  lemma AcceptedIsCorrelated(ev: Evidence, cs: seq<Case>)
    requires |cs| == 14 && AcceptedFor(ev, cs)
    ensures Correlated(ev, cs)
  {
    AcceptedFacts(ev, cs);
    OuterExactly(ev);
    EventsIndexed(ev.listener.events);
    PhaseProbesExactly(ev, cs, false);
    PhaseProbesExactly(ev, cs, true);
    forall second: bool, i: nat | i < |cs| ensures ProbeRight(ev, cs, second, i) {
      assert PhaseOf(ev, second) == if second then ev.restricted else ev.calibration;
    }
    FreshMeansApart(ev);
    HeardAllExactly(ev, cs);
  }

  lemma CorrelatedIsAccepted(ev: Evidence, cs: seq<Case>)
    requires |cs| == 14 && Correlated(ev, cs)
    ensures AcceptedFor(ev, cs)
  {
    EventsIndexed(ev.listener.events);
    OuterExactly(ev);
    PhaseProbesExactly(ev, cs, false);
    PhaseProbesExactly(ev, cs, true);
    assert Apart(ev);
    ApartMeansFresh(ev);
    HeardAllExactly(ev, cs);
  }

  /** The evaluation accepts exactly the evidence that is correlated: in time, in place,
      under its policies, probe by probe, and event by event. */
  lemma AcceptedExactly(ev: Evidence)
    ensures Accepted(ev) <==> Correlated(ev, Cases())
  {
    var cs := Cases();
    if Accepted(ev) { AcceptedIsCorrelated(ev, cs); }
    if Correlated(ev, cs) { CorrelatedIsAccepted(ev, cs); }
  }
}
