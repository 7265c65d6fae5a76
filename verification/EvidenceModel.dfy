/** Correlation of the synthetic artifacts: what an accepted set of evidence satisfies. */
module EvidenceModel {
  import opened NftPolicy
  import opened NftSnapshot

  /** Times are seconds on one clock. */
  datatype Snapshot = Snapshot(inode: int, captured: real, ruleset: seq<Item>)

  datatype ProbeResult = ProbeResult(
    family: string, address: string, transport: string, port: int, expected: string, outcome: string,
    started: real, finished: real, challenge: string)

  datatype Event = Event(challenge: string, index: int, at: real)

  /** One phase of the probe, under the name its report gives; sound says that the report
      has the right unit, process, limits, status and boundary. */
  datatype Phase = Phase(
    name: string, invocation: string, sound: bool, start: real, end: real, results: seq<ProbeResult>,
    before: Snapshot, after: Snapshot, peerBefore: Snapshot, peerAfter: Snapshot)

  /** The listener; sound says that both its records agree and have the right status,
      process, boundary, bound cases and exchange count. */
  datatype Listener = Listener(invocation: string, sound: bool, ready: real, final: real, events: seq<Event>)

  /** sound says that the manifest matches the sources and policies and that the original
      policy was restored. */
  datatype Evidence = Evidence(
    sound: bool, target: int, peer: int, originalAt: real, restoredAt: real,
    calibration: Phase, restricted: Phase, listener: Listener)

  predicate Responds(phase: string, c: Case) {
    phase == "calibration" || c.permitted
  }

  predicate HexDigest(s: string) {
    |s| == 64 && forall c | c in s :: '0' <= c <= '9' || 'a' <= c <= 'f'
  }

  function EventMap(events: seq<Event>): map<string, Event> {
    if events == [] then map[]
    else EventMap(events[..|events| - 1])[events[|events| - 1].challenge := events[|events| - 1]]
  }

  /** The shapes of two snapshots are those of the policy of the phase. */
  predicate ShapedAs(s: Snapshot, t: Snapshot, phase: string) {
    && ShapeOf(s.ruleset).Ok? && ShapeOf(s.ruleset) == ShapeOf(t.ruleset) == ShapeOf(PolicyItems(phase))
  }

  predicate SameIdentity(s: Snapshot, t: Snapshot) {
    Identity(s.ruleset).Ok? && Identity(s.ruleset) == Identity(t.ruleset)
  }

  predicate AllZero(doc: seq<Item>) {
    CountersOf(doc).Ok? && forall name | name in CountersOf(doc).value :: CountersOf(doc).value[name] == (0, 0)
  }

  /** The phase lies within the listener's life and its snapshots surround it. */
  predicate Windowed(ev: Evidence, p: Phase) {
    var l := ev.listener;
    && l.ready <= p.start < p.end <= l.final && p.end - p.start <= 16.5
    && p.before.inode == p.after.inode == ev.target
    && p.before.captured <= p.start && p.after.captured >= p.end
    && l.ready <= p.before.captured <= p.after.captured <= l.final
    && p.peerBefore.inode == p.peerAfter.inode == ev.peer
    && l.ready <= p.peerBefore.captured <= p.start && p.end <= p.peerAfter.captured <= l.final
  }

  /** The target keeps the policy of the phase, and its counters start at zero. */
  predicate TargetSound(phase: string, p: Phase) {
    && ShapedAs(p.before, p.after, phase) && SameIdentity(p.before, p.after)
    && AllZero(p.before.ruleset) && CountersOf(p.after.ruleset).Ok?
  }

  /** The peer keeps its own policy; its counters start at zero for calibration, and where
      calibration left them for the restricted phase. */
  predicate PeerSound(phase: string, p: Phase, calibrated: Snapshot) {
    && ShapedAs(p.peerBefore, p.peerAfter, "peer") && SameIdentity(p.peerBefore, p.peerAfter)
    && CountersOf(p.peerBefore.ruleset).Ok? && CountersOf(p.peerAfter.ruleset).Ok?
    && (if phase == "calibration" then AllZero(p.peerBefore.ruleset)
        else SameIdentity(calibrated, p.peerBefore)
             && CountersOf(calibrated.ruleset) == CountersOf(p.peerBefore.ruleset))
  }

  predicate PhaseSound(ev: Evidence, phase: string, p: Phase) {
    && p.sound && |p.results| == 14
    && Windowed(ev, p) && TargetSound(phase, p) && PeerSound(phase, p, ev.calibration.peerAfter)
  }

  /** The probe reports the case it should, with the outcome it should. */
  predicate Expected(r: ProbeResult, c: Case, granted: bool) {
    && r.family == c.family && r.address == c.address && r.transport == c.transport && r.port == c.port
    && r.expected == (if granted then "response" else "policy_correlated_denial")
    && r.outcome == (if granted then "RESPONSE_MATCHED" else "NO_RESPONSE_UNVERIFIED")
  }

  predicate Timed(r: ProbeResult, previous: real, length: real, granted: bool) {
    && 0.0 <= r.started && previous <= r.started <= r.finished <= 16.0 && r.finished - r.started <= 1.1
    && r.finished <= length + 0.25
    && (!granted ==> r.finished - r.started >= 0.9)
  }

  /** The target counted the probe, and the peer did exactly when the case is granted. */
  predicate CountedAs(final: Counts, old_: Counts, new_: Counts, name: string, family: string, granted: bool) {
    && name in final && final[name].0 > 0 && final[name].1 >= final[name].0 * (if family == "ipv4" then 20 else 40)
    && name in old_ && name in new_
    && (if granted then new_[name].0 > old_[name].0 && new_[name].1 > old_[name].1 else new_[name] == old_[name])
  }

  /** A granted probe has its event in its own window; a denied one has none. */
  predicate Heard(events: map<string, Event>, r: ProbeResult, i: int, start: real, granted: bool) {
    if granted then
      && r.challenge in events && events[r.challenge].index == i
      && start + r.started - 0.25 <= events[r.challenge].at <= start + r.finished + 0.25
    else r.challenge !in events
  }

  /** The counters of the target after a phase and of the peer before and after it. */
  datatype Counted = Counted(final: Counts, peerInitial: Counts, peerFinal: Counts)

  function CountedIn(p: Phase): Counted
    requires CountersOf(p.after.ruleset).Ok?
    requires CountersOf(p.peerBefore.ruleset).Ok? && CountersOf(p.peerAfter.ruleset).Ok?
  {
    Counted(CountersOf(p.after.ruleset).value, CountersOf(p.peerBefore.ruleset).value,
            CountersOf(p.peerAfter.ruleset).value)
  }

  predicate ResultSound(events: map<string, Event>, n: Counted, phase: string, p: Phase, cs: seq<Case>, i: nat)
    requires i < |cs| == |p.results| && |cs| <= 100
  {
    var r, c, granted := p.results[i], cs[i], Responds(phase, cs[i]);
    && Expected(r, c, granted)
    && Timed(r, if i == 0 then 0.0 else p.results[i - 1].finished, p.end - p.start, granted)
    && HexDigest(r.challenge)
    && CountedAs(n.final, n.peerInitial, n.peerFinal, CounterName(i), c.family, granted)
    && Heard(events, r, i, p.start, granted)
  }

  predicate ResultsSound(events: map<string, Event>, n: Counted, phase: string, p: Phase, cs: seq<Case>)
    requires |cs| == |p.results| && |cs| <= 100
  {
    forall i: nat | i < |cs| :: ResultSound(events, n, phase, p, cs, i)
  }

  predicate PhaseAccepted(ev: Evidence, phase: string, p: Phase, cs: seq<Case>)
    requires |cs| == 14
  {
    PhaseSound(ev, phase, p) && ResultsSound(EventMap(ev.listener.events), CountedIn(p), phase, p, cs)
  }

  /** The challenges in use after the results from the i-th on. */
  function Used(used: set<string>, p: Phase, i: nat): set<string>
    requires i <= |p.results|
    decreases |p.results| - i
  {
    if i == |p.results| then used else Used(used + {p.results[i].challenge}, p, i + 1)
  }

  /** No challenge is used twice, within a phase from its i-th result on or before. */
  predicate FreshChallenges(p: Phase, i: nat, used: set<string>)
    requires i <= |p.results|
    decreases |p.results| - i
  {
    i == |p.results|
    || (p.results[i].challenge !in used && FreshChallenges(p, i + 1, used + {p.results[i].challenge}))
  }

  /** The answered challenges after the granted results from the i-th on. */
  function Answered(answered: set<string>, phase: string, p: Phase, cs: seq<Case>, i: nat): set<string>
    requires i <= |cs| == |p.results|
    decreases |cs| - i
  {
    if i == |cs| then answered
    else Answered(if Responds(phase, cs[i]) then answered + {p.results[i].challenge} else answered, phase, p, cs, i + 1)
  }

  predicate ListenerSound(ev: Evidence) {
    var l := ev.listener;
    && ev.sound && l.sound
    && l.ready < l.final && l.final - l.ready <= 42.0
    && ev.originalAt < l.ready && l.final <= ev.restoredAt && ev.restoredAt - l.final <= 120.0
    && |l.events| == 20 && |EventMap(l.events)| == 20
  }

  predicate Ordered(ev: Evidence) {
    && ev.calibration.invocation != ev.restricted.invocation
    && ev.listener.invocation != ev.calibration.invocation && ev.listener.invocation != ev.restricted.invocation
    && ev.calibration.end <= ev.restricted.start && ev.restricted.end - ev.calibration.start <= 40.0
  }

  predicate Named(ev: Evidence) {
    ev.calibration.name == "calibration" && ev.restricted.name == "restricted"
  }

  /** Both phases are sound and no challenge repeats. */
  predicate PhasesAccepted(ev: Evidence, cs: seq<Case>)
    requires |cs| == 14
  {
    && PhaseAccepted(ev, ev.calibration.name, ev.calibration, cs) && FreshChallenges(ev.calibration, 0, {})
    && PhaseAccepted(ev, ev.restricted.name, ev.restricted, cs)
    && FreshChallenges(ev.restricted, 0, Used({}, ev.calibration, 0))
  }

  /** The challenges of the granted results are those the listener heard. */
  predicate AllHeard(ev: Evidence, cs: seq<Case>)
    requires |cs| == |ev.calibration.results| == |ev.restricted.results|
  {
    Answered(Answered({}, ev.calibration.name, ev.calibration, cs, 0), ev.restricted.name, ev.restricted, cs, 0)
    == EventMap(ev.listener.events).Keys
  }

  predicate AcceptedFor(ev: Evidence, cs: seq<Case>)
    requires |cs| == 14
  {
    ListenerSound(ev) && Named(ev) && Ordered(ev) && PhasesAccepted(ev, cs) && AllHeard(ev, cs)
  }

  predicate Accepted(ev: Evidence) {
    AcceptedFor(ev, Cases())
  }
}
