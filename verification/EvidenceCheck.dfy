/** The evaluation of the evidence, check by check. */
module EvidenceCheck {
  import opened NftPolicy
  import opened NftSnapshot
  import opened EvidenceModel

  method IndexEvents(events: seq<Event>) returns (m: map<string, Event>)
    ensures m == EventMap(events)
  {
    m := map[];
    var i := 0;
    while i < |events|
      invariant i <= |events| && m == EventMap(events[..i])
    {
      assert events[..i + 1][..i] == events[..i];
      m := m[events[i].challenge := events[i]];
      i := i + 1;
    }
    assert events[..i] == events;
  }

  method CompareShapes(s: Snapshot, t: Snapshot, phase: string) returns (ok: bool)
    ensures ok <==> ShapedAs(s, t, phase)
  {
    var a := PolicyShape(s.ruleset);
    var b := PolicyShape(t.ruleset);
    var expected := PolicyShape(PolicyItems(phase));
    ok := a.Ok? && a == b && b == expected;
  }

  method CompareIdentities(s: Snapshot, t: Snapshot) returns (ok: bool)
    ensures ok <==> SameIdentity(s, t)
  {
    var a := SnapshotIdentity(s.ruleset);
    var b := SnapshotIdentity(t.ruleset);
    ok := a.Ok? && a == b;
  }

  method CheckTarget(phase: string, p: Phase) returns (ok: bool)
    ensures ok <==> TargetSound(phase, p)
  {
    var shaped := CompareShapes(p.before, p.after, phase);
    if !shaped { return false; }
    var same := CompareIdentities(p.before, p.after);
    if !same { return false; }
    var initial := CounterValues(p.before.ruleset);
    var final := CounterValues(p.after.ruleset);
    ok := initial.Ok? && final.Ok? && forall name | name in initial.value :: initial.value[name] == (0, 0);
  }

  method CheckPeer(phase: string, p: Phase, calibrated: Snapshot) returns (ok: bool)
    ensures ok <==> PeerSound(phase, p, calibrated)
  {
    var shaped := CompareShapes(p.peerBefore, p.peerAfter, "peer");
    if !shaped { return false; }
    var same := CompareIdentities(p.peerBefore, p.peerAfter);
    if !same { return false; }
    var initial := CounterValues(p.peerBefore.ruleset);
    var final := CounterValues(p.peerAfter.ruleset);
    if initial.Err? || final.Err? { return false; }
    if phase == "calibration" {
      ok := forall name | name in initial.value :: initial.value[name] == (0, 0);
    } else {
      same := CompareIdentities(calibrated, p.peerBefore);
      if !same { return false; }
      var prior := CounterValues(calibrated.ruleset);
      ok := prior == initial;
    }
  }

  method CheckPhase(ev: Evidence, phase: string, p: Phase) returns (ok: bool)
    ensures ok <==> PhaseSound(ev, phase, p)
  {
    if !p.sound || !Windowed(ev, p) { return false; }
    var target := CheckTarget(phase, p);
    if !target { return false; }
    var peer := CheckPeer(phase, p, ev.calibration.peerAfter);
    ok := peer && |p.results| == 14;
  }

  /** Flagged results with fresh challenges from the i-th on. */
  predicate SoundFrom(flags: seq<bool>, p: Phase, i: nat, used: set<string>)
    requires i <= |flags| == |p.results|
    decreases |flags| - i
  {
    i == |flags|
    || (flags[i] && p.results[i].challenge !in used && SoundFrom(flags, p, i + 1, used + {p.results[i].challenge}))
  }

  lemma {:induction false} SoundFromMeans(flags: seq<bool>, p: Phase, i: nat, used: set<string>)
    requires i <= |flags| == |p.results|
    ensures SoundFrom(flags, p, i, used) <==> (forall j | i <= j < |flags| :: flags[j]) && FreshChallenges(p, i, used)
    decreases |flags| - i
  {
    if i < |flags| { SoundFromMeans(flags, p, i + 1, used + {p.results[i].challenge}); }
  }

  /** Which results are sound. */
  ghost function Flags(events: map<string, Event>, n: Counted, phase: string, p: Phase, cs: seq<Case>): seq<bool>
    requires |cs| == |p.results| && |cs| <= 100
  {
    seq(|cs|, i requires 0 <= i < |cs| => ResultSound(events, n, phase, p, cs, i))
  }

  lemma FlagsMean(events: map<string, Event>, n: Counted, phase: string, p: Phase, cs: seq<Case>)
    requires |cs| == |p.results| && |cs| <= 100
    ensures ResultsSound(events, n, phase, p, cs)
       <==> forall j | 0 <= j < |cs| :: Flags(events, n, phase, p, cs)[j]
  {
    var flags := Flags(events, n, phase, p, cs);
    if forall j | 0 <= j < |cs| :: flags[j] {
      forall j: nat | j < |cs| ensures ResultSound(events, n, phase, p, cs, j) { assert flags[j]; }
    }
  }

  method CheckResult(events: map<string, Event>, n: Counted, phase: string, p: Phase, cs: seq<Case>, i: nat, previous: real)
    returns (sound: bool)
    requires i < |cs| == |p.results| && |cs| <= 100 && previous == if i == 0 then 0.0 else p.results[i - 1].finished
    ensures sound <==> ResultSound(events, n, phase, p, cs, i)
  {
    var r, granted := p.results[i], Responds(phase, cs[i]);
    if !Expected(r, cs[i], granted) || !Timed(r, previous, p.end - p.start, granted) { return false; }
    if !HexDigest(r.challenge) { return false; }
    if !CountedAs(n.final, n.peerInitial, n.peerFinal, CounterName(i), cs[i].family, granted) { return false; }
    return Heard(events, r, i, p.start, granted);
  }

  /** Walks through the results of a phase, collecting the challenges it has seen and
      those that an event answered. */
  method CheckResults(events: map<string, Event>, n: Counted, phase: string, p: Phase, cs: seq<Case>,
                      used: set<string>, answered: set<string>)
    returns (ok: bool, challenges: set<string>, consumed: set<string>)
    requires |cs| == |p.results| && |cs| <= 100
    ensures ok <==> ResultsSound(events, n, phase, p, cs) && FreshChallenges(p, 0, used)
    ensures ok ==> challenges == Used(used, p, 0) && consumed == Answered(answered, phase, p, cs, 0)
  {
    ghost var flags := Flags(events, n, phase, p, cs);
    SoundFromMeans(flags, p, 0, used);
    FlagsMean(events, n, phase, p, cs);
    challenges, consumed := used, answered;
    var previous := 0.0;
    var i := 0;
    while i < |cs|
      invariant i <= |cs| && previous == if i == 0 then 0.0 else p.results[i - 1].finished
      invariant SoundFrom(flags, p, 0, used) == SoundFrom(flags, p, i, challenges)
      invariant Used(used, p, 0) == Used(challenges, p, i)
      invariant Answered(answered, phase, p, cs, 0) == Answered(consumed, phase, p, cs, i)
    {
      var r := p.results[i];
      var sound := CheckResult(events, n, phase, p, cs, i, previous);
      if !sound || r.challenge in challenges { return false, challenges, consumed; }
      previous := r.finished;
      challenges := challenges + {r.challenge};
      if Responds(phase, cs[i]) { consumed := consumed + {r.challenge}; }
      i := i + 1;
    }
    ok := true;
  }

  method CheckListener(ev: Evidence) returns (ok: bool, events: map<string, Event>)
    ensures ok <==> ListenerSound(ev)
    ensures events == EventMap(ev.listener.events)
  {
    var l := ev.listener;
    events := IndexEvents(l.events);
    ok := ev.sound && l.sound && l.ready < l.final && l.final - l.ready <= 42.0
          && ev.originalAt < l.ready && l.final <= ev.restoredAt && ev.restoredAt - l.final <= 120.0
          && |l.events| == 20 && |events| == 20;
  }

  method CheckWhole(ev: Evidence, phase: string, p: Phase, events: map<string, Event>, cs: seq<Case>,
                    used: set<string>, answered: set<string>)
    returns (ok: bool, challenges: set<string>, consumed: set<string>)
    requires |cs| == 14 && events == EventMap(ev.listener.events)
    ensures ok <==> PhaseAccepted(ev, phase, p, cs) && FreshChallenges(p, 0, used)
    ensures ok ==> challenges == Used(used, p, 0) && consumed == Answered(answered, phase, p, cs, 0)
  {
    challenges, consumed := used, answered;
    var sound := CheckPhase(ev, phase, p);
    if !sound { return false, challenges, consumed; }
    ok, challenges, consumed := CheckResults(events, CountedIn(p), phase, p, cs, used, answered);
  }

  method CheckPhases(ev: Evidence, events: map<string, Event>, cs: seq<Case>)
    returns (ok: bool, both: set<string>)
    requires |cs| == 14 && events == EventMap(ev.listener.events)
    ensures ok <==> PhasesAccepted(ev, cs)
    ensures ok ==> both == Answered(Answered({}, ev.calibration.name, ev.calibration, cs, 0),
                                    ev.restricted.name, ev.restricted, cs, 0)
  {
    var passed, challenges, first := CheckWhole(ev, ev.calibration.name, ev.calibration, events, cs, {}, {});
    if !passed { return false, {}; }
    ok, challenges, both := CheckWhole(ev, ev.restricted.name, ev.restricted, events, cs, challenges, first);
  }

  /** The whole evaluation: accepts exactly the evidence that satisfies every condition. */
  method Evaluate(ev: Evidence, cs: seq<Case>) returns (ok: bool)
    requires |cs| == 14
    ensures ok <==> AcceptedFor(ev, cs)
  {
    var sound, events := CheckListener(ev);
    if !sound { return false; }
    var phases, consumed := CheckPhases(ev, events, cs);
    if !phases { return false; }
    if consumed != events.Keys { return false; }
    ok := Named(ev) && Ordered(ev);
  }
}
