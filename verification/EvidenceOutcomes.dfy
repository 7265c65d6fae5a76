/** What the probes of accepted evidence report, with every outcome, address and bound
    spelled out. */
module EvidenceOutcomes {
  import opened NftPolicy
  import opened NftMeaning
  import opened NftTuples
  import opened NftSnapshot
  import opened EvidenceModel
  import opened EvidenceCorrelation

  predicate EventCarries(ev: Evidence, challenge: string) {
    exists j | 0 <= j < |ev.listener.events| :: ev.listener.events[j].challenge == challenge
  }

  /** The result goes to an allowed address on a port that is open to it. */
  predicate MayPass(r: ProbeResult) {
    r.address in ["192.0.2.2", "2001:db8:7::2"] && r.port != 5432
  }

  lemma ReportsCase(ev: Evidence, cs: seq<Case>, second: bool, i: nat)
    requires |cs| == 14 && PhasesAccepted(ev, cs) && i < 14
    ensures var p, c := PhaseOf(ev, second), cs[i];
            && |p.results| == 14
            && p.results[i].family == c.family && p.results[i].address == c.address
            && p.results[i].transport == c.transport && p.results[i].port == c.port
  {
    ProbeFacts(ev, cs, second, i);
  }

  lemma HeardMeans(ev: Evidence, cs: seq<Case>, second: bool, i: nat)
    requires |cs| == 14 && PhasesAccepted(ev, cs) && i < 14
    ensures |PhaseOf(ev, second).results| == 14
    ensures EventCarries(ev, PhaseOf(ev, second).results[i].challenge) <==> Responds(PhaseOf(ev, second).name, cs[i])
  {
    ProbeHeard(ev, cs, second, i);
    EventMapMembers(ev.listener.events, PhaseOf(ev, second).results[i].challenge);
  }

  /** In the restricted phase a probe reports a matched response exactly when its tuple may
      pass, and then an event of the listener carries its challenge; every other reports no
      response after at least 0.9 seconds, and no event carries its challenge. */
  lemma RestrictedOutcomes(ev: Evidence, i: nat)
    requires Accepted(ev) && i < 14
    ensures |ev.restricted.results| == 14
    ensures var r := ev.restricted.results[i];
            && (r.outcome == "RESPONSE_MATCHED" <==> MayPass(r))
            && (r.expected == "response" <==> MayPass(r))
            && (EventCarries(ev, r.challenge) <==> MayPass(r))
            && (!MayPass(r) ==>
                  && r.outcome == "NO_RESPONSE_UNVERIFIED" && r.expected == "policy_correlated_denial"
                  && r.finished - r.started >= 0.9)
  {
    AcceptedFacts(ev, Cases());
    ProbeFacts(ev, Cases(), true, i);
    ReportsCase(ev, Cases(), true, i);
    HeardMeans(ev, Cases(), true, i);
    CaseAt(i);
  }

  /** In calibration every probe reports a matched response, and an event carries its challenge. */
  lemma CalibrationOutcomes(ev: Evidence, i: nat)
    requires Accepted(ev) && i < 14
    ensures |ev.calibration.results| == 14
    ensures var r := ev.calibration.results[i];
            r.outcome == "RESPONSE_MATCHED" && r.expected == "response" && EventCarries(ev, r.challenge)
  {
    AcceptedFacts(ev, Cases());
    ProbeFacts(ev, Cases(), false, i);
    HeardMeans(ev, Cases(), false, i);
  }

  /** The target counted packets and bytes of every probe, at least a header each, and the
      peer's counter moved exactly for the probes that were to reach it. */
  lemma ProbesCounted(ev: Evidence, second: bool, i: nat)
    requires Accepted(ev) && i < 14
    ensures var p := PhaseOf(ev, second);
            && |p.results| == 14 && CountersOf(p.after.ruleset).Ok?
            && CountersOf(p.peerBefore.ruleset).Ok? && CountersOf(p.peerAfter.ruleset).Ok?
            && var n, old_, new_ := CountersOf(p.after.ruleset).value, CountersOf(p.peerBefore.ruleset).value,
                                    CountersOf(p.peerAfter.ruleset).value;
               var name, r := CounterName(i), p.results[i];
               && name in n && name in old_ && name in new_
               && n[name].0 > 0 && n[name].1 > 0
               && n[name].1 >= n[name].0 * (if r.family == "ipv4" then 20 else 40)
               && (if second && !MayPass(r) then new_[name] == old_[name]
                   else new_[name].0 > old_[name].0 && new_[name].1 > old_[name].1)
  {
    AcceptedFacts(ev, Cases());
    ProbeFacts(ev, Cases(), second, i);
    ReportsCase(ev, Cases(), second, i);
    CaseAt(i);
  }

  /** Probes run one after the other, each for at most 1.1 seconds and all within 16. */
  lemma ProbesTimed(ev: Evidence, second: bool, i: nat)
    requires Accepted(ev) && i < 14
    ensures var p := PhaseOf(ev, second);
            && |p.results| == 14
            && 0.0 <= p.results[i].started <= p.results[i].finished <= 16.0
            && p.results[i].finished - p.results[i].started <= 1.1
            && (i > 0 ==> p.results[i - 1].finished <= p.results[i].started)
  {
    AcceptedFacts(ev, Cases());
    ProbeFacts(ev, Cases(), second, i);
  }
  /** Before and after the restricted phase the target lets out exactly the permitted tuples. */
  lemma RestrictedTarget(ev: Evidence, m: Meaning, p: Packet, depth: nat)
    requires Accepted(ev)
    ensures Passes(m, ev.restricted.before.ruleset, "output", p, depth) <==> Permitted(p)
    ensures Passes(m, ev.restricted.after.ruleset, "output", p, depth) <==> Permitted(p)
  {
    RestrictedEnforced(ev, m, p, depth);
    GrantedTuples("restricted", p);
  }
}
