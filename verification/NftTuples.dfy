/** The fixed cases and what the policies compiled from them let through, with every
    address, transport and port spelled out. */
module NftTuples {
  import opened NftPolicy
  import opened NftMeaning
  import opened NftVerdicts

  predicate Between(p: Packet, family: string, network: string, source: string, address: string) {
    && p.family == family
    && (network, "saddr") in p.fields && p.fields[(network, "saddr")] == Text(source)
    && (network, "daddr") in p.fields && p.fields[(network, "daddr")] == Text(address)
  }

  predicate Service(p: Packet, transport: string, port: int) {
    p.transport == transport && (transport, "dport") in p.fields && p.fields[(transport, "dport")] == Number(port)
  }

  /** HTTPS, or DNS over either transport. */
  predicate WebOrName(p: Packet) {
    Service(p, "tcp", 443) || Service(p, "tcp", 53) || Service(p, "udp", 53)
  }

  predicate ToAllowed(p: Packet) {
    || Between(p, "ipv4", "ip", "192.0.2.1", "192.0.2.2")
    || Between(p, "ipv6", "ip6", "2001:db8:7::1", "2001:db8:7::2")
  }

  predicate ToDenied(p: Packet) {
    || Between(p, "ipv4", "ip", "192.0.2.1", "192.0.2.3")
    || Between(p, "ipv6", "ip6", "2001:db8:7::1", "2001:db8:7::3")
  }

  predicate Permitted(p: Packet) {
    ToAllowed(p) && WebOrName(p)
  }

  predicate Probed(p: Packet) {
    ((ToAllowed(p) || ToDenied(p)) && WebOrName(p)) || (ToAllowed(p) && Service(p, "tcp", 5432))
  }

  lemma CaseTuple(p: Packet, c: Case)
    requires Plain(c)
    ensures HasTuple(p, c) <==>
              Between(p, c.family, if c.family == "ipv4" then "ip" else "ip6", c.source, c.address)
              && Service(p, c.transport, c.port)
  {
  }

  /** The services of the i-th case of a family. */
  lemma FamilyServices(p: Packet, family: string, source: string, allowed: string, denied: string)
    ensures var cs := FamilyCases(family, source, allowed, denied);
            && cs[0].port == cs[3].port == 443 && cs[0].transport == cs[3].transport == "tcp"
            && cs[1].port == cs[4].port == 53 && cs[1].transport == cs[4].transport == "tcp"
            && cs[2].port == cs[5].port == 53 && cs[2].transport == cs[5].transport == "udp"
            && cs[6].port == 5432 && cs[6].transport == "tcp"
            && (forall i | 0 <= i < 7 :: cs[i].family == family && cs[i].source == source
                 && cs[i].address == (if 3 <= i < 6 then denied else allowed) && (cs[i].permitted <==> i < 3))
  {
  }

  predicate InCases(p: Packet, cs: seq<Case>, lo: int, hi: int)
    requires 0 <= lo <= hi <= |cs|
  {
    exists j | lo <= j < hi :: HasTuple(p, cs[j])
  }

  lemma FamilyTuples(p: Packet, family: string, network: string, source: string, allowed: string, denied: string)
    requires family == "ipv4" || family == "ipv6"
    requires network == if family == "ipv4" then "ip" else "ip6"
    ensures var cs := FamilyCases(family, source, allowed, denied);
            && (InCases(p, cs, 0, 3) <==> Between(p, family, network, source, allowed) && WebOrName(p))
            && (InCases(p, cs, 3, 6) <==> Between(p, family, network, source, denied) && WebOrName(p))
            && (InCases(p, cs, 6, 7) <==> Between(p, family, network, source, allowed) && Service(p, "tcp", 5432))
  {
    var cs := FamilyCases(family, source, allowed, denied);
    FamilyServices(p, family, source, allowed, denied);
    forall i | 0 <= i < 7
      ensures HasTuple(p, cs[i]) <==> Between(p, family, network, source, cs[i].address) && Service(p, cs[i].transport, cs[i].port)
    {
      CaseTuple(p, cs[i]);
    }
    assert HasTuple(p, cs[0]) || HasTuple(p, cs[1]) || HasTuple(p, cs[2]) <==> InCases(p, cs, 0, 3);
    assert HasTuple(p, cs[3]) || HasTuple(p, cs[4]) || HasTuple(p, cs[5]) <==> InCases(p, cs, 3, 6);
  }

  lemma GrantedIn(p: Packet, phase: string, a: seq<Case>, b: seq<Case>)
    requires |a| == |b| == 7
    requires forall i | 0 <= i < 7 :: (a[i].permitted <==> i < 3) && (b[i].permitted <==> i < 3)
    ensures GrantedFrom(phase, a + b, 0, p)
       <==> || InCases(p, a, 0, 3) || InCases(p, b, 0, 3)
            || (phase != "restricted" && (InCases(p, a, 3, 6) || InCases(p, b, 3, 6) || InCases(p, a, 6, 7) || InCases(p, b, 6, 7)))
  {
    var cs := a + b;
    assert forall i | 0 <= i < 7 :: cs[i] == a[i] && cs[i + 7] == b[i];
    if GrantedFrom(phase, cs, 0, p) {
      var j :| 0 <= j < |cs| && HasTuple(p, cs[j]) && Granted(phase, cs[j]);
      if j < 7 { assert HasTuple(p, a[j]); } else { assert HasTuple(p, b[j - 7]); }
    }
    forall i | 0 <= i < 7 && Granted(phase, a[i]) && HasTuple(p, a[i]) ensures GrantedFrom(phase, cs, 0, p) {
      assert HasTuple(p, cs[i]) && Granted(phase, cs[i]);
    }
    forall i | 0 <= i < 7 && Granted(phase, b[i]) && HasTuple(p, b[i]) ensures GrantedFrom(phase, cs, 0, p) {
      assert HasTuple(p, cs[i + 7]) && Granted(phase, cs[i + 7]);
    }
  }

  /** What the fixed cases grant. */
  lemma GrantedTuples(phase: string, p: Packet)
    ensures GrantedFrom(phase, Cases(), 0, p) <==> if phase == "restricted" then Permitted(p) else Probed(p)
  {
    var a, b := FamilyCases("ipv4", "192.0.2.1", "192.0.2.2", "192.0.2.3"),
                FamilyCases("ipv6", "2001:db8:7::1", "2001:db8:7::2", "2001:db8:7::3");
    FamilyServices(p, "ipv4", "192.0.2.1", "192.0.2.2", "192.0.2.3");
    FamilyServices(p, "ipv6", "2001:db8:7::1", "2001:db8:7::2", "2001:db8:7::3");
    FamilyTuples(p, "ipv4", "ip", "192.0.2.1", "192.0.2.2", "192.0.2.3");
    FamilyTuples(p, "ipv6", "ip6", "2001:db8:7::1", "2001:db8:7::2", "2001:db8:7::3");
    GrantedIn(p, phase, a, b);
  }

  /** The restricted target lets out the permitted services of the allowed peer and nothing
      else, lets in replies, and forwards nothing. */
  lemma RestrictedExactly(m: Meaning, p: Packet, depth: nat)
    ensures Passes(m, PolicyItems("restricted"), "output", p, depth) <==> Permitted(p)
    ensures Passes(m, PolicyItems("restricted"), "input", p, depth) <==> p.state in ["established", "related"]
    ensures !Passes(m, PolicyItems("restricted"), "forward", p, depth)
  {
    GrantedTuples("restricted", p);
    PolicyPasses(m, "restricted", "output", p, depth);
    PolicyPasses(m, "restricted", "input", p, depth);
    PolicyPasses(m, "restricted", "forward", p, depth);
  }

  /** The target under calibration lets out every probed tuple; the peer lets the same in
      and only replies out. */
  lemma ProbedExactly(m: Meaning, p: Packet, depth: nat)
    ensures Passes(m, PolicyItems("calibration"), "output", p, depth) <==> Probed(p)
    ensures Passes(m, PolicyItems("calibration"), "input", p, depth) <==> p.state in ["established", "related"]
    ensures Passes(m, PolicyItems("peer"), "input", p, depth) <==> Probed(p)
    ensures Passes(m, PolicyItems("peer"), "output", p, depth) <==> p.state in ["established", "related"]
    ensures !Passes(m, PolicyItems("calibration"), "forward", p, depth) && !Passes(m, PolicyItems("peer"), "forward", p, depth)
  {
    GrantedTuples("calibration", p);
    GrantedTuples("peer", p);
    PolicyPasses(m, "calibration", "output", p, depth);
    PolicyPasses(m, "calibration", "input", p, depth);
    PolicyPasses(m, "calibration", "forward", p, depth);
    PolicyPasses(m, "peer", "output", p, depth);
    PolicyPasses(m, "peer", "input", p, depth);
    PolicyPasses(m, "peer", "forward", p, depth);
  }

  /** Nothing leaves the restricted target for the denied addresses or for port 5432. */
  lemma DeniedNeverLeaves(m: Meaning, p: Packet, depth: nat)
    requires || (p.family == "ipv4" && ("ip", "daddr") in p.fields && p.fields[("ip", "daddr")] == Text("192.0.2.3"))
             || (p.family == "ipv6" && ("ip6", "daddr") in p.fields && p.fields[("ip6", "daddr")] == Text("2001:db8:7::3"))
             || ((p.transport, "dport") in p.fields && p.fields[(p.transport, "dport")] == Number(5432))
    ensures !Passes(m, PolicyItems("restricted"), "output", p, depth)
  {
    RestrictedExactly(m, p, depth);
  }

  /** A case is permitted exactly when it goes to an allowed address on a port other than 5432. */
  lemma CaseAt(i: nat)
    requires i < 14
    ensures var c := Cases()[i];
            && (c.permitted <==> c.address in ["192.0.2.2", "2001:db8:7::2"] && c.port != 5432)
            && (!c.permitted <==> c.address in ["192.0.2.3", "2001:db8:7::3"] || c.port == 5432)
            && c.port in [53, 443, 5432]
  {
    assert "192.0.2.2"[8] == '2' && "192.0.2.3"[8] == '3' && "2001:db8:7::2"[12] == '2' && "2001:db8:7::3"[12] == '3';
  }
}
