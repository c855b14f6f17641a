/** The router's forward chain, first match wins, over a connection table
    (docs/evidence/step-13/scenario-6-segmentation). */
module Firewall {
  import opened Wrappers

  datatype Interface = Ether1 | Mgmt | Ctrl | Nodes | OtherInterface
  datatype Protocol = Tcp | Udp | Icmp | OtherProtocol
  datatype ConnState = Established | Related | Invalid | New
  datatype Verdict = Accept | Drop

  datatype Packet = Packet(source: Interface, target: Interface, protocol: Protocol, port: nat)

  datatype Rule = Rule(
    states: set<ConnState>,            // empty: any state
    source: Option<Interface>,
    target: Option<Interface>,
    protocol: Option<Protocol>,
    port: Option<nat>,
    action: Verdict)

  predicate Matches(r: Rule, p: Packet, c: ConnState) {
    && (r.states == {} || c in r.states)
    && (r.source.None? || r.source.value == p.source)
    && (r.target.None? || r.target.value == p.target)
    && (r.protocol.None? || r.protocol.value == p.protocol)
    && (r.port.None? || r.port.value == p.port)
  }

  /** The first matching rule decides; a packet no rule matches is accepted. */
  function Decide(rules: seq<Rule>, p: Packet, c: ConnState): Verdict {
    if rules == [] then Accept
    else if Matches(rules[0], p, c) then rules[0].action
    else Decide(rules[1..], p, c)
  }

  function Between(source: Interface, target: Interface, action: Verdict): Rule {
    Rule({}, Some(source), Some(target), None, None, action)
  }

  function Allow(source: Interface, target: Interface, port: nat): Rule {
    Rule({}, Some(source), Some(target), Some(Tcp), Some(port), Accept)
  }

  function AllowPing(source: Interface, target: Interface): Rule {
    Rule({}, Some(source), Some(target), Some(Icmp), None, Accept)
  }

  const HEAD: seq<Rule> := [
    Rule({Established, Related}, None, None, None, None, Accept),
    Rule({Invalid}, None, None, None, None, Drop),
    Between(Mgmt, Ether1, Accept),
    Between(Ctrl, Ether1, Accept)
  ]

  /** PROVISIONING: nodes to the internet, removed before deployment. */
  const PROVISIONING: Rule := Between(Nodes, Ether1, Accept)

  const TAIL: seq<Rule> := [
    Between(Nodes, Ether1, Drop),
    Allow(Mgmt, Ctrl, 22),
    Allow(Mgmt, Ctrl, 443),
    AllowPing(Mgmt, Ctrl),
    Allow(Ctrl, Nodes, 443),
    AllowPing(Ctrl, Nodes),
    Allow(Nodes, Ctrl, 443),
    Allow(Nodes, Ctrl, 9000),
    Allow(Ctrl, Nodes, 22),
    Allow(Ctrl, Nodes, 9100),
    Rule({}, None, None, None, None, Drop)
  ]

  const BEFORE: seq<Rule> := HEAD + [PROVISIONING] + TAIL
  const AFTER: seq<Rule> := HEAD + TAIL

  lemma {:induction false} DecideOfConcat(a: seq<Rule>, b: seq<Rule>, p: Packet, c: ConnState)
    ensures (exists i :: 0 <= i < |a| && Matches(a[i], p, c)) ==> Decide(a + b, p, c) == Decide(a, p, c)
    ensures (forall i :: 0 <= i < |a| ==> !Matches(a[i], p, c)) ==> Decide(a + b, p, c) == Decide(b, p, c)
  {
    if a == [] {
      assert a + b == b;
    } else {
      assert (a + b)[1..] == a[1..] + b;
      DecideOfConcat(a[1..], b, p, c);
      if i :| 0 <= i < |a| && Matches(a[i], p, c) {
        assert i > 0 ==> a[1..][i - 1] == a[i];
      }
    }
  }

  /** For any rule list: taking one rule out changes the verdict exactly for the
      packets it decided and the rest would decide otherwise. */
  lemma RemovingOneRule(a: seq<Rule>, r: Rule, b: seq<Rule>, p: Packet, c: ConnState)
    ensures Decide(a + [r] + b, p, c) != Decide(a + b, p, c) <==>
      && (forall i :: 0 <= i < |a| ==> !Matches(a[i], p, c))
      && Matches(r, p, c) && Decide(b, p, c) != r.action
  {
    assert a + [r] + b == a + ([r] + b);
    assert ([r] + b)[1..] == b;
    DecideOfConcat(a, [r] + b, p, c);
    DecideOfConcat(a, b, p, c);
  }

  /** Removing the provisioning rule changes the verdict exactly for fresh
      packets from the nodes to the internet. */
  lemma RemovalAffectsOnlyNodesToWan(p: Packet, c: ConnState)
    ensures Decide(BEFORE, p, c) != Decide(AFTER, p, c) <==> p.source == Nodes && p.target == Ether1 && c == New
  {
    RemovingOneRule(HEAD, PROVISIONING, TAIL, p, c);
    if p.source == Nodes && p.target == Ether1 {
      assert Matches(TAIL[0], p, c);
      assert Decide(TAIL, p, c) == Drop;
    }
    assert c != New ==> Matches(HEAD[0], p, c) || Matches(HEAD[1], p, c);
  }

  /** What may be opened after the removal: the management and controller networks
      to the internet, and the listed services between the networks. */
  predicate MayOpen(p: Packet) {
    || (p.source in {Mgmt, Ctrl} && p.target == Ether1)
    || (p.source == Mgmt && p.target == Ctrl && (p.protocol == Icmp || (p.protocol == Tcp && p.port in {22, 443})))
    || (p.source == Ctrl && p.target == Nodes
        && (p.protocol == Icmp || (p.protocol == Tcp && p.port in {22, 443, 9100})))
    || (p.source == Nodes && p.target == Ctrl && p.protocol == Tcp && p.port in {443, 9000})
  }

  lemma {:induction false} FirstMatch(rules: seq<Rule>, p: Packet, c: ConnState, i: nat)
    requires i < |rules| && Matches(rules[i], p, c)
    requires forall j :: 0 <= j < i ==> !Matches(rules[j], p, c)
    ensures Decide(rules, p, c) == rules[i].action
  {
    if i > 0 {
      FirstMatch(rules[1..], p, c, i - 1);
    }
  }

  /** A packet no rule matches is accepted. */
  lemma {:induction false} NoMatchAccepts(rules: seq<Rule>, p: Packet, c: ConnState)
    requires forall i :: 0 <= i < |rules| ==> !Matches(rules[i], p, c)
    ensures Decide(rules, p, c) == Accept
  {
    if rules != [] {
      NoMatchAccepts(rules[1..], p, c);
    }
  }

  lemma {:induction false} NoMatchSkips(a: seq<Rule>, b: seq<Rule>, p: Packet, c: ConnState)
    requires forall i :: 0 <= i < |a| ==> !Matches(a[i], p, c)
    ensures Decide(a + b, p, c) == Decide(b, p, c)
  {
    DecideOfConcat(a, b, p, c);
  }

  /** The services the chain lists are those that may be opened. */
  lemma TailListsServices(p: Packet)
    requires p.target != Ether1
    ensures MayOpen(p) <==> exists i :: 0 <= i < |TAIL| - 1 && Matches(TAIL[i], p, New)
  {
    if MayOpen(p) {
      var i :=
        if p.source == Mgmt then if p.protocol == Icmp then 3 else if p.port == 22 then 1 else 2
        else if p.source == Nodes then if p.port == 443 then 6 else 7
        else if p.protocol == Icmp then 5 else if p.port == 443 then 4 else if p.port == 22 then 8 else 9;
      assert Matches(TAIL[i], p, New);
    }
  }

  lemma {:induction false} FirstOf(rules: seq<Rule>, p: Packet, c: ConnState, i: nat) returns (k: nat)
    requires i < |rules| && Matches(rules[i], p, c)
    ensures k <= i && Matches(rules[k], p, c) && forall j :: 0 <= j < k ==> !Matches(rules[j], p, c)
    decreases i
  {
    k := i;
    if j :| 0 <= j < i && Matches(rules[j], p, c) {
      k := FirstOf(rules, p, c, j);
    }
  }

  lemma TailAccepts(k: nat, p: Packet)
    requires k < |TAIL| - 1 && Matches(TAIL[k], p, New) && p.target != Ether1
    ensures TAIL[k].action == Accept
  {
  }

  lemma VerdictOfTail(p: Packet)
    requires p.target != Ether1
    ensures Decide(TAIL, p, New) == Accept <==> MayOpen(p)
  {
    TailListsServices(p);
    hide Decide, MayOpen;
    if MayOpen(p) {
      hide Matches;
      var i :| 0 <= i < |TAIL| - 1 && Matches(TAIL[i], p, New);
      var k := FirstOf(TAIL, p, New, i);
      TailAccepts(k, p);
      FirstMatch(TAIL, p, New, k);
    } else {
      FirstMatch(TAIL, p, New, |TAIL| - 1);
    }
  }

  /** Every verdict of the deployed chain, in terms of the packet: established and
      related traffic passes, invalid traffic does not, and a new connection may be
      opened exactly where the list above says. */
  lemma VerdictIs(p: Packet, c: ConnState)
    ensures Decide(AFTER, p, c) == Accept <==>
      c == Established || c == Related || (c == New && MayOpen(p))
  {
    if c == New {
      if p.source in {Mgmt, Ctrl} && p.target == Ether1 {
        FirstMatch(AFTER, p, c, if p.source == Mgmt then 2 else 3);
      } else {
        NoMatchSkips(HEAD, TAIL, p, c);
        if p.target == Ether1 {
          FirstMatch(TAIL, p, c, if p.source == Nodes then 0 else |TAIL| - 1);
        } else {
          VerdictOfTail(p);
        }
      }
    } else {
      FirstMatch(AFTER, p, c, if c == Invalid then 1 else 0);
    }
  }

  // ---------- runs of packets ----------

  /** The pairs of interfaces between which a connection has been accepted. */
  type Connections = set<(Interface, Interface)>

  /** The router calls a packet established or related only if an accepted
      connection joins its two interfaces, in either direction. */
  predicate Plausible(table: Connections, p: Packet, c: ConnState) {
    c == Established || c == Related ==> (p.source, p.target) in table || (p.target, p.source) in table
  }

  datatype Arrival = Arrival(packet: Packet, state: ConnState)

  function Track(rules: seq<Rule>, table: Connections, a: Arrival): Connections {
    if Decide(rules, a.packet, a.state) == Accept then table + {(a.packet.source, a.packet.target)} else table
  }

  function TrackAll(rules: seq<Rule>, table: Connections, arrivals: seq<Arrival>): Connections {
    if arrivals == [] then table
    else Track(rules, TrackAll(rules, table, arrivals[..|arrivals| - 1]), arrivals[|arrivals| - 1])
  }

  /** Every packet of the run was classified as the router would. */
  ghost predicate Classified(rules: seq<Rule>, table: Connections, arrivals: seq<Arrival>) {
    forall n :: 0 <= n < |arrivals| ==>
      Plausible(TrackAll(rules, table, arrivals[..n]), arrivals[n].packet, arrivals[n].state)
  }

  predicate JoinsNodesAndWan(source: Interface, target: Interface) {
    (source == Nodes && target == Ether1) || (source == Ether1 && target == Nodes)
  }

  predicate AirGapped(table: Connections) {
    (Nodes, Ether1) !in table && (Ether1, Nodes) !in table
  }

  /** The new rules drop every packet of the run between nodes and internet. */
  ghost predicate NothingAcross(arrivals: seq<Arrival>) {
    forall n :: 0 <= n < |arrivals| && JoinsNodesAndWan(arrivals[n].packet.source, arrivals[n].packet.target) ==>
      Decide(AFTER, arrivals[n].packet, arrivals[n].state) == Drop
  }

  /** Without an accepted connection, nothing passes between nodes and internet. */
  lemma NothingCrosses(p: Packet, c: ConnState)
    requires JoinsNodesAndWan(p.source, p.target) && c != Established && c != Related
    ensures Decide(AFTER, p, c) == Drop
  {
    if c == Invalid {
      FirstMatch(AFTER, p, c, 1);
    } else if p.source == Nodes {
      FirstMatch(AFTER, p, c, 4);
    } else {
      FirstMatch(AFTER, p, c, 14);
    }
  }

  /** Air gap: from an empty connection table no run of packets, of any length
      and mix, has one accepted between the nodes and the internet. */
  lemma {:induction false} AirGapHolds(table: Connections, arrivals: seq<Arrival>)
    requires AirGapped(table) && Classified(AFTER, table, arrivals)
    ensures AirGapped(TrackAll(AFTER, table, arrivals))
    ensures NothingAcross(arrivals)
  {
    if arrivals != [] {
      var front, last := arrivals[..|arrivals| - 1], arrivals[|arrivals| - 1];
      forall n | 0 <= n < |front|
        ensures Plausible(TrackAll(AFTER, table, front[..n]), front[n].packet, front[n].state)
      {
        assert front[..n] == arrivals[..n];
      }
      AirGapHolds(table, front);
      hide Decide;
      if JoinsNodesAndWan(last.packet.source, last.packet.target) {
        assert Plausible(TrackAll(AFTER, table, arrivals[..|arrivals| - 1]), last.packet, last.state);
        NothingCrosses(last.packet, last.state);
      }
      forall n | 0 <= n < |arrivals| && JoinsNodesAndWan(arrivals[n].packet.source, arrivals[n].packet.target)
        ensures Decide(AFTER, arrivals[n].packet, arrivals[n].state) == Drop
      {
        assert n < |front| ==> arrivals[n] == front[n];
      }
    }
  }

  /** No run of packets from this table has one accepted between the nodes and
      the internet. */
  ghost predicate Sealed(table: Connections) {
    forall arrivals: seq<Arrival> :: Classified(AFTER, table, arrivals) ==> NothingAcross(arrivals)
  }

  /** The air gap holds exactly for the tables without a connection across it. */
  lemma SealedIffAirGapped(table: Connections)
    ensures Sealed(table) <==> AirGapped(table)
  {
    if AirGapped(table) {
      forall arrivals: seq<Arrival> | Classified(AFTER, table, arrivals) ensures NothingAcross(arrivals) {
        AirGapHolds(table, arrivals);
      }
    } else {
      var arrivals := [Arrival(Packet(Nodes, Ether1, Tcp, 443), Established)];
      assert arrivals[..0] == [];
      assert Classified(AFTER, table, arrivals);
      FirstMatch(AFTER, arrivals[0].packet, Established, 0);
      assert JoinsNodesAndWan(arrivals[0].packet.source, arrivals[0].packet.target);
    }
  }

  // ---------- what the provisioning phase leaves behind ----------

  /** A fresh packet from the nodes to the internet. */
  predicate Provisions(a: Arrival) {
    a.packet.source == Nodes && a.packet.target == Ether1 && a.state == New
  }

  lemma ProvisioningStep(table: Connections, a: Arrival)
    requires Plausible(table, a.packet, a.state)
    ensures AirGapped(Track(BEFORE, table, a)) <==> AirGapped(table) && !Provisions(a)
  {
    RemovalAffectsOnlyNodesToWan(a.packet, a.state);
    if Provisions(a) {
      FirstMatch(BEFORE, a.packet, a.state, 4);
    } else if AirGapped(table) && JoinsNodesAndWan(a.packet.source, a.packet.target) {
      NothingCrosses(a.packet, a.state);
    }
    hide Decide;
  }

  /** Removing the rule does not cut what it let through before. After any run
      under the old rules from a table without such a connection, the new rules
      seal the nodes off if and only if no node ever opened a connection to the
      internet during that run. */
  lemma {:induction false} SealedAfterProvisioning(table: Connections, arrivals: seq<Arrival>)
    requires AirGapped(table) && Classified(BEFORE, table, arrivals)
    ensures Sealed(TrackAll(BEFORE, table, arrivals)) <==> forall n :: 0 <= n < |arrivals| ==> !Provisions(arrivals[n])
  {
    SealedIffAirGapped(TrackAll(BEFORE, table, arrivals));
    if arrivals != [] {
      var front, last := arrivals[..|arrivals| - 1], arrivals[|arrivals| - 1];
      forall n | 0 <= n < |front|
        ensures Plausible(TrackAll(BEFORE, table, front[..n]), front[n].packet, front[n].state)
      {
        assert front[..n] == arrivals[..n];
      }
      SealedAfterProvisioning(table, front);
      SealedIffAirGapped(TrackAll(BEFORE, table, front));
      assert Plausible(TrackAll(BEFORE, table, arrivals[..|arrivals| - 1]), last.packet, last.state);
      ProvisioningStep(TrackAll(BEFORE, table, front), last);
      hide Provisions, Sealed, AirGapped, Track, Plausible;
      assert forall n :: 0 <= n < |front| ==> front[n] == arrivals[n];
    }
  }
}
