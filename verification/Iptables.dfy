/** The compiler from a pod's traffic-interception settings to iptables commands, and what the loaded rules do. */
module Iptables {
  import opened Wrappers
  import opened Netfilter

  const ENVOY_UID := 1500
  const ENVOY_ADMIN_PORT := 15000
  const ENVOY_OUTBOUND_LISTENER_PORT := 15001
  const ENVOY_INBOUND_LISTENER_PORT := 15003
  const ENVOY_PROMETHEUS_PORT := 15010
  const LIVENESS_PROBE_PORT := 15901
  const READINESS_PROBE_PORT := 15902
  const STARTUP_PROBE_PORT := 15903
  const HEALTHCHECK_PORT := 15904
  const LOCALHOST := 0x7f00_0001
  const LOCALHOST_RANGE := Cidr(LOCALHOST, 32)

  datatype ProxyMode = Localhost | PodIP

  /** `podIP` is the value of $POD_IP when the commands run. */
  datatype Settings = Settings(
    mode: ProxyMode,
    podIP: nat,
    outboundRangeExclusions: seq<Cidr>,
    outboundRangeInclusions: seq<Cidr>,
    outboundPortExclusions: seq<int>,
    inboundPortExclusions: seq<int>,
    ifaceExclusions: seq<string>)

  // ---------------------------------------------------------------------------
  // The rules, chain by chain and block by block

  const IN_REDIRECT := [Rule([OnProtocol(Tcp)], Redirect(ENVOY_INBOUND_LISTENER_PORT))]
  const TO_INBOUND := [Rule([OnProtocol(Tcp)], Jump(ProxyInbound))]
  const TO_IN_REDIRECT := [Rule([OnProtocol(Tcp)], Jump(ProxyInRedirect))]
  const RESERVED_PORTS :=
    [ENVOY_PROMETHEUS_PORT, LIVENESS_PROBE_PORT, READINESS_PROBE_PORT, STARTUP_PROBE_PORT, HEALTHCHECK_PORT]

  const OUT_REDIRECT :=
    [Rule([OnProtocol(Tcp)], Redirect(ENVOY_OUTBOUND_LISTENER_PORT)),
     Rule([OnProtocol(Tcp), Dport(ENVOY_ADMIN_PORT)], Accept)]
  const TO_OUTBOUND := [Rule([OnProtocol(Tcp)], Jump(ProxyOutbound))]
  const LOOPBACK_TO_INBOUND :=
    [Rule([OutIface("lo"), NotDst(LOCALHOST_RANGE), Owner(ENVOY_UID)], Jump(ProxyInRedirect))]
  const LOCAL_RETURNS :=
    [Rule([OutIface("lo"), NotOwner(ENVOY_UID)], Return),
     Rule([Owner(ENVOY_UID)], Return),
     Rule([Dst(LOCALHOST_RANGE)], Return)]

  function PortReturn(port: int): Rule { Rule([OnProtocol(Tcp), Dport(port)], Return) }
  function InIfaceReturn(iface: string): Rule { Rule([InIface(iface)], Return) }
  function OutIfaceReturn(iface: string): Rule { Rule([OutIface(iface)], Return) }
  function RangeReturn(range: Cidr): Rule { Rule([Dst(range)], Return) }
  function RangeRedirect(range: Cidr): Rule { Rule([Dst(range)], Jump(ProxyOutRedirect)) }

  function Rules<T>(items: seq<T>, rule: T -> Rule): (r: seq<Rule>)
    ensures |r| == |items|
  {
    seq(|items|, i requires 0 <= i < |items| => rule(items[i]))
  }

  /** One multiport rule for all excluded ports, or none at all. */
  function PortsReturn(ports: seq<int>): seq<Rule> {
    if ports == [] then [] else [Rule([OnProtocol(Tcp), Dports(ports)], Return)]
  }

  function DnatRules(s: Settings): seq<Rule> {
    if s.mode != PodIP then []
    else [Rule([OnProtocol(Tcp), OutIface("lo"), Dst(LOCALHOST_RANGE), Owner(ENVOY_UID)], Dnat(s.podIP))]
  }

  /** What remains after the exclusions: the included ranges, or everything. */
  function InclusionRules(ranges: seq<Cidr>): seq<Rule> {
    if ranges == [] then [Rule([], Jump(ProxyOutRedirect))]
    else Rules(ranges, RangeRedirect) + [Rule([], Return)]
  }

  const INBOUND_STATIC_RULES :=
    Appends(ProxyInRedirect, IN_REDIRECT) + Appends(Prerouting, TO_INBOUND) +
    Appends(ProxyInbound, Rules(RESERVED_PORTS, PortReturn) + TO_IN_REDIRECT)

  const OUTBOUND_STATIC_RULES :=
    Appends(ProxyOutRedirect, OUT_REDIRECT) + Appends(Output, TO_OUTBOUND) +
    Appends(ProxyOutbound, LOOPBACK_TO_INBOUND + LOCAL_RETURNS)

  function InboundCommands(s: Settings): seq<Command> {
    INBOUND_STATIC_RULES
    + Inserts(ProxyInbound, Rules(s.ifaceExclusions, InIfaceReturn))
    + Inserts(ProxyInbound, PortsReturn(s.inboundPortExclusions))
  }

  function OutboundCommands(s: Settings): seq<Command> {
    OUTBOUND_STATIC_RULES
    + Inserts(Output, DnatRules(s))
    + Appends(ProxyOutbound, Rules(s.ifaceExclusions, OutIfaceReturn))
    + Appends(ProxyOutbound, Rules(s.outboundRangeExclusions, RangeReturn))
    + Appends(ProxyOutbound, PortsReturn(s.outboundPortExclusions))
    + Appends(ProxyOutbound, InclusionRules(s.outboundRangeInclusions))
  }

  /** generateIptablesCommands builds the command list in the order of the source. */
  method GenerateIptablesCommands(s: Settings) returns (commands: seq<Command>)
    ensures commands == Commands(s)
  {
    // Inbound rules
    commands := INBOUND_STATIC_RULES;
    for i := 0 to |s.ifaceExclusions|
      invariant commands == INBOUND_STATIC_RULES + Inserts(ProxyInbound, Rules(s.ifaceExclusions[..i], InIfaceReturn))
    {
      commands := commands + [Insert(ProxyInbound, InIfaceReturn(s.ifaceExclusions[i]))];
    }
    assert s.ifaceExclusions[..|s.ifaceExclusions|] == s.ifaceExclusions;
    if |s.inboundPortExclusions| > 0 {
      commands := commands + [Insert(ProxyInbound, Rule([OnProtocol(Tcp), Dports(s.inboundPortExclusions)], Return))];
    }
    assert commands == InboundCommands(s);

    // Outbound rules
    var outbound := OUTBOUND_STATIC_RULES;
    if s.mode == PodIP {
      var matches := [OnProtocol(Tcp), OutIface("lo"), Dst(LOCALHOST_RANGE), Owner(ENVOY_UID)];
      outbound := outbound + [Insert(Output, Rule(matches, Dnat(s.podIP)))];
    }
    ghost var base := OUTBOUND_STATIC_RULES + Inserts(Output, DnatRules(s));
    assert outbound == base;
    for i := 0 to |s.ifaceExclusions|
      invariant outbound == base + Appends(ProxyOutbound, Rules(s.ifaceExclusions[..i], OutIfaceReturn))
    {
      outbound := outbound + [Append(ProxyOutbound, OutIfaceReturn(s.ifaceExclusions[i]))];
    }
    base := base + Appends(ProxyOutbound, Rules(s.ifaceExclusions, OutIfaceReturn));
    assert outbound == base;
    for i := 0 to |s.outboundRangeExclusions|
      invariant outbound == base + Appends(ProxyOutbound, Rules(s.outboundRangeExclusions[..i], RangeReturn))
    {
      outbound := outbound + [Append(ProxyOutbound, RangeReturn(s.outboundRangeExclusions[i]))];
    }
    assert s.outboundRangeExclusions[..|s.outboundRangeExclusions|] == s.outboundRangeExclusions;
    base := base + Appends(ProxyOutbound, Rules(s.outboundRangeExclusions, RangeReturn));
    if |s.outboundPortExclusions| > 0 {
      outbound := outbound + [Append(ProxyOutbound, Rule([OnProtocol(Tcp), Dports(s.outboundPortExclusions)], Return))];
    }
    base := base + Appends(ProxyOutbound, PortsReturn(s.outboundPortExclusions));
    assert outbound == base;
    var inclusions := GenerateInclusionCommands(s.outboundRangeInclusions);
    commands := commands + (outbound + inclusions);
  }

  method GenerateInclusionCommands(ranges: seq<Cidr>) returns (commands: seq<Command>)
    ensures commands == Appends(ProxyOutbound, InclusionRules(ranges))
  {
    commands := [];
    if |ranges| > 0 {
      for i := 0 to |ranges|
        invariant commands == Appends(ProxyOutbound, Rules(ranges[..i], RangeRedirect))
      {
        commands := commands + [Append(ProxyOutbound, RangeRedirect(ranges[i]))];
      }
      assert ranges[..|ranges|] == ranges;
      commands := commands + [Append(ProxyOutbound, Rule([], Return))];
    } else {
      commands := commands + [Append(ProxyOutbound, Rule([], Jump(ProxyOutRedirect)))];
    }
  }

  // ---------------------------------------------------------------------------
  // The loaded table

  function Commands(s: Settings): seq<Command> {
    InboundCommands(s) + OutboundCommands(s)
  }

  /** The rules of each chain, in the order in which a packet meets them. */
  function ChainRules(s: Settings, c: Chain): seq<Rule> {
    match c
    case ProxyInRedirect => IN_REDIRECT
    case Prerouting => TO_INBOUND
    case ProxyInbound => PortsReturn(s.inboundPortExclusions) + InboundTail(s)
    case ProxyOutRedirect => OUT_REDIRECT
    case Output => DnatRules(s) + TO_OUTBOUND
    case ProxyOutbound => LOOPBACK_TO_INBOUND + LOCAL_RETURNS + OutboundTail(s)
  }

  function InboundTail(s: Settings): seq<Rule> {
    Reversed(Rules(s.ifaceExclusions, InIfaceReturn)) + (Rules(RESERVED_PORTS, PortReturn) + TO_IN_REDIRECT)
  }

  function OutboundTail(s: Settings): seq<Rule> {
    Rules(s.ifaceExclusions, OutIfaceReturn) + (Rules(s.outboundRangeExclusions, RangeReturn) +
      (PortsReturn(s.outboundPortExclusions) + InclusionRules(s.outboundRangeInclusions)))
  }

  lemma LoadInbound(s: Settings, c: Chain)
    ensures Load([], InboundCommands(s), c) ==
            match c
            case ProxyInRedirect => IN_REDIRECT
            case Prerouting => TO_INBOUND
            case ProxyInbound => PortsReturn(s.inboundPortExclusions) + InboundTail(s)
            case _ => []
  {
    var ifaces := Inserts(ProxyInbound, Rules(s.ifaceExclusions, InIfaceReturn));
    var ports := Inserts(ProxyInbound, PortsReturn(s.inboundPortExclusions));
    LoadStaticInbound(c);
    LoadConcat([], INBOUND_STATIC_RULES, ifaces, c);
    LoadConcat([], INBOUND_STATIC_RULES + ifaces, ports, c);
    LoadInserts(Load([], INBOUND_STATIC_RULES, c), ProxyInbound, Rules(s.ifaceExclusions, InIfaceReturn), c);
    LoadInserts(Load([], INBOUND_STATIC_RULES + ifaces, c), ProxyInbound, PortsReturn(s.inboundPortExclusions), c);
    assert Reversed(PortsReturn(s.inboundPortExclusions)) == PortsReturn(s.inboundPortExclusions);
  }

  lemma LoadStaticInbound(c: Chain)
    ensures Load([], INBOUND_STATIC_RULES, c) ==
            match c
            case ProxyInRedirect => IN_REDIRECT
            case Prerouting => TO_INBOUND
            case ProxyInbound => Rules(RESERVED_PORTS, PortReturn) + TO_IN_REDIRECT
            case _ => []
  {
    LoadThree(ProxyInRedirect, IN_REDIRECT, Prerouting, TO_INBOUND, ProxyInbound,
      Rules(RESERVED_PORTS, PortReturn) + TO_IN_REDIRECT, c);
  }

  lemma LoadThree(c1: Chain, r1: seq<Rule>, c2: Chain, r2: seq<Rule>, c3: Chain, r3: seq<Rule>, c: Chain)
    requires c1 != c2 && c2 != c3 && c1 != c3
    ensures Load([], Appends(c1, r1) + Appends(c2, r2) + Appends(c3, r3), c)
         == if c == c1 then r1 else if c == c2 then r2 else if c == c3 then r3 else []
  {
    LoadConcat([], Appends(c1, r1), Appends(c2, r2), c);
    LoadConcat([], Appends(c1, r1) + Appends(c2, r2), Appends(c3, r3), c);
    LoadAppends([], c1, r1, c);
    LoadAppends(Load([], Appends(c1, r1), c), c2, r2, c);
    LoadAppends(Load([], Appends(c1, r1) + Appends(c2, r2), c), c3, r3, c);
  }

  lemma AppendsConcat(c: Chain, a: seq<Rule>, b: seq<Rule>)
    ensures Appends(c, a) + Appends(c, b) == Appends(c, a + b)
  {
  }

  /** The dynamic outbound commands are one block of appends. */
  lemma OutboundTailCommands(s: Settings)
    ensures OutboundCommands(s) ==
            OUTBOUND_STATIC_RULES + Inserts(Output, DnatRules(s)) + Appends(ProxyOutbound, OutboundTail(s))
  {
    var ifaces := Rules(s.ifaceExclusions, OutIfaceReturn);
    var ranges := Rules(s.outboundRangeExclusions, RangeReturn);
    var ports, inclusions := PortsReturn(s.outboundPortExclusions), InclusionRules(s.outboundRangeInclusions);
    AppendsConcat(ProxyOutbound, ports, inclusions);
    AppendsConcat(ProxyOutbound, ranges, ports + inclusions);
    AppendsConcat(ProxyOutbound, ifaces, ranges + (ports + inclusions));
  }

  lemma LoadOutbound(s: Settings, before: seq<Rule>, c: Chain)
    ensures Load(before, OutboundCommands(s), c) ==
            match c
            case ProxyOutRedirect => before + OUT_REDIRECT
            case Output => DnatRules(s) + (before + TO_OUTBOUND)
            case ProxyOutbound => before + (LOOPBACK_TO_INBOUND + LOCAL_RETURNS) + OutboundTail(s)
            case _ => before
  {
    OutboundTailCommands(s);
    var dnat := Inserts(Output, DnatRules(s));
    LoadStaticOutbound(before, c);
    LoadConcat(before, OUTBOUND_STATIC_RULES, dnat, c);
    LoadConcat(before, OUTBOUND_STATIC_RULES + dnat, Appends(ProxyOutbound, OutboundTail(s)), c);
    LoadInserts(Load(before, OUTBOUND_STATIC_RULES, c), Output, DnatRules(s), c);
    LoadAppends(Load(before, OUTBOUND_STATIC_RULES + dnat, c), ProxyOutbound, OutboundTail(s), c);
    assert Reversed(DnatRules(s)) == DnatRules(s);
  }

  lemma LoadStaticOutbound(before: seq<Rule>, c: Chain)
    ensures Load(before, OUTBOUND_STATIC_RULES, c) == before +
            match c
            case ProxyOutRedirect => OUT_REDIRECT
            case Output => TO_OUTBOUND
            case ProxyOutbound => LOOPBACK_TO_INBOUND + LOCAL_RETURNS
            case _ => []
  {
    var a, b := Appends(ProxyOutRedirect, OUT_REDIRECT), Appends(Output, TO_OUTBOUND);
    LoadConcat(before, a, b, c);
    LoadConcat(before, a + b, Appends(ProxyOutbound, LOOPBACK_TO_INBOUND + LOCAL_RETURNS), c);
    LoadAppends(before, ProxyOutRedirect, OUT_REDIRECT, c);
    LoadAppends(Load(before, a, c), Output, TO_OUTBOUND, c);
    LoadAppends(Load(before, a + b, c), ProxyOutbound, LOOPBACK_TO_INBOUND + LOCAL_RETURNS, c);
  }

  /** Loading the commands into empty chains puts the insertions before and the additions after the static rules. */
  lemma LoadedChain(s: Settings, c: Chain)
    ensures Load([], Commands(s), c) == ChainRules(s, c)
  {
    LoadConcat([], InboundCommands(s), OutboundCommands(s), c);
    LoadInbound(s, c);
    LoadOutbound(s, Load([], InboundCommands(s), c), c);
  }

  lemma ChainDescends(s: Settings, c: Chain)
    ensures Descends(ChainRules(s, c), Rank(c))
  {
    match c
    case ProxyInbound => InboundDescends(s);
    case ProxyOutbound => OutboundDescends(s);
    case Output => DescendsConcat(DnatRules(s), TO_OUTBOUND, 2);
    case _ =>
  }

  lemma InboundDescends(s: Settings)
    ensures Descends(ChainRules(s, ProxyInbound), 1)
  {
    InboundTailDescends(s);
    DescendsConcat(PortsReturn(s.inboundPortExclusions), InboundTail(s), 1);
  }

  lemma OutboundDescends(s: Settings)
    ensures Descends(LOOPBACK_TO_INBOUND + LOCAL_RETURNS + OutboundTail(s), 1)
  {
    OutboundTailDescends(s);
    DescendsConcat(LOOPBACK_TO_INBOUND + LOCAL_RETURNS, OutboundTail(s), 1);
  }

  lemma InboundTailDescends(s: Settings)
    ensures Descends(InboundTail(s), 1)
  {
    DescendsConcat(Rules(RESERVED_PORTS, PortReturn), TO_IN_REDIRECT, 1);
    DescendsConcat(Reversed(Rules(s.ifaceExclusions, InIfaceReturn)),
      Rules(RESERVED_PORTS, PortReturn) + TO_IN_REDIRECT, 1);
  }

  lemma DescendsConcat(a: seq<Rule>, b: seq<Rule>, rank: nat)
    ensures Descends(a + b, rank) <==> Descends(a, rank) && Descends(b, rank)
  {
    assert forall r :: r in a + b <==> r in a || r in b;
  }

  lemma OutboundTailDescends(s: Settings)
    ensures Descends(InclusionRules(s.outboundRangeInclusions), 1)
    ensures Descends(OutboundTail(s), 1)
  {
    var ports, inclusions := PortsReturn(s.outboundPortExclusions), InclusionRules(s.outboundRangeInclusions);
    var ranges := Rules(s.outboundRangeExclusions, RangeReturn);
    DescendsConcat(Rules(s.outboundRangeInclusions, RangeRedirect), [Rule([], Return)], 1);
    DescendsConcat(ports, inclusions, 1);
    DescendsConcat(ranges, ports + inclusions, 1);
    DescendsConcat(Rules(s.ifaceExclusions, OutIfaceReturn), ranges + (ports + inclusions), 1);
  }

  lemma LoadedDescends(s: Settings)
    ensures forall c: Chain :: Descends(Load([], Commands(s), c), Rank(c))
  {
    forall c: Chain
      ensures Descends(Load([], Commands(s), c), Rank(c))
    {
      LoadedChain(s, c);
      ChainDescends(s, c);
    }
  }

  /** The nat table of a pod after iptables-restore has run the generated commands on empty chains. */
  function LoadedTable(s: Settings): Table {
    LoadedDescends(s);
    map c: Chain | true :: Load([], Commands(s), c)
  }

  // ---------------------------------------------------------------------------
  // What the table does

  // The verdicts are stated with the numbers themselves and without the terms of the compiler: 1500 is Envoy's user,
  // 15003 and 15001 are its inbound and outbound listeners, 15010 serves metrics, and 15901 to 15904 serve probes.

  /** The interface is excluded by its name, or by a prefix of it that ends in '+'. */
  predicate IfaceExcluded(s: Settings, p: Packet) {
    exists x :: x in s.ifaceExclusions &&
      (x == p.iface || (x != "" && x[|x| - 1] == '+' && x[..|x| - 1] <= p.iface))
  }

  predicate InSomeRange(address: nat, ranges: seq<Cidr>) {
    exists range :: range in ranges && InBlock(address, range)
  }

  function ArrivingVerdict(s: Settings, p: Packet): Verdict {
    if IfaceExcluded(s, p) || p.dport in s.inboundPortExclusions || p.dport == 15010 || 15901 <= p.dport <= 15904
    then Untouched
    else Redirected(15003)
  }

  function LeavingVerdict(s: Settings, p: Packet): Verdict {
    var envoy, loopback, local := p.uid == Some(1500), p.iface == "lo", p.dst == 0x7f00_0001;
    if s.mode == PodIP && envoy && loopback && local then Dnatted(s.podIP)
    else if envoy && loopback && !local then Redirected(15003)
    else if envoy || loopback || local then Untouched
    else if IfaceExcluded(s, p) || InSomeRange(p.dst, s.outboundRangeExclusions) ||
      p.dport in s.outboundPortExclusions then Untouched
    else if s.outboundRangeInclusions != [] && !InSomeRange(p.dst, s.outboundRangeInclusions) then Untouched
    else Redirected(15001)
  }

  /** The verdict that the settings ask for. */
  function Expected(s: Settings, p: Packet): Verdict {
    if p.protocol != Tcp then Untouched
    else if p.hook == Arriving then ArrivingVerdict(s, p)
    else LeavingVerdict(s, p)
  }

  lemma LocalhostRange(address: nat)
    ensures InRange(address, LOCALHOST_RANGE) <==> address == LOCALHOST
  {
    assert Pow2(0) == 1;
  }

  lemma RulesMember<T>(items: seq<T>, rule: T -> Rule, p: Packet)
    ensures (exists r :: r in Rules(items, rule) && Applies(r, p)) <==> (exists x :: x in items && Applies(rule(x), p))
  {
    if x :| x in items && Applies(rule(x), p) {
      var i :| 0 <= i < |items| && items[i] == x;
      assert Rules(items, rule)[i] in Rules(items, rule);
    }
    if r :| r in Rules(items, rule) && Applies(r, p) {
      var i :| 0 <= i < |items| && Rules(items, rule)[i] == r;
      assert items[i] in items;
    }
  }

  lemma TableChain(s: Settings, c: Chain)
    ensures LoadedTable(s)[c] == ChainRules(s, c)
  {
    LoadedChain(s, c);
  }

  lemma InRedirectDecides(t: Table, p: Packet)
    requires p.protocol == Tcp && t[ProxyInRedirect] == IN_REDIRECT
    ensures Walk(t, t[ProxyInRedirect], 0, p) == Decided(Redirected(ENVOY_INBOUND_LISTENER_PORT))
  {
    AppliesToOne(p, OnProtocol(Tcp), IN_REDIRECT[0].target);
  }

  /** The first rule of the outbound redirect chain decides, so the rule for the admin port behind it is
      never reached. */
  lemma OutRedirectDecides(t: Table, p: Packet)
    requires p.protocol == Tcp && t[ProxyOutRedirect] == OUT_REDIRECT
    ensures Walk(t, t[ProxyOutRedirect], 0, p) == Decided(Redirected(ENVOY_OUTBOUND_LISTENER_PORT))
  {
    AppliesToOne(p, OnProtocol(Tcp), OUT_REDIRECT[0].target);
  }

  lemma WalkPortsReturn(t: Table, ports: seq<int>, p: Packet)
    requires p.protocol == Tcp
    ensures Descends(PortsReturn(ports), 1)
    ensures Walk(t, PortsReturn(ports), 1, p) == if p.dport in ports then Returned else OffTheEnd
  {
    WalkReturns(t, PortsReturn(ports), 1, p);
    if ports != [] {
      AppliesToTwo(p, OnProtocol(Tcp), Dports(ports), Return);
      assert PortsReturn(ports)[0] in PortsReturn(ports);
    }
  }

  lemma WalkIfaces(t: Table, s: Settings, p: Packet)
    ensures var rules := if p.hook == Arriving then Reversed(Rules(s.ifaceExclusions, InIfaceReturn))
        else Rules(s.ifaceExclusions, OutIfaceReturn);
            Descends(rules, 1) && Walk(t, rules, 1, p) == if IfaceExcluded(s, p) then Returned else OffTheEnd
  {
    if p.hook == Arriving {
      var rules := Rules(s.ifaceExclusions, InIfaceReturn);
      forall iface: string { AppliesToOne(p, InIface(iface), Return); }
      RulesMember(s.ifaceExclusions, InIfaceReturn, p);
      ReversedMembers(rules);
      WalkReturns(t, Reversed(rules), 1, p);
    } else {
      forall iface: string { AppliesToOne(p, OutIface(iface), Return); }
      RulesMember(s.ifaceExclusions, OutIfaceReturn, p);
      WalkReturns(t, Rules(s.ifaceExclusions, OutIfaceReturn), 1, p);
    }
  }

  lemma ReversedMembers(rules: seq<Rule>)
    ensures forall r :: r in Reversed(rules) <==> r in rules
  {
    forall r | r in rules
      ensures r in Reversed(rules)
    {
      var i :| 0 <= i < |rules| && rules[i] == r;
      assert Reversed(rules)[|rules| - 1 - i] == r;
    }
  }

  lemma WalkPorts(t: Table, ports: seq<int>, p: Packet)
    requires p.protocol == Tcp
    ensures Descends(Rules(ports, PortReturn), 1)
    ensures Walk(t, Rules(ports, PortReturn), 1, p) == if p.dport in ports then Returned else OffTheEnd
  {
    forall port: int { AppliesToTwo(p, OnProtocol(Tcp), Dport(port), Return); }
    RulesMember(ports, PortReturn, p);
    WalkReturns(t, Rules(ports, PortReturn), 1, p);
  }

  lemma WalkReserved(t: Table, p: Packet)
    requires p.protocol == Tcp
    ensures Descends(Rules(RESERVED_PORTS, PortReturn), 1)
    ensures Walk(t, Rules(RESERVED_PORTS, PortReturn), 1, p)
         == if p.dport == 15010 || 15901 <= p.dport <= 15904 then Returned else OffTheEnd
  {
    WalkPorts(t, RESERVED_PORTS, p);
  }

  lemma WalkInbound(t: Table, s: Settings, p: Packet)
    requires p.protocol == Tcp && p.hook == Arriving && t[ProxyInRedirect] == IN_REDIRECT
    ensures Descends(PortsReturn(s.inboundPortExclusions) + InboundTail(s), 1)
    ensures Walk(t, PortsReturn(s.inboundPortExclusions) + InboundTail(s), 1, p)
         == if ArrivingVerdict(s, p) == Untouched then Returned else Decided(ArrivingVerdict(s, p))
  {
    var reserved := Rules(RESERVED_PORTS, PortReturn);
    InRedirectDecides(t, p);
    WalkReserved(t, p);
    WalkJumps(t, TO_IN_REDIRECT, 1, p, ProxyInRedirect, Redirected(ENVOY_INBOUND_LISTENER_PORT));
    AppliesToOne(p, OnProtocol(Tcp), Jump(ProxyInRedirect));
    assert TO_IN_REDIRECT[0] in TO_IN_REDIRECT;
    WalkConcat(t, reserved, TO_IN_REDIRECT, 1, p);
    WalkIfaces(t, s, p);
    WalkConcat(t, Reversed(Rules(s.ifaceExclusions, InIfaceReturn)), reserved + TO_IN_REDIRECT, 1, p);
    WalkPortsReturn(t, s.inboundPortExclusions, p);
    WalkConcat(t, PortsReturn(s.inboundPortExclusions), InboundTail(s), 1, p);
  }

  lemma WalkInclusions(t: Table, ranges: seq<Cidr>, p: Packet)
    requires p.protocol == Tcp && t[ProxyOutRedirect] == OUT_REDIRECT
    ensures Descends(InclusionRules(ranges), 1)
    ensures Walk(t, InclusionRules(ranges), 1, p)
         == if ranges != [] && !InSomeRange(p.dst, ranges) then Returned
           else Decided(Redirected(ENVOY_OUTBOUND_LISTENER_PORT))
  {
    OutRedirectDecides(t, p);
    if ranges == [] {
      WalkJumps(t, InclusionRules(ranges), 1, p, ProxyOutRedirect, Redirected(ENVOY_OUTBOUND_LISTENER_PORT));
      assert InclusionRules(ranges)[0] in InclusionRules(ranges);
    } else {
      var last := Rule([], Return);
      WalkRangeInclusions(t, ranges, p);
      WalkReturns(t, [last], 1, p);
      assert last in [last] && Applies(last, p);
      WalkConcat(t, Rules(ranges, RangeRedirect), [last], 1, p);
    }
  }

  lemma RangeRulesApply(ranges: seq<Cidr>, t: Target, p: Packet)
    ensures InSomeRange(p.dst, ranges) <==> exists range :: range in ranges && Applies(Rule([Dst(range)], t), p)
  {
    forall range <- ranges
      ensures InBlock(p.dst, range) <==> Applies(Rule([Dst(range)], t), p)
    {
      AppliesToOne(p, Dst(range), t);
      RangeIsBlock(p.dst, range);
    }
  }

  lemma WalkRangeInclusions(t: Table, ranges: seq<Cidr>, p: Packet)
    requires p.protocol == Tcp && t[ProxyOutRedirect] == OUT_REDIRECT
    ensures Descends(Rules(ranges, RangeRedirect), 1)
    ensures Walk(t, Rules(ranges, RangeRedirect), 1, p)
         == if InSomeRange(p.dst, ranges) then Decided(Redirected(ENVOY_OUTBOUND_LISTENER_PORT)) else OffTheEnd
  {
    OutRedirectDecides(t, p);
    RangeRulesApply(ranges, Jump(ProxyOutRedirect), p);
    RulesMember(ranges, RangeRedirect, p);
    WalkJumps(t, Rules(ranges, RangeRedirect), 1, p, ProxyOutRedirect, Redirected(ENVOY_OUTBOUND_LISTENER_PORT));
  }

  lemma WalkRangeExclusions(t: Table, ranges: seq<Cidr>, p: Packet)
    ensures Descends(Rules(ranges, RangeReturn), 1)
    ensures Walk(t, Rules(ranges, RangeReturn), 1, p) == if InSomeRange(p.dst, ranges) then Returned else OffTheEnd
  {
    RangeRulesApply(ranges, Return, p);
    RulesMember(ranges, RangeReturn, p);
    WalkReturns(t, Rules(ranges, RangeReturn), 1, p);
  }

  /** How the exclusions and inclusions of the outbound chain end. */
  function OutboundTailOutcome(s: Settings, p: Packet): Walked {
    if IfaceExcluded(s, p) || InSomeRange(p.dst, s.outboundRangeExclusions) || p.dport in s.outboundPortExclusions
       || (s.outboundRangeInclusions != [] && !InSomeRange(p.dst, s.outboundRangeInclusions)) then Returned
    else Decided(Redirected(ENVOY_OUTBOUND_LISTENER_PORT))
  }

  /** How the static rules of the outbound chain end. */
  function StaticOutboundOutcome(p: Packet): Walked {
    if p.uid == Some(ENVOY_UID) && p.iface == "lo" &&
      p.dst != LOCALHOST then Decided(Redirected(ENVOY_INBOUND_LISTENER_PORT))
    else if p.uid == Some(ENVOY_UID) || p.iface == "lo" || p.dst == LOCALHOST then Returned
    else OffTheEnd
  }

  lemma WalkOutboundTail(t: Table, s: Settings, p: Packet)
    requires p.protocol == Tcp && p.hook == Leaving && t[ProxyOutRedirect] == OUT_REDIRECT
    ensures Descends(OutboundTail(s), 1)
    ensures Walk(t, OutboundTail(s), 1, p) == OutboundTailOutcome(s, p)
  {
    var ports, inclusions := PortsReturn(s.outboundPortExclusions), InclusionRules(s.outboundRangeInclusions);
    WalkInclusions(t, s.outboundRangeInclusions, p);
    WalkPortsReturn(t, s.outboundPortExclusions, p);
    WalkConcat(t, ports, inclusions, 1, p);
    WalkRangeExclusions(t, s.outboundRangeExclusions, p);
    WalkConcat(t, Rules(s.outboundRangeExclusions, RangeReturn), ports + inclusions, 1, p);
    WalkIfaces(t, s, p);
    WalkConcat(t, Rules(s.ifaceExclusions, OutIfaceReturn),
      Rules(s.outboundRangeExclusions, RangeReturn) + (ports + inclusions), 1, p);
  }

  lemma WalkStaticOutbound(t: Table, p: Packet)
    requires p.protocol == Tcp && p.hook == Leaving && t[ProxyInRedirect] == IN_REDIRECT
    ensures Descends(LOOPBACK_TO_INBOUND + LOCAL_RETURNS, 1)
    ensures Walk(t, LOOPBACK_TO_INBOUND + LOCAL_RETURNS, 1, p) == StaticOutboundOutcome(p)
  {
    InRedirectDecides(t, p);
    WalkJumps(t, LOOPBACK_TO_INBOUND, 1, p, ProxyInRedirect, Redirected(ENVOY_INBOUND_LISTENER_PORT));
    WalkReturns(t, LOCAL_RETURNS, 1, p);
    WalkConcat(t, LOOPBACK_TO_INBOUND, LOCAL_RETURNS, 1, p);
    LoopbackApplies(p);
    LocalApplies(p);
  }

  lemma LoopbackApplies(p: Packet)
    requires p.hook == Leaving
    ensures (exists r :: r in LOOPBACK_TO_INBOUND && Applies(r, p)) <==>
        p.uid == Some(ENVOY_UID) && p.iface == "lo" && p.dst != LOCALHOST
  {
    LocalhostRange(p.dst);
    AppliesToThree(p, OutIface("lo"), NotDst(LOCALHOST_RANGE), Owner(ENVOY_UID), Jump(ProxyInRedirect));
    assert LOOPBACK_TO_INBOUND[0] in LOOPBACK_TO_INBOUND;
  }

  lemma LocalApplies(p: Packet)
    requires p.hook == Leaving
    ensures (exists r :: r in LOCAL_RETURNS && Applies(r, p)) <==>
        p.uid == Some(ENVOY_UID) || p.iface == "lo" || p.dst == LOCALHOST
  {
    LocalhostRange(p.dst);
    var a, b, c := LOCAL_RETURNS[0], LOCAL_RETURNS[1], LOCAL_RETURNS[2];
    AppliesToTwo(p, OutIface("lo"), NotOwner(ENVOY_UID), Return);
    AppliesToOne(p, Owner(ENVOY_UID), Return);
    AppliesToOne(p, Dst(LOCALHOST_RANGE), Return);
    assert a in LOCAL_RETURNS && b in LOCAL_RETURNS && c in LOCAL_RETURNS;
  }

  lemma WalkOutbound(t: Table, s: Settings, p: Packet)
    requires p.protocol == Tcp && p.hook == Leaving && t[ProxyInRedirect] == IN_REDIRECT
    requires t[ProxyOutRedirect] == OUT_REDIRECT
    requires !(s.mode == PodIP && p.uid == Some(ENVOY_UID) && p.iface == "lo" && p.dst == LOCALHOST)
    ensures Descends(LOOPBACK_TO_INBOUND + LOCAL_RETURNS + OutboundTail(s), 1)
    ensures Walk(t, LOOPBACK_TO_INBOUND + LOCAL_RETURNS + OutboundTail(s), 1, p)
         == if LeavingVerdict(s, p) == Untouched then Returned else Decided(LeavingVerdict(s, p))
  {
    WalkStaticOutbound(t, p);
    WalkOutboundTail(t, s, p);
    JoinOutbound(t, LOOPBACK_TO_INBOUND + LOCAL_RETURNS, OutboundTail(s), s, p);
  }

  lemma JoinOutbound(t: Table, fixed: seq<Rule>, tail: seq<Rule>, s: Settings, p: Packet)
    requires !(s.mode == PodIP && p.uid == Some(ENVOY_UID) && p.iface == "lo" && p.dst == LOCALHOST)
    requires Descends(fixed, 1) && Walk(t, fixed, 1, p) == StaticOutboundOutcome(p)
    requires Descends(tail, 1) && Walk(t, tail, 1, p) == OutboundTailOutcome(s, p)
    ensures Descends(fixed + tail, 1)
    ensures Walk(t, fixed + tail, 1, p) == if LeavingVerdict(s, p) == Untouched then Returned
        else Decided(LeavingVerdict(s, p))
  {
    WalkConcat(t, fixed, tail, 1, p);
  }

  lemma DnatApplies(s: Settings, p: Packet)
    ensures (exists r :: r in DnatRules(s) && Applies(r, p)) <==>
              s.mode == PodIP && p.protocol == Tcp && p.hook == Leaving && p.iface == "lo" && p.dst == LOCALHOST &&
                p.uid == Some(ENVOY_UID)
  {
    LocalhostRange(p.dst);
    if s.mode == PodIP {
      AppliesToFour(p, OnProtocol(Tcp), OutIface("lo"), Dst(LOCALHOST_RANGE), Owner(ENVOY_UID), Dnat(s.podIP));
      assert DnatRules(s)[0] in DnatRules(s);
    }
  }

  /** The packets that Envoy sends to the local application by way of localhost. */
  predicate IsDnatted(s: Settings, p: Packet) {
    s.mode == PodIP && p.protocol == Tcp && p.iface == "lo" && p.dst == LOCALHOST && p.uid == Some(ENVOY_UID)
  }

  lemma WalkDnat(t: Table, s: Settings, p: Packet)
    requires p.hook == Leaving
    ensures Descends(DnatRules(s), 2)
    ensures Walk(t, DnatRules(s), 2, p) == if IsDnatted(s, p) then Decided(Dnatted(s.podIP)) else OffTheEnd
  {
    DnatApplies(s, p);
  }

  /** A built-in chain that sends TCP packets to a user chain. */
  lemma WalkEntry(t: Table, c: Chain, p: Packet)
    requires Rank(c) == 1
    ensures Descends([Rule([OnProtocol(Tcp)], Jump(c))], 2)
    ensures Walk(t, [Rule([OnProtocol(Tcp)], Jump(c))], 2, p)
         == if p.protocol == Tcp && Walk(t, t[c], 1, p).Decided? then Walk(t, t[c], 1, p) else OffTheEnd
  {
    AppliesToOne(p, OnProtocol(Tcp), Jump(c));
  }

  /** The table holds the chains that the settings call for. */
  predicate Serves(t: Table, s: Settings) {
    && t[Prerouting] == TO_INBOUND && t[ProxyInRedirect] == IN_REDIRECT
    && t[ProxyInbound] == PortsReturn(s.inboundPortExclusions) + InboundTail(s)
    && t[Output] == DnatRules(s) + TO_OUTBOUND && t[ProxyOutRedirect] == OUT_REDIRECT
    && t[ProxyOutbound] == LOOPBACK_TO_INBOUND + LOCAL_RETURNS + OutboundTail(s)
  }

  lemma EvaluateOutput(t: Table, dnat: seq<Rule>, s: Settings, p: Packet)
    requires p.hook == Leaving && t[Output] == dnat + TO_OUTBOUND
    requires Descends(dnat, 2) && Walk(t, dnat, 2, p) ==
        if IsDnatted(s, p) then Decided(Dnatted(s.podIP)) else OffTheEnd
    requires p.protocol == Tcp && !IsDnatted(s, p) ==>
               Walk(t, t[ProxyOutbound], 1, p) == if LeavingVerdict(s, p) == Untouched then Returned
                 else Decided(LeavingVerdict(s, p))
    ensures Evaluate(t, p) == Expected(s, p)
  {
    WalkEntry(t, ProxyOutbound, p);
    WalkConcat(t, dnat, TO_OUTBOUND, 2, p);
  }

  lemma EvaluateLeaving(t: Table, s: Settings, p: Packet)
    requires Serves(t, s) && p.hook == Leaving
    ensures Evaluate(t, p) == Expected(s, p)
  {
    WalkDnat(t, s, p);
    if p.protocol == Tcp && !IsDnatted(s, p) {
      WalkOutbound(t, s, p);
    }
    EvaluateOutput(t, DnatRules(s), s, p);
  }

  lemma EvaluateArriving(t: Table, s: Settings, p: Packet)
    requires Serves(t, s) && p.hook == Arriving
    ensures Evaluate(t, p) == Expected(s, p)
  {
    WalkEntry(t, ProxyInbound, p);
    if p.protocol == Tcp {
      WalkInbound(t, s, p);
    }
  }

  lemma LoadedTableServes(s: Settings)
    ensures Serves(LoadedTable(s), s)
  {
    forall c: Chain {
      TableChain(s, c);
    }
  }

  /** Compiler correctness: for every setting and every packet, the generated table does what the settings ask for. */
  lemma TableIsCorrect(s: Settings, p: Packet)
    ensures Evaluate(LoadedTable(s), p) == Expected(s, p)
  {
    LoadedTableServes(s);
    if p.hook == Arriving {
      EvaluateArriving(LoadedTable(s), s, p);
    } else {
      EvaluateLeaving(LoadedTable(s), s, p);
    }
  }

  /** Envoy's own packets are never sent to the outbound listener, and no packet is ever accepted by the rule for the
      admin port: a packet to that port is treated like one to any other. */
  lemma EnvoyIsNeverLooped(s: Settings, p: Packet)
    ensures p.hook == Leaving && p.uid == Some(1500) ==> Evaluate(LoadedTable(s), p) != Redirected(15001)
    ensures Evaluate(LoadedTable(s), p) != Accepted
    ensures LoadedTable(s)[ProxyOutRedirect] ==
            [Rule([OnProtocol(Tcp)], Redirect(15001)), Rule([OnProtocol(Tcp), Dport(15000)], Accept)]
  {
    TableIsCorrect(s, p);
    TableChain(s, ProxyOutRedirect);
  }

  /** Exclusions beat inclusions: an excluded packet is not sent to the outbound listener, whatever ranges
      are included. */
  lemma ExclusionsBeatInclusions(s: Settings, p: Packet)
    requires p.hook == Leaving
    requires IfaceExcluded(s, p) || InSomeRange(p.dst, s.outboundRangeExclusions) || p.dport in s.outboundPortExclusions
    ensures Evaluate(LoadedTable(s), p) != Redirected(15001)
  {
    TableIsCorrect(s, p);
  }
}
