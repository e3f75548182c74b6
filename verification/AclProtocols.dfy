/** The protocols a rule can name, with the numbers they are assigned. */
module AclProtocols {
  import opened Text
  import opened Matches
  import opened Acls
  import opened AclMeaning

  // ---------------------------------------------------------------------------------------------
  // Names and numbers
  // ---------------------------------------------------------------------------------------------

  /** The names that stand for ICMP, and the others that are neither a transport nor ICMP, each with its
      number in the registry of assigned internet protocol numbers. */
  const ICMP_NAMES: set<string> := {"icmp", "ipv6-icmp", "icmpv6"}

  const OTHER_NUMBERS: map<string, nat> :=
    map["igmp" := 2, "ipip" := 4, "egp" := 8, "dccp" := 33, "ipv6-encap" := 41, "ipv6-route" := 43,
        "ipv6-frag" := 44, "rsvp" := 46, "gre" := 47, "esp" := 50, "ah" := 51, "ipv6-nonxt" := 59,
        "ipv6-opts" := 60, "ospf" := 89, "vrrp" := 112, "pgm" := 113, "udplite" := 136]

  const TRANSPORTS: set<(string, Transport, nat)> := {("tcp", TCP, 6), ("udp", UDP, 17), ("sctp", SCTP, 132)}

  lemma TransportNames(name: string, t: Transport, n: nat)
    requires (name, t, n) in TRANSPORTS
    ensures NumberOfName(name) == Some(n) && TransportText(t) == name && TransportNumber(t) == n
  {
  }

  lemma IcmpNames(name: string)
    requires name in ICMP_NAMES
    ensures NumberOfName(name) == Some(if name == "icmp" then 1 else 58)
  {
  }

  lemma OtherNames(name: string)
    requires name in OTHER_NUMBERS
    ensures NumberOfName(name) == Some(OTHER_NUMBERS[name]) && !IsTransport(OTHER_NUMBERS[name])
    ensures !IsIcmpNumber(OTHER_NUMBERS[name]) && OTHER_NUMBERS[name] <= 255
  {
  }

  const SIX_NAMES: map<string, nat> :=
    map["tcp" := 6, "udp" := 17, "sctp" := 132, "icmp" := 1, "icmpv6" := 58, "ipv6-icmp" := 58]

  lemma SixNames(name: string)
    ensures name in SIX_NAMES ==> NumberOfName(name) == Some(SIX_NAMES[name])
    ensures NumberOfName(name).Some? ==> name in SIX_NAMES || name in OTHER_NUMBERS
  {
  }

  const ASSIGNED: map<string, nat> := OTHER_NUMBERS + SIX_NAMES

  lemma AssignedNames(name: string)
    ensures NumberOfName(name) == if name in ASSIGNED then Some(ASSIGNED[name]) else None
  {
    hide NumberOfName, OTHER_NUMBERS, SIX_NAMES;
    SixNames(name);
    if name in OTHER_NUMBERS {
      OtherNames(name);
    }
  }

  /** The number a protocol stands for: itself, or the one assigned to the name. */
  function Assigned(protocol: string): Option<nat> {
    if AllDigits(protocol) && NatValue(protocol) <= 255 then Some(NatValue(protocol))
    else if protocol in ASSIGNED then Some(ASSIGNED[protocol])
    else None
  }

  lemma ValueIsAssigned(rule: Rule)
    requires Given(rule.protocol)
    ensures ProtocolValue(rule) == Assigned(rule.protocol.value)
  {
    AssignedNames(rule.protocol.value);
    hide NumberOfName, ASSIGNED;
  }

  /** A protocol is refused exactly when it is none of the assigned names and no number up to 255. */
  lemma RefusedIffUnassigned(rule: Rule, group: string)
    ensures CompiledAtoms(rule, group) == None <==> Given(rule.protocol) && Assigned(rule.protocol.value) == None
  {
    hide Assigned, ProtocolNumber;
    if Given(rule.protocol) {
      ValueIsAssigned(rule);
    }
  }

  // ---------------------------------------------------------------------------------------------
  // What a rule with a named protocol compiles to, and means
  // ---------------------------------------------------------------------------------------------

  /** What a rule asks of a packet apart from its protocol. */
  ghost predicate HeadAdmits(rule: Rule, group: string, net: Network, p: Packet) {
    var remote := if rule.direction == Ingress then p.src else p.dst;
    && p.version == (if rule.etherType == IPv4 then V4 else V6)
    && net.Member(group, if rule.direction == Ingress then p.outport else p.inport)
    && (Given(rule.prefix) ==> net.covers(rule.prefix.value, remote))
    && (Given(rule.remoteGroup) ==> net.InAddressSet(rule.remoteGroup.value, p.version, remote))
  }

  lemma HeadHolds(rule: Rule, group: string, net: Network, p: Packet)
    requires rule.etherType != OtherType
    ensures AllHold(HeadAtoms(rule, group), net, p) <==> HeadAdmits(rule, group, net, p)
  {
    HeadMeans(rule, group, net, p);
  }

  lemma HeadIsIp(rule: Rule, group: string, net: Network, p: Packet)
    ensures HeadAdmits(rule, group, net, p) ==>
              IsIp(p) && p.version == (if rule.etherType == IPv4 then V4 else V6)
  {
  }

  /** Under an unknown ethertype nothing is said of the IP version: the rule lets through whatever its local
      port sees, even what is not IP, and with a prefix or a remote group nothing at all. */
  lemma UnknownEthertypeMeans(rule: Rule, group: string, net: Network, p: Packet)
    requires rule.etherType == OtherType
    ensures AllHold(HeadAtoms(rule, group), net, p) <==>
            && net.Member(group, if rule.direction == Ingress then p.outport else p.inport)
            && !Given(rule.prefix) && !Given(rule.remoteGroup)
    ensures !Given(rule.protocol) ==> CompiledAtoms(rule, group) == Some(HeadAtoms(rule, group))
  {
    assert HeadAtoms(rule, group) + [] == HeadAtoms(rule, group);
    var v, d := NoVersion, rule.direction;
    var local := [AtPort(d, group)];
    assert HeadAtoms(rule, group) == local + PrefixAtoms(v, d, rule.prefix) + GroupAtoms(v, d, rule.remoteGroup);
    AllHoldAppend(local + PrefixAtoms(v, d, rule.prefix), GroupAtoms(v, d, rule.remoteGroup), net, p);
    AllHoldAppend(local, PrefixAtoms(v, d, rule.prefix), net, p);
    OneHolds(AtPort(d, group), net, p);
    if Given(rule.prefix) {
      OneHolds(RemotePrefix(v, d, rule.prefix.value), net, p);
    }
    if Given(rule.remoteGroup) {
      OneHolds(RemoteGroup(v, d, rule.remoteGroup.value), net, p);
    }
  }

  lemma NamedHolds(rule: Rule, group: string, atoms: seq<Atom>, net: Network, p: Packet)
    requires rule.etherType != OtherType && CompiledAtoms(rule, group) == Some(HeadAtoms(rule, group) + atoms)
    ensures AllHold(CompiledAtoms(rule, group).value, net, p) <==>
            HeadAdmits(rule, group, net, p) && AllHold(atoms, net, p)
  {
    hide HeadAtoms, CompiledAtoms, HeadAdmits, AllHold;
    HeadHolds(rule, group, net, p);
    AllHoldAppend(HeadAtoms(rule, group), atoms, net, p);
  }

  lemma TransportCompiles(rule: Rule, t: Transport, n: nat)
    requires rule.protocol.Some? && (rule.protocol.value, t, n) in TRANSPORTS
    ensures ProtocolAtoms(rule.protocol, rule.portMin, rule.portMax, VersionOf(rule.etherType)) ==
            Some(PortAtoms(t, rule.portMin, rule.portMax))
    ensures n == TransportNumber(t)
  {
    assert IsTransport(n) && rule.protocol.value != "";
    hide NumberOfName, NatText, PortAtoms, TRANSPORTS, TransportNumbered, Canonical;
    TransportNames(rule.protocol.value, t, n);
    Spells(NatText(n), n);
    TransportIffCanonical(NatText(n));
  }

  /** A rule named for TCP, UDP or SCTP compiles to the tests of that protocol, and admits nothing else. */
  lemma TransportRuleMeans(rule: Rule, t: Transport, n: nat, group: string, net: Network, p: Packet)
    requires rule.etherType != OtherType && rule.protocol.Some? && (rule.protocol.value, t, n) in TRANSPORTS
    ensures CompiledAtoms(rule, group) == Some(HeadAtoms(rule, group) + PortAtoms(t, rule.portMin, rule.portMax))
    ensures AllHold(CompiledAtoms(rule, group).value, net, p) <==>
            HeadAdmits(rule, group, net, p) && p.proto == n && InRange(rule.portMin, rule.portMax, p.dstPort)
  {
    hide ProtocolAtoms, HeadAtoms, PortAtoms, HeadAdmits, AllHold, InRange, TRANSPORTS;
    TransportCompiles(rule, t, n);
    NamedHolds(rule, group, PortAtoms(t, rule.portMin, rule.portMax), net, p);
    PortsMean(t, rule.portMin, rule.portMax, net, p);
    HeadIsIp(rule, group, net, p);
  }

  lemma IcmpCompiles(rule: Rule)
    requires Given(rule.protocol) && rule.protocol.value in ICMP_NAMES
    ensures var v := VersionOf(rule.etherType);
            ProtocolAtoms(rule.protocol, rule.portMin, rule.portMax, v) ==
            Some(IcmpAtoms(v, rule.portMin, rule.portMax))
  {
    hide NumberOfName, NatText, IcmpAtoms, ICMP_NAMES, TransportNumbered, IcmpNumbered, Canonical;
    IcmpNames(rule.protocol.value);
    var n := if rule.protocol.value == "icmp" then 1 else 58;
    Spells(NatText(n), n);
    TransportIffCanonical(NatText(n));
  }

  /** A rule named for ICMP, by whichever name, is about the ICMP of its ethertype. */
  lemma IcmpRuleMeans(rule: Rule, group: string, net: Network, p: Packet)
    requires rule.etherType != OtherType && rule.protocol.Some? && rule.protocol.value in ICMP_NAMES
    ensures var v := if rule.etherType == IPv4 then V4 else V6;
            CompiledAtoms(rule, group) == Some(HeadAtoms(rule, group) + IcmpAtoms(v, rule.portMin, rule.portMax))
    ensures AllHold(CompiledAtoms(rule, group).value, net, p) <==>
            && HeadAdmits(rule, group, net, p) && p.proto == (if rule.etherType == IPv4 then 1 else 58)
            && IcmpMatches(rule.portMin, rule.portMax, p)
  {
    var v := if rule.etherType == IPv4 then V4 else V6;
    IcmpCompiles(rule);
    hide ProtocolAtoms, HeadAtoms, HeadAdmits, AllHold, IcmpAtoms, IcmpMatches, ICMP_NAMES;
    NamedHolds(rule, group, IcmpAtoms(v, rule.portMin, rule.portMax), net, p);
    IcmpMeans(v, rule.portMin, rule.portMax, net, p);
    HeadIsIp(rule, group, net, p);
  }

  /** A rule named for any other protocol admits the packets with its assigned number, whatever ports the
      rule gives. */
  lemma OtherRuleMeans(rule: Rule, group: string, net: Network, p: Packet)
    requires rule.etherType != OtherType && rule.protocol.Some? && rule.protocol.value in OTHER_NUMBERS
    ensures CompiledAtoms(rule, group).Some?
    ensures AllHold(CompiledAtoms(rule, group).value, net, p) <==>
            HeadAdmits(rule, group, net, p) && p.proto == OTHER_NUMBERS[rule.protocol.value]
  {
    hide NumberOfName, HeadAtoms, HeadAdmits, AllHold, NatText, OTHER_NUMBERS;
    hide TransportNumbered, IcmpNumbered, Canonical;
    OtherNames(rule.protocol.value);
    var number := NatText(OTHER_NUMBERS[rule.protocol.value]);
    TransportIffCanonical(number);
    assert ProtocolAtoms(rule.protocol, rule.portMin, rule.portMax, VersionOf(rule.etherType)) ==
           Some([ProtoTest(number)]);
    NamedHolds(rule, group, [ProtoTest(number)], net, p);
    OneHolds(ProtoTest(number), net, p);
    HeadIsIp(rule, group, net, p);
  }

  /** What a rule asks of the protocol of a packet. */
  ghost predicate ProtocolAsked(rule: Rule, p: Packet)
    requires Given(rule.protocol)
  {
    var n := Assigned(rule.protocol.value);
    if n == None then false
    else if n.value in {6, 17, 132} then
      && p.proto == n.value
      && (rule.portMin.Some? ==> rule.portMin.value <= p.dstPort)
      && (rule.portMax.Some? ==> p.dstPort <= rule.portMax.value)
    else if n.value in {1, 58} then
      && p.proto == (if rule.etherType == IPv4 then 1 else 58)
      && (rule.portMin.Some? ==> p.icmpType == rule.portMin.value)
      && (rule.portMax.Some? ==> p.icmpCode == rule.portMax.value)
    else p.proto == n.value
  }

  /** What the compiler is proved against is what the rule says: direction, ethertype, prefix and remote
      group, and the protocol by its assigned number. */
  lemma AdmitsIsAsked(rule: Rule, group: string, net: Network, p: Packet)
    requires rule.etherType != OtherType
    ensures Admits(rule, group, net, p) <==>
            HeadAdmits(rule, group, net, p) && (Given(rule.protocol) ==> ProtocolAsked(rule, p))
  {
    hide Assigned, ProtocolValue;
    if Given(rule.protocol) {
      ValueIsAssigned(rule);
    }
  }

  lemma NoneToHold(net: Network, p: Packet)
    ensures AllHold([], net, p)
  {
  }

  /** A rule without a protocol */
  lemma OpenRuleMeans(rule: Rule, group: string, net: Network, p: Packet)
    requires rule.etherType != OtherType && !Given(rule.protocol)
    ensures CompiledAtoms(rule, group).Some?
    ensures AllHold(CompiledAtoms(rule, group).value, net, p) <==> HeadAdmits(rule, group, net, p)
  {
    hide HeadAtoms, HeadAdmits, AllHold;
    NamedHolds(rule, group, [], net, p);
    NoneToHold(net, p);
  }

  /** A protocol name and its number compile to the same match. */
  lemma NameAndNumberAlike(rule: Rule, name: string, group: string)
    requires name in ASSIGNED
    ensures var named, numbered := rule.(protocol := Some(name)), rule.(protocol := Some(NatText(ASSIGNED[name])));
            && CompiledMatch(named, group).Some? && CompiledMatch(named, group) == CompiledMatch(numbered, group)
            && Recognised(named)
  {
    AssignedNames(name);
    hide NumberOfName, ASSIGNED, NatText, CompiledMatch, Recognised;
    NameAndNumberCompileAlike(rule, name, group);
  }

  // ---------------------------------------------------------------------------------------------
  // The strings themselves
  // ---------------------------------------------------------------------------------------------

  function IpWord(e: EtherType): string {
    if e == IPv4 then "ip4" else "ip6"
  }

  function Side(d: Direction): string {
    if d == Ingress then ".src" else ".dst"
  }

  lemma HeadSpelled(rule: Rule, group: string)
    requires rule.etherType != OtherType && Given(rule.prefix) && Given(rule.remoteGroup)
    ensures var ip := IpWord(rule.etherType);
            var field := ip + Side(rule.direction);
            AtomTexts(HeadAtoms(rule, group)) ==
            [(if rule.direction == Ingress then "outport == @" else "inport == @") + group, ip,
             field + " == " + rule.prefix.value, field + " == $" + (rule.remoteGroup.value + "_" + ip)]
  {
    var v, d := VersionOf(rule.etherType), rule.direction;
    var atoms := HeadAtoms(rule, group);
    assert atoms == [AtPort(d, group), IpOf(v), RemotePrefix(v, d, rule.prefix.value),
                     RemoteGroup(v, d, rule.remoteGroup.value)];
    MapAt(AtomText, atoms);
    AclDirectionSpells(d, group);
    assert DirectionText(d) + " == @" == if d == Ingress then "outport == @" else "inport == @";
    assert VersionText(v) == IpWord(rule.etherType) && "." + RemoteText(d) == Side(d);
    assert VersionText(v) + "." + RemoteText(d) == VersionText(v) + Side(d);
    AddressSpelled(v, d, rule.prefix.value);
    AddressSpelled(v, d, AddressSetText(rule.remoteGroup.value, v));
    GroupTextSpelled(VersionText(v) + "." + RemoteText(d), rule.remoteGroup.value, VersionText(v));
  }
}
