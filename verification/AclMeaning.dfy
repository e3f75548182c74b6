/** What a compiled rule means: the match string admits exactly the packets the rule describes. */
module AclMeaning {
  import opened Text
  import opened Matches
  import opened Acls

  /** The protocol of a rule as a number: a name stands for the number assigned to it. */
  function ProtocolValue(rule: Rule): (n: Option<nat>)
    requires Given(rule.protocol)
  {
    var number := ProtocolNumber(rule.protocol.value);
    if number == None then None else Some(NatValue(number.value))
  }

  predicate IsTransport(n: nat) {
    n == 6 || n == 17 || n == 132
  }

  predicate IsIcmpNumber(n: nat) {
    n == 1 || n == 58
  }

  predicate InRange(min: Option<int>, max: Option<int>, port: int) {
    (min.Some? ==> min.value <= port) && (max.Some? ==> port <= max.value)
  }

  predicate IcmpMatches(min: Option<int>, max: Option<int>, p: Packet) {
    (min.Some? ==> p.icmpType == min.value) && (max.Some? ==> p.icmpCode == max.value)
  }

  /** The networking API's meaning of a rule of `group`.  ICMP is the ICMP of the rule's ethertype. */
  ghost predicate Admits(rule: Rule, group: string, net: Network, p: Packet) {
    var v := VersionOf(rule.etherType);
    && p.version == v && IsIp(p)
    && net.Member(group, LocalPort(rule.direction, p))
    && (Given(rule.prefix) ==> net.covers(rule.prefix.value, RemoteAddress(rule.direction, p)))
    && (Given(rule.remoteGroup) ==> net.InAddressSet(rule.remoteGroup.value, v, RemoteAddress(rule.direction, p)))
    && (Given(rule.protocol) ==> ProtocolAdmits(rule, p))
  }

  ghost predicate ProtocolAdmits(rule: Rule, p: Packet)
    requires Given(rule.protocol)
  {
    var n := ProtocolValue(rule);
    && n.Some?
    && if IsTransport(n.value) then p.proto == n.value && InRange(rule.portMin, rule.portMax, p.dstPort)
       else if IsIcmpNumber(n.value) then
         p.proto == IcmpNumber(VersionOf(rule.etherType)) && IcmpMatches(rule.portMin, rule.portMax, p)
       else p.proto == n.value
  }

  /** A number spelled without leading zeros. */
  predicate Canonical(number: string) {
    AllDigits(number) && number == NatText(NatValue(number))
  }

  /** A protocol number with leading zeros is not recognised as TCP, UDP, SCTP or ICMP: its port range
      or ICMP type and code are dropped.  This says when nothing is lost by that. */
  predicate Recognised(rule: Rule) {
    Given(rule.protocol) && ProtocolNumber(rule.protocol.value).Some? ==>
      var number := ProtocolNumber(rule.protocol.value).value;
      var n := NatValue(number);
      || Canonical(number)
      || (IsTransport(n) && (rule.portMin.Some? ==> rule.portMin.value <= 0) &&
          (rule.portMax.Some? ==> rule.portMax.value >= 65535))
      || (n == IcmpNumber(VersionOf(rule.etherType)) && rule.portMin == None && rule.portMax == None)
      || (!IsTransport(n) && !IsIcmpNumber(n))
  }

  lemma Spells(number: string, k: nat)
    requires AllDigits(number)
    ensures number == NatText(k) <==> Canonical(number) && NatValue(number) == k
  {
  }

  lemma TransportIffCanonical(number: string)
    requires AllDigits(number) && number != ""
    ensures TransportNumbered(number).Some? <==> Canonical(number) && IsTransport(NatValue(number))
    ensures TransportNumbered(number).Some? ==> TransportNumber(TransportNumbered(number).value) == NatValue(number)
    ensures IcmpNumbered(number) <==> Canonical(number) && IsIcmpNumber(NatValue(number))
  {
    Spells(number, 6);
    Spells(number, 17);
    Spells(number, 132);
    Spells(number, 1);
    Spells(number, 58);
  }

  lemma AllHoldAppend(a: seq<Atom>, b: seq<Atom>, net: Network, p: Packet)
    ensures AllHold(a + b, net, p) <==> AllHold(a, net, p) && AllHold(b, net, p)
  {
    if AllHold(a + b, net, p) {
      forall i | 0 <= i < |a|
        ensures Holds(a[i], net, p)
      {
        assert Holds((a + b)[i], net, p);
      }
      forall i | 0 <= i < |b|
        ensures Holds(b[i], net, p)
      {
        assert Holds((a + b)[|a| + i], net, p);
      }
    }
  }

  lemma OneHolds(a: Atom, net: Network, p: Packet)
    ensures AllHold([a], net, p) <==> Holds(a, net, p)
  {
    assert [a][0] == a;
  }

  lemma HeadMeans(rule: Rule, group: string, net: Network, p: Packet)
    requires rule.etherType != OtherType
    ensures var v := VersionOf(rule.etherType);
            AllHold(HeadAtoms(rule, group), net, p) <==>
            && p.version == v && IsIp(p)
            && net.Member(group, LocalPort(rule.direction, p))
            && (Given(rule.prefix) ==> net.covers(rule.prefix.value, RemoteAddress(rule.direction, p)))
            && (Given(rule.remoteGroup) ==>
                net.InAddressSet(rule.remoteGroup.value, v, RemoteAddress(rule.direction, p)))
  {
    var v := VersionOf(rule.etherType);
    var d := rule.direction;
    AllHoldAppend([AtPort(d, group)] + [IpOf(v)] + PrefixAtoms(v, d, rule.prefix), GroupAtoms(v, d, rule.remoteGroup),
                  net, p);
    AllHoldAppend([AtPort(d, group)] + [IpOf(v)], PrefixAtoms(v, d, rule.prefix), net, p);
    AllHoldAppend([AtPort(d, group)], [IpOf(v)], net, p);
    OneHolds(AtPort(d, group), net, p);
    OneHolds(IpOf(v), net, p);
    if Given(rule.prefix) {
      OneHolds(RemotePrefix(v, d, rule.prefix.value), net, p);
    }
    if Given(rule.remoteGroup) {
      OneHolds(RemoteGroup(v, d, rule.remoteGroup.value), net, p);
    }
  }

  lemma PortsMean(t: Transport, min: Option<int>, max: Option<int>, net: Network, p: Packet)
    ensures AllHold(PortAtoms(t, min, max), net, p) <==>
            IsIp(p) && p.proto == TransportNumber(t) && InRange(min, max, p.dstPort)
  {
    OneHolds(TransportOf(t), net, p);
    if min.Some? && min == max {
      AllHoldAppend([TransportOf(t)], [PortTest(t, Equal, min.value)], net, p);
      OneHolds(PortTest(t, Equal, min.value), net, p);
    } else {
      var lower := if min.Some? then [PortTest(t, AtLeast, min.value)] else [];
      var upper := if max.Some? then [PortTest(t, AtMost, max.value)] else [];
      AllHoldAppend([TransportOf(t)], lower + upper, net, p);
      AllHoldAppend(lower, upper, net, p);
      if min.Some? {
        OneHolds(PortTest(t, AtLeast, min.value), net, p);
      }
      if max.Some? {
        OneHolds(PortTest(t, AtMost, max.value), net, p);
      }
    }
  }

  lemma IcmpMeans(v: Version, min: Option<int>, max: Option<int>, net: Network, p: Packet)
    requires v != NoVersion
    ensures AllHold(IcmpAtoms(v, min, max), net, p) <==> IsIcmp(v, p) && IcmpMatches(min, max, p)
  {
    var kind := if min.Some? then [IcmpTest(v, Type, min.value)] else [];
    var code := if max.Some? then [IcmpTest(v, Code, max.value)] else [];
    AllHoldAppend([IcmpOf(v)] + kind, code, net, p);
    AllHoldAppend([IcmpOf(v)], kind, net, p);
    OneHolds(IcmpOf(v), net, p);
    if min.Some? {
      OneHolds(IcmpTest(v, Type, min.value), net, p);
    }
    if max.Some? {
      OneHolds(IcmpTest(v, Code, max.value), net, p);
    }
  }

  /** What the compiled protocol part says, whether or not the number was recognised. */
  lemma ProtocolMeans(rule: Rule, net: Network, p: Packet)
    requires rule.etherType != OtherType && Given(rule.protocol) && ProtocolValue(rule).Some?
    requires p.version == VersionOf(rule.etherType)
    ensures var v := VersionOf(rule.etherType);
            var number := ProtocolNumber(rule.protocol.value).value;
            var atoms := ProtocolAtoms(rule.protocol, rule.portMin, rule.portMax, v);
            && atoms.Some?
            && (AllHold(atoms.value, net, p) <==>
                  if Canonical(number) then ProtocolAdmits(rule, p) else p.proto == NatValue(number))
  {
    var v := VersionOf(rule.etherType);
    var number := ProtocolNumber(rule.protocol.value).value;
    TransportIffCanonical(number);
    if TransportNumbered(number).Some? {
      PortsMean(TransportNumbered(number).value, rule.portMin, rule.portMax, net, p);
    } else if IcmpNumbered(number) {
      IcmpMeans(v, rule.portMin, rule.portMax, net, p);
    } else {
      OneHolds(ProtoTest(number), net, p);
    }
  }

  /** The compiled conjunction of a recognised rule admits exactly the packets the rule describes. */
  lemma CompiledMeans(rule: Rule, group: string, net: Network, p: Packet)
    requires rule.etherType != OtherType && CompiledAtoms(rule, group).Some? && Recognised(rule)
    ensures AllHold(CompiledAtoms(rule, group).value, net, p) <==> Admits(rule, group, net, p)
  {
    HeadMeans(rule, group, net, p);
    AllHoldAppend(HeadAtoms(rule, group),
                  ProtocolAtoms(rule.protocol, rule.portMin, rule.portMax, VersionOf(rule.etherType)).value, net, p);
    if Given(rule.protocol) && p.version == VersionOf(rule.etherType) {
      ProtocolMeans(rule, net, p);
    }
  }

  /** A network and a packet that everything in the rule but its protocol lets through. */
  function Witness(rule: Rule, group: string, proto: nat, port: Port16, icmpType: nat, icmpCode: nat): (Network,
                   Packet) {
    var v := VersionOf(rule.etherType);
    var a := Address(v, 0);
    var remote := if rule.remoteGroup.Some? then rule.remoteGroup.value else group;
    (Network(map[group := {0}, remote := {0}], map[0 := {a}], (_, _) => true),
     Packet(0, 0, v, a, a, proto, port, icmpType, icmpCode))
  }

  lemma WitnessPassesHead(rule: Rule, group: string, proto: nat, port: Port16, icmpType: nat, icmpCode: nat)
    requires rule.etherType != OtherType
    ensures var (net, p) := Witness(rule, group, proto, port, icmpType, icmpCode);
            AllHold(HeadAtoms(rule, group), net, p)
  {
    var (net, p) := Witness(rule, group, proto, port, icmpType, icmpCode);
    HeadMeans(rule, group, net, p);
    if rule.remoteGroup.Some? {
      assert net.Member(rule.remoteGroup.value, 0) && 0 in net.addresses && p.src in net.addresses[0];
    }
  }

  /** A rule that is not recognised lets a packet through that it does not describe, or stops one it does. */
  lemma UnrecognisedDiffers(rule: Rule, group: string) returns (net: Network, p: Packet)
    requires rule.etherType != OtherType && CompiledAtoms(rule, group).Some? && !Recognised(rule)
    ensures AllHold(CompiledAtoms(rule, group).value, net, p) && !Admits(rule, group, net, p)
  {
    var n := ProtocolValue(rule).value;
    var port: Port16 := if rule.portMin.Some? && rule.portMin.value > 0 then 0 else 65535;
    var kind: nat := if rule.portMin == Some(0) then 1 else 0;
    var code: nat := if rule.portMax == Some(0) then 1 else 0;
    var w := Witness(rule, group, n, port, kind, code);
    net, p := w.0, w.1;
    WitnessPassesHead(rule, group, n, port, kind, code);
    ProtocolMeans(rule, net, p);
    AllHoldAppend(HeadAtoms(rule, group),
                  ProtocolAtoms(rule.protocol, rule.portMin, rule.portMax, VersionOf(rule.etherType)).value, net, p);
  }

  /** Compilation preserves the meaning of a rule exactly when its protocol number is recognised. */
  lemma CompilerCorrectIffRecognised(rule: Rule, group: string)
    requires rule.etherType != OtherType && CompiledAtoms(rule, group).Some?
    ensures (forall net, p :: AllHold(CompiledAtoms(rule, group).value, net, p) <==> Admits(rule, group, net, p))
            <==> Recognised(rule)
  {
    if Recognised(rule) {
      forall net, p
        ensures AllHold(CompiledAtoms(rule, group).value, net, p) <==> Admits(rule, group, net, p)
      {
        CompiledMeans(rule, group, net, p);
      }
    } else {
      var net, p := UnrecognisedDiffers(rule, group);
    }
  }

  /** A rule for TCP to port 80, its protocol spelled with leading zeros */
  const ZEROS: Rule := Rule(Ingress, IPv4, None, Some(80), Some(80), Some("006"), None)

  lemma ZerosAreSix()
    ensures AllDigits("006") && NatValue("006") == 6 && !Canonical("006")
  {
    assert "006"[..2] == "00" && "00"[..1] == "0" && "0"[..0] == "";
    assert NatValue("0") == 0 && NatValue("00") == 0;
    assert NatText(6) == "6";
  }

  /** It is compiled without its port: a packet to port 22 is let through. */
  lemma LeadingZerosDropPorts(group: string) returns (net: Network, p: Packet)
    ensures CompiledAtoms(ZEROS, group).Some? && !Recognised(ZEROS)
    ensures p.proto == 6 && p.dstPort == 22
    ensures AllHold(CompiledAtoms(ZEROS, group).value, net, p) && !Admits(ZEROS, group, net, p)
  {
    ZerosAreSix();
    var w := Witness(ZEROS, group, 6, 22, 0, 0);
    net, p := w.0, w.1;
    WitnessPassesHead(ZEROS, group, 6, 22, 0, 0);
    ProtocolMeans(ZEROS, net, p);
    AllHoldAppend(HeadAtoms(ZEROS, group),
                  ProtocolAtoms(ZEROS.protocol, ZEROS.portMin, ZEROS.portMax,
                                VersionOf(ZEROS.etherType)).value, net, p);
  }

  /** Compilation fails exactly on a protocol that is neither a known name nor a number up to 255. */
  lemma RejectedIffUnknownProtocol(rule: Rule, group: string)
    ensures CompiledAtoms(rule, group) == None <==>
            Given(rule.protocol) && NumberOfName(rule.protocol.value) == None &&
            !(AllDigits(rule.protocol.value) && NatValue(rule.protocol.value) <= 255)
  {
  }

  lemma SameNumberCompilesAlike(rule: Rule, a: string, b: string, group: string)
    requires a != "" && b != "" && ProtocolNumber(a) == ProtocolNumber(b) && ProtocolNumber(a).Some?
    ensures CompiledMatch(rule.(protocol := Some(a)), group) == CompiledMatch(rule.(protocol := Some(b)), group)
    ensures CompiledMatch(rule.(protocol := Some(a)), group).Some?
    ensures Canonical(ProtocolNumber(a).value) ==> Recognised(rule.(protocol := Some(a)))
  {
    var ra, rb := rule.(protocol := Some(a)), rule.(protocol := Some(b));
    assert HeadAtoms(ra, group) == HeadAtoms(rb, group);
    assert CompiledAtoms(ra, group) == CompiledAtoms(rb, group);
  }

  /** A protocol name and its decimal number compile to the same match. */
  lemma NameAndNumberCompileAlike(rule: Rule, name: string, group: string)
    requires NumberOfName(name).Some?
    ensures var number := NatText(NumberOfName(name).value);
            && CompiledMatch(rule.(protocol := Some(name)), group) ==
               CompiledMatch(rule.(protocol := Some(number)), group)
            && CompiledMatch(rule.(protocol := Some(name)), group).Some?
            && Recognised(rule.(protocol := Some(name)))
  {
    var k := NumberOfName(name).value;
    assert ProtocolNumber(name) == Some(NatText(k)) == ProtocolNumber(NatText(k));
    Spells(NatText(k), k);
    SameNumberCompilesAlike(rule, name, NatText(k), group);
  }

  // ---------------------------------------------------------------------------------------------
  // The stored string
  // ---------------------------------------------------------------------------------------------

  predicate CleanFragment(s: string) {
    '&' !in s
  }

  /** No fragment of the rule can break the match string apart. */
  predicate CleanRule(rule: Rule, group: string) {
    && CleanFragment(group)
    && (Given(rule.prefix) ==> CleanFragment(rule.prefix.value) && rule.prefix.value[0] != '$')
    && (Given(rule.remoteGroup) ==> CleanFragment(rule.remoteGroup.value))
  }

  lemma DigitsAreClean(number: string)
    requires AllDigits(number)
    ensures CleanFragment(number)
  {
    assert forall i :: 0 <= i < |number| ==> IsDigit(number[i]);
  }

  lemma PortsAreClean(t: Transport, min: Option<int>, max: Option<int>)
    ensures AllClean(PortAtoms(t, min, max))
  {
  }

  lemma IcmpIsClean(v: Version, min: Option<int>, max: Option<int>)
    ensures AllClean(IcmpAtoms(v, min, max))
  {
  }

  lemma ProtocolIsClean(protocol: Option<string>, min: Option<int>, max: Option<int>, v: Version)
    requires ProtocolAtoms(protocol, min, max, v).Some?
    ensures AllClean(ProtocolAtoms(protocol, min, max, v).value)
  {
    if Given(protocol) {
      var number := ProtocolNumber(protocol.value).value;
      DigitsAreClean(number);
      if TransportNumbered(number).Some? {
        PortsAreClean(TransportNumbered(number).value, min, max);
      } else if IcmpNumbered(number) {
        IcmpIsClean(v, min, max);
      }
    }
  }

  lemma CompiledIsClean(rule: Rule, group: string)
    requires CleanRule(rule, group) && CompiledAtoms(rule, group).Some?
    ensures CompiledAtoms(rule, group).value != [] && AllClean(CompiledAtoms(rule, group).value)
  {
    ProtocolIsClean(rule.protocol, rule.portMin, rule.portMax, VersionOf(rule.etherType));
    assert AllClean(HeadAtoms(rule, group));
  }

  /** End to end: the string stored in the database admits exactly what the rule describes. */
  lemma StoredMatchMeans(rule: Rule, group: string, net: Network, p: Packet)
    requires rule.etherType != OtherType && CleanRule(rule, group) && Recognised(rule)
    requires CompiledMatch(rule, group).Some?
    ensures Selects(CompiledMatch(rule, group).value, net, p) <==> Admits(rule, group, net, p)
  {
    CompiledIsClean(rule, group);
    MatchReadsBack(CompiledAtoms(rule, group).value);
    CompiledMeans(rule, group, net, p);
  }
}
