/** provider/ovndb/acls.py: a security group rule compiled into the match of an ACL. */
module Acls {
  import opened Text
  import opened Matches

  datatype EtherType = IPv4 | IPv6 | OtherType

  datatype Rule = Rule(direction: Direction, etherType: EtherType, prefix: Option<string>,
                       portMin: Option<int>, portMax: Option<int>, protocol: Option<string>,
                       remoteGroup: Option<string>)

  /** Python's truth of an optional string. */
  predicate Given(s: Option<string>) {
    s.Some? && s.value != ""
  }

  function VersionOf(e: EtherType): Version {
    match e
    case IPv4 => V4
    case IPv6 => V6
    case OtherType => NoVersion
  }

  // ---------------------------------------------------------------------------------------------
  // Protocols
  // ---------------------------------------------------------------------------------------------

  /** IP_PROTOCOL_MAP; PROTOCOL_NAME_TO_NUM_MAP is the same with the numbers as text. */
  function NumberOfName(name: string): (number: Option<nat>)
    ensures number.Some? ==> name != "" && !IsDigit(name[0]) && number.value <= 255
  {
    if name == "ah" then Some(51)
    else if name == "dccp" then Some(33)
    else if name == "egp" then Some(8)
    else if name == "esp" then Some(50)
    else if name == "gre" then Some(47)
    else if name == "icmp" then Some(1)
    else if name == "igmp" then Some(2)
    else if name == "ipip" then Some(4)
    else if name == "ipv6-encap" then Some(41)
    else if name == "ipv6-frag" then Some(44)
    else if name == "ipv6-icmp" then Some(58)
    else if name == "icmpv6" then Some(58)
    else if name == "ipv6-nonxt" then Some(59)
    else if name == "ipv6-opts" then Some(60)
    else if name == "ipv6-route" then Some(43)
    else if name == "ospf" then Some(89)
    else if name == "pgm" then Some(113)
    else if name == "rsvp" then Some(46)
    else if name == "sctp" then Some(132)
    else if name == "tcp" then Some(6)
    else if name == "udp" then Some(17)
    else if name == "udplite" then Some(136)
    else if name == "vrrp" then Some(112)
    else None
  }

  /** `_get_protocol_number` of a given protocol; `None` is ProtocolNotSupported. */
  function ProtocolNumber(protocol: string): (number: Option<string>)
    requires protocol != ""
    ensures number.Some? ==> number.value != "" && AllDigits(number.value) && NatValue(number.value) <= 255
  {
    if AllDigits(protocol) && NatValue(protocol) <= 255 then Some(protocol)
    else if NumberOfName(protocol).Some? then Some(NatText(NumberOfName(protocol).value))
    else None
  }

  function TransportNumbered(number: string): Option<Transport> {
    if number == NatText(6) then Some(TCP)
    else if number == NatText(17) then Some(UDP)
    else if number == NatText(132) then Some(SCTP)
    else None
  }

  predicate IcmpNumbered(number: string) {
    number == NatText(1) || number == NatText(58)
  }

  // ---------------------------------------------------------------------------------------------
  // The compiled conjunction
  // ---------------------------------------------------------------------------------------------

  /** `handle_ports` */
  function PortAtoms(t: Transport, min: Option<int>, max: Option<int>): seq<Atom> {
    [TransportOf(t)] +
    if min.Some? && min == max then [PortTest(t, Equal, min.value)]
    else (if min.Some? then [PortTest(t, AtLeast, min.value)] else []) +
         (if max.Some? then [PortTest(t, AtMost, max.value)] else [])
  }

  /** `handle_icmp_protocol`, after the final filter has dropped a missing protocol name. */
  function IcmpAtoms(v: Version, min: Option<int>, max: Option<int>): seq<Atom> {
    (if v == NoVersion then [] else [IcmpOf(v)]) +
    (if min.Some? then [IcmpTest(v, Type, min.value)] else []) +
    (if max.Some? then [IcmpTest(v, Code, max.value)] else [])
  }

  /** `process_acl_protocol_and_ports` */
  function ProtocolAtoms(protocol: Option<string>, min: Option<int>, max: Option<int>, v: Version): Option<seq<Atom>> {
    if !Given(protocol) then Some([])
    else
      var number := ProtocolNumber(protocol.value);
      if number == None then None
      else if TransportNumbered(number.value).Some? then
        Some(PortAtoms(TransportNumbered(number.value).value, min, max))
      else if IcmpNumbered(number.value) then Some(IcmpAtoms(v, min, max))
      else Some([ProtoTest(number.value)])
  }

  function PrefixAtoms(v: Version, d: Direction, prefix: Option<string>): seq<Atom> {
    if Given(prefix) then [RemotePrefix(v, d, prefix.value)] else []
  }

  function GroupAtoms(v: Version, d: Direction, remoteGroup: Option<string>): seq<Atom> {
    if Given(remoteGroup) then [RemoteGroup(v, d, remoteGroup.value)] else []
  }

  function HeadAtoms(rule: Rule, group: string): seq<Atom> {
    var v := VersionOf(rule.etherType);
    [AtPort(rule.direction, group)] + (if v == NoVersion then [] else [IpOf(v)]) +
    PrefixAtoms(v, rule.direction, rule.prefix) + GroupAtoms(v, rule.direction, rule.remoteGroup)
  }

  /** `create_acl_match`, as atoms; `group` is the name of the port group the rule belongs to. */
  function CompiledAtoms(rule: Rule, group: string): Option<seq<Atom>> {
    var protocol := ProtocolAtoms(rule.protocol, rule.portMin, rule.portMax, VersionOf(rule.etherType));
    if protocol == None then None else Some(HeadAtoms(rule, group) + protocol.value)
  }

  /** The match string of a rule. */
  function CompiledMatch(rule: Rule, group: string): Option<string> {
    if CompiledAtoms(rule, group) == None then None else Some(MatchText(CompiledAtoms(rule, group).value))
  }

  // ---------------------------------------------------------------------------------------------
  // The code, on strings
  // ---------------------------------------------------------------------------------------------

  /** `list(filter(lambda s: s, match))` */
  function Kept(parts: seq<Option<string>>): seq<string> {
    if parts == [] then []
    else (if Given(parts[0]) then [parts[0].value] else []) + Kept(parts[1..])
  }

  lemma {:induction false} KeptAppend(a: seq<Option<string>>, b: seq<Option<string>>)
    ensures Kept(a + b) == Kept(a) + Kept(b)
    decreases |a|
  {
    if a == [] {
      assert a + b == b;
    } else {
      assert (a + b)[1..] == a[1..] + b;
      KeptAppend(a[1..], b);
    }
  }

  lemma KeptOne(part: Option<string>)
    ensures Kept([part]) == if Given(part) then [part.value] else []
  {
    assert Kept([part][1..]) == [];
  }

  function Wrapped(parts: seq<string>): seq<Option<string>> {
    seq(|parts|, i requires 0 <= i < |parts| => Some(parts[i]))
  }

  lemma {:induction false} KeptWrapped(parts: seq<string>)
    requires forall i :: 0 <= i < |parts| ==> parts[i] != ""
    ensures Kept(Wrapped(parts)) == parts
    decreases |parts|
  {
    if parts != [] {
      assert Wrapped(parts)[1..] == Wrapped(parts[1..]);
      KeptWrapped(parts[1..]);
    }
  }

  /** A part more in the list is an atom more in the conjunction. */
  lemma KeptMore(parts: seq<Option<string>>, atoms: seq<Atom>, part: Option<string>, more: seq<Atom>)
    requires Kept(parts) == AtomTexts(atoms) && Kept([part]) == AtomTexts(more)
    ensures Kept(parts + [part]) == AtomTexts(atoms + more)
  {
    KeptAppend(parts, [part]);
    AtomTextsAppend(atoms, more);
  }

  lemma TextsAreTruthy(atoms: seq<Atom>)
    requires forall i :: 0 <= i < |atoms| ==> !atoms[i].IpOf? && !atoms[i].IcmpOf?
    ensures Kept(Wrapped(AtomTexts(atoms))) == AtomTexts(atoms)
  {
    MapAt(AtomText, atoms);
    KeptWrapped(AtomTexts(atoms));
  }

  // The parts as the code formats them, each with the atom it spells.

  function DirectionText(d: Direction): string {
    if d == Ingress then "outport" else "inport"
  }

  function RemoteText(d: Direction): string {
    if d == Ingress then "src" else "dst"
  }

  /** `acl_direction` */
  function AclDirection(d: Direction, group: string): string {
    DirectionText(d) + " == @" + group
  }

  /** `acl_remote_ip_prefix` */
  function AclRemoteIpPrefix(prefix: Option<string>, d: Direction, ipVersion: string): string {
    if !Given(prefix) then "" else ipVersion + "." + RemoteText(d) + " == " + prefix.value
  }

  /** `get_remote_group_id_match` */
  function RemoteGroupIdMatch(group: Option<string>, d: Direction, ipVersion: string): string {
    if !Given(group) then "" else ipVersion + "." + RemoteText(d) + " == $" + (group.value + "_" + ipVersion)
  }

  function PortPart(protocol: string, operator: string, port: int): string {
    protocol + ".dst " + operator + " " + IntText(port)
  }

  function IcmpPart(protocol: string, attribute: string, value: int): string {
    protocol + "." + attribute + " == " + IntText(value)
  }

  lemma PartSpells(part: string, a: Atom)
    requires part == AtomText(a) && part != ""
    ensures Kept([Some(part)]) == AtomTexts([a])
  {
    KeptOne(Some(part));
    AtomTextsOne(a);
  }

  lemma AclDirectionSpells(d: Direction, group: string)
    ensures AclDirection(d, group) == AtomText(AtPort(d, group))
  {
    assert " " + "==" + " " + "@" == " == @";
  }

  lemma AddressSpelled(v: Version, d: Direction, value: string)
    ensures Comparison(AddressField(v, d), Equal, value) == VersionText(v) + "." + RemoteText(d) + " == " + value
  {
    assert FieldText(AddressField(v, d)) == VersionText(v) + "." + RemoteText(d);
    assert VersionText(v) + "." + RemoteText(d) + " " + "==" + " " == VersionText(v) + "." + RemoteText(d) + " == ";
  }

  lemma PrefixSpells(v: Version, d: Direction, prefix: Option<string>)
    ensures Kept([Some(AclRemoteIpPrefix(prefix, d, VersionText(v)))]) == AtomTexts(PrefixAtoms(v, d, prefix))
  {
    if Given(prefix) {
      AddressSpelled(v, d, prefix.value);
      PartSpells(AclRemoteIpPrefix(prefix, d, VersionText(v)), RemotePrefix(v, d, prefix.value));
    }
  }

  lemma GroupTextSpelled(head: string, group: string, version: string)
    ensures head + " == " + ("$" + group + "_" + version) == head + " == $" + (group + "_" + version)
  {
    assert " == " + "$" == " == $";
  }

  lemma GroupSpells(v: Version, d: Direction, group: Option<string>)
    ensures Kept([Some(RemoteGroupIdMatch(group, d, VersionText(v)))]) == AtomTexts(GroupAtoms(v, d, group))
  {
    if Given(group) {
      AddressSpelled(v, d, AddressSetText(group.value, v));
      GroupTextSpelled(VersionText(v) + "." + RemoteText(d), group.value, VersionText(v));
      PartSpells(RemoteGroupIdMatch(group, d, VersionText(v)), RemoteGroup(v, d, group.value));
    }
  }

  lemma PortPartSpells(t: Transport, c: Cmp, n: int)
    ensures PortPart(TransportText(t), CmpText(c), n) == AtomText(PortTest(t, c, n))
  {
    assert TransportText(t) + ".dst" + " " == TransportText(t) + ".dst ";
  }

  lemma EqualSign(field: string)
    ensures field + " " + "==" + " " == field + " == "
  {
    assert " " + "==" + " " == " == ";
  }

  lemma IcmpPartSpells(v: Version, k: IcmpField, n: int)
    ensures var part := IcmpPart(IcmpText(v), if k == Type then "type" else "code", n);
            Kept([Some(part)]) == AtomTexts([IcmpTest(v, k, n)])
  {
    var attribute := if k == Type then "type" else "code";
    assert FieldText(IcmpFieldOf(v, k)) == IcmpText(v) + "." + attribute;
    EqualSign(IcmpText(v) + "." + attribute);
    PartSpells(IcmpPart(IcmpText(v), attribute, n), IcmpTest(v, k, n));
  }

  lemma ProtoPartSpells(number: string)
    ensures Kept([Some("ip.proto == " + number)]) == AtomTexts([ProtoTest(number)])
  {
    assert "ip.proto" + " " + "==" + " " == "ip.proto == ";
    PartSpells("ip.proto == " + number, ProtoTest(number));
  }

  lemma VersionSpells(v: Version)
    ensures Kept([if v == NoVersion then None else Some(VersionText(v))]) ==
            AtomTexts(if v == NoVersion then [] else [IpOf(v)])
    ensures Kept([if v == NoVersion then None else Some(IcmpText(v))]) ==
            AtomTexts(if v == NoVersion then [] else [IcmpOf(v)])
  {
    if v == NoVersion {
      KeptOne(None);
    } else {
      PartSpells(VersionText(v), IpOf(v));
      PartSpells(IcmpText(v), IcmpOf(v));
    }
  }

  lemma OneMore(parts: seq<string>, atoms: seq<Atom>, a: Atom)
    requires parts == AtomTexts(atoms)
    ensures parts + [AtomText(a)] == AtomTexts(atoms + [a])
  {
    AtomTextsAppend(atoms, [a]);
    AtomTextsOne(a);
  }

  /** `handle_ports`, with `_get_port_operators` written out. */
  method HandlePorts(protocol: string, min: Option<int>, max: Option<int>, ghost t: Transport)
    returns (parts: seq<string>)
    requires protocol == TransportText(t)
    ensures parts == AtomTexts(PortAtoms(t, min, max))
  {
    parts := [protocol];
    AtomTextsOne(TransportOf(t));
    if min.Some? && min == max {
      PortPartSpells(t, Equal, min.value);
      OneMore(parts, [TransportOf(t)], PortTest(t, Equal, min.value));
      parts := parts + [PortPart(protocol, "==", min.value)];
    } else {
      ghost var atoms := [TransportOf(t)];
      if min.Some? {
        PortPartSpells(t, AtLeast, min.value);
        OneMore(parts, atoms, PortTest(t, AtLeast, min.value));
        parts := parts + [PortPart(protocol, ">=", min.value)];
        atoms := atoms + [PortTest(t, AtLeast, min.value)];
      }
      if max.Some? {
        PortPartSpells(t, AtMost, max.value);
        OneMore(parts, atoms, PortTest(t, AtMost, max.value));
        parts := parts + [PortPart(protocol, "<=", max.value)];
        atoms := atoms + [PortTest(t, AtMost, max.value)];
      }
      assert atoms == PortAtoms(t, min, max);
    }
  }

  /** `handle_icmp_protocol`; the protocol is absent for an unknown ethertype, and prints as None. */
  method HandleIcmpProtocol(protocol: Option<string>, min: Option<int>, max: Option<int>, ghost v: Version)
    returns (parts: seq<Option<string>>)
    requires protocol == if v == NoVersion then None else Some(IcmpText(v))
    ensures Kept(parts) == AtomTexts(IcmpAtoms(v, min, max))
  {
    var shown := if protocol.Some? then protocol.value else "None";
    assert shown == IcmpText(v);
    ghost var atoms := if v == NoVersion then [] else [IcmpOf(v)];
    parts := [protocol];
    VersionSpells(v);
    if min.Some? {
      var part := Some(IcmpPart(shown, "type", min.value));
      IcmpPartSpells(v, Type, min.value);
      KeptMore(parts, atoms, part, [IcmpTest(v, Type, min.value)]);
      parts, atoms := parts + [part], atoms + [IcmpTest(v, Type, min.value)];
    }
    if max.Some? {
      var part := Some(IcmpPart(shown, "code", max.value));
      IcmpPartSpells(v, Code, max.value);
      KeptMore(parts, atoms, part, [IcmpTest(v, Code, max.value)]);
      parts, atoms := parts + [part], atoms + [IcmpTest(v, Code, max.value)];
    }
    assert atoms == IcmpAtoms(v, min, max);
  }

  method ProcessAclProtocolAndPorts(protocol: Option<string>, min: Option<int>, max: Option<int>,
                                    icmp: Option<string>, ghost v: Version)
    returns (parts: Option<seq<Option<string>>>)
    requires icmp == if v == NoVersion then None else Some(IcmpText(v))
    ensures parts.Some? <==> ProtocolAtoms(protocol, min, max, v).Some?
    ensures parts.Some? ==> Kept(parts.value) == AtomTexts(ProtocolAtoms(protocol, min, max, v).value)
  {
    if !Given(protocol) {
      return Some([]);
    }
    var number := ProtocolNumber(protocol.value);
    if number == None {
      return None;
    }
    var transport := TransportNumbered(number.value);
    ghost var expected := ProtocolAtoms(protocol, min, max, v);
    if transport.Some? {
      var ports := HandlePorts(TransportText(transport.value), min, max, transport.value);
      TextsAreTruthy(PortAtoms(transport.value, min, max));
      return Some(Wrapped(ports));
    }
    if IcmpNumbered(number.value) {
      var icmpParts := HandleIcmpProtocol(icmp, min, max, v);
      return Some(icmpParts);
    }
    ProtoPartSpells(number.value);
    return Some([Some("ip.proto == " + number.value)]);
  }

  /** `get_acl_protocol_info` */
  function AclProtocolInfo(e: EtherType): (info: (Option<string>, Option<string>))
    ensures var v := VersionOf(e);
            info == if v == NoVersion then (None, None) else (Some(VersionText(v)), Some(IcmpText(v)))
  {
    match e
    case IPv4 => (Some("ip4"), Some("icmp4"))
    case IPv6 => (Some("ip6"), Some("icmp6"))
    case OtherType => (None, None)
  }

  /** `create_acl_match`: the code grows one list of strings and drops the empty ones at the end. */
  method CreateAclMatch(rule: Rule, group: string) returns (parts: Option<seq<string>>)
    ensures parts.Some? <==> CompiledAtoms(rule, group).Some?
    ensures parts.Some? ==> parts.value == AtomTexts(CompiledAtoms(rule, group).value)
  {
    ghost var v := VersionOf(rule.etherType);
    var d := rule.direction;
    var (ipVersion, icmp) := AclProtocolInfo(rule.etherType);
    var shown := if ipVersion.Some? then ipVersion.value else "None";
    assert shown == VersionText(v);
    ghost var atoms := [AtPort(d, group)];
    var list := [Some(AclDirection(d, group))];
    AclDirectionSpells(d, group);
    PartSpells(AclDirection(d, group), AtPort(d, group));
    ghost var version := if v == NoVersion then [] else [IpOf(v)];
    VersionSpells(v);
    KeptMore(list, atoms, ipVersion, version);
    list, atoms := list + [ipVersion], atoms + version;
    PrefixSpells(v, d, rule.prefix);
    KeptMore(list, atoms, Some(AclRemoteIpPrefix(rule.prefix, d, shown)), PrefixAtoms(v, d, rule.prefix));
    list, atoms := list + [Some(AclRemoteIpPrefix(rule.prefix, d, shown))], atoms + PrefixAtoms(v, d, rule.prefix);
    GroupSpells(v, d, rule.remoteGroup);
    KeptMore(list, atoms, Some(RemoteGroupIdMatch(rule.remoteGroup, d, shown)), GroupAtoms(v, d, rule.remoteGroup));
    list := list + [Some(RemoteGroupIdMatch(rule.remoteGroup, d, shown))];
    var protocol := ProcessAclProtocolAndPorts(rule.protocol, rule.portMin, rule.portMax, icmp, v);
    if protocol == None {
      return None;
    }
    KeptAppend(list, protocol.value);
    AtomTextsAppend(HeadAtoms(rule, group), ProtocolAtoms(rule.protocol, rule.portMin, rule.portMax, v).value);
    assert Kept(list) == AtomTexts(HeadAtoms(rule, group));
    return Some(Kept(list + protocol.value));
  }
}
