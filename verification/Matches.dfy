/** The match language of ACLs, as far as provider/ovndb/acls.py writes it: the atoms of a
    conjunction, their text, and what they mean for a packet.  The meaning is that of ovn-nb(5) and
    the expression language of ovn-sb(5); ICMP type and code are those of RFC 792 and of section 2.1
    of RFC 4443. */
module Matches {
  import opened Text

  datatype Direction = Ingress | Egress

  /** The `ip_version` of a match; `NoVersion` is the `None` of an unknown ethertype. */
  datatype Version = V4 | V6 | NoVersion

  datatype Transport = TCP | UDP | SCTP

  datatype Cmp = Equal | AtLeast | AtMost

  datatype IcmpField = Type | Code

  datatype Atom =
    | AtPort(direction: Direction, group: string)
    | IpOf(version: Version)
    | AnyIp
    | RemotePrefix(version: Version, direction: Direction, prefix: string)
    | RemoteGroup(version: Version, direction: Direction, group: string)
    | TransportOf(transport: Transport)
    | PortTest(transport: Transport, cmp: Cmp, port: int)
    | IcmpOf(version: Version)
    | IcmpTest(version: Version, field: IcmpField, code: int)
    | ProtoTest(number: string)

  // ---------------------------------------------------------------------------------------------
  // Text of an atom
  // ---------------------------------------------------------------------------------------------

  datatype Field =
    | PortField(direction: Direction)
    | AddressField(version: Version, direction: Direction)
    | TransportField(transport: Transport)
    | IcmpFieldOf(version: Version, field: IcmpField)
    | ProtoField

  function VersionText(v: Version): string {
    match v
    case V4 => "ip4"
    case V6 => "ip6"
    case NoVersion => "None"
  }

  function IcmpText(v: Version): string {
    match v
    case V4 => "icmp4"
    case V6 => "icmp6"
    case NoVersion => "None"
  }

  function TransportText(t: Transport): string {
    match t
    case TCP => "tcp"
    case UDP => "udp"
    case SCTP => "sctp"
  }

  function CmpText(c: Cmp): string {
    match c
    case Equal => "=="
    case AtLeast => ">="
    case AtMost => "<="
  }

  function FieldText(f: Field): string {
    match f
    case PortField(Ingress) => "outport"
    case PortField(Egress) => "inport"
    case AddressField(v, Ingress) => VersionText(v) + ".src"
    case AddressField(v, Egress) => VersionText(v) + ".dst"
    case TransportField(t) => TransportText(t) + ".dst"
    case IcmpFieldOf(v, Type) => IcmpText(v) + ".type"
    case IcmpFieldOf(v, Code) => IcmpText(v) + ".code"
    case ProtoField => "ip.proto"
  }

  function Comparison(f: Field, c: Cmp, value: string): string {
    FieldText(f) + " " + CmpText(c) + " " + value
  }

  /** `get_assoc_addr_set_name`, with the '$' that dereferences it. */
  function AddressSetText(group: string, v: Version): string {
    "$" + group + "_" + VersionText(v)
  }

  function AtomText(a: Atom): string {
    match a
    case AtPort(d, g) => Comparison(PortField(d), Equal, "@" + g)
    case IpOf(v) => VersionText(v)
    case AnyIp => "ip"
    case RemotePrefix(v, d, p) => Comparison(AddressField(v, d), Equal, p)
    case RemoteGroup(v, d, g) => Comparison(AddressField(v, d), Equal, AddressSetText(g, v))
    case TransportOf(t) => TransportText(t)
    case PortTest(t, c, n) => Comparison(TransportField(t), c, IntText(n))
    case IcmpOf(v) => IcmpText(v)
    case IcmpTest(v, f, n) => Comparison(IcmpFieldOf(v, f), Equal, IntText(n))
    case ProtoTest(n) => Comparison(ProtoField, Equal, n)
  }

  const SEPARATOR := " && "

  function AtomTexts(atoms: seq<Atom>): seq<string> {
    MapSeq(AtomText, atoms)
  }

  lemma AtomTextsAppend(a: seq<Atom>, b: seq<Atom>)
    ensures AtomTexts(a + b) == AtomTexts(a) + AtomTexts(b)
  {
    MapAppend(AtomText, a, b);
  }

  lemma AtomTextsOne(a: Atom)
    ensures AtomTexts([a]) == [AtomText(a)]
  {
    MapOne(AtomText, a);
  }

  /** `create_acl_match_string` */
  function MatchText(atoms: seq<Atom>): string {
    Join(AtomTexts(atoms), SEPARATOR)
  }

  // ---------------------------------------------------------------------------------------------
  // Reading a match string back
  // ---------------------------------------------------------------------------------------------

  function Only<T>(s: string, text: string, value: T): Option<T> {
    if s == text then Some(value) else None
  }

  function AddressFieldOf(s: string): Option<Field> {
    if |s| < 7 then None
    else if s[2] == '4' then
      if s[4] == 's' then Only(s, "ip4.src", AddressField(V4, Ingress))
      else Only(s, "ip4.dst", AddressField(V4, Egress))
    else if s[2] == '6' then
      if s[4] == 's' then Only(s, "ip6.src", AddressField(V6, Ingress))
      else Only(s, "ip6.dst", AddressField(V6, Egress))
    else Only(s, "ip.proto", ProtoField)
  }

  function IcmpFieldNamed(s: string): Option<Field> {
    if |s| < 10 then None
    else if s[4] == '4' then
      if s[6] == 't' then Only(s, "icmp4.type", IcmpFieldOf(V4, Type)) else Only(s, "icmp4.code", IcmpFieldOf(V4, Code))
    else
      if s[6] == 't' then Only(s, "icmp6.type", IcmpFieldOf(V6, Type)) else Only(s, "icmp6.code", IcmpFieldOf(V6, Code))
  }

  function NoneFieldOf(s: string): Option<Field> {
    if |s| < 8 then None
    else if s[5] == 's' then Only(s, "None.src", AddressField(NoVersion, Ingress))
    else if s[5] == 'd' then Only(s, "None.dst", AddressField(NoVersion, Egress))
    else if s[5] == 't' then Only(s, "None.type", IcmpFieldOf(NoVersion, Type))
    else Only(s, "None.code", IcmpFieldOf(NoVersion, Code))
  }

  function FieldOf(s: string): Option<Field> {
    if |s| < 2 then None
    else if s[0] == 'N' then NoneFieldOf(s)
    else if s[0] == 't' then Only(s, "tcp.dst", TransportField(TCP))
    else if s[0] == 'u' then Only(s, "udp.dst", TransportField(UDP))
    else if s[0] == 's' then Only(s, "sctp.dst", TransportField(SCTP))
    else if s[0] == 'o' then Only(s, "outport", PortField(Ingress))
    else if s[1] == 'n' then Only(s, "inport", PortField(Egress))
    else if s[1] == 'c' then IcmpFieldNamed(s)
    else AddressFieldOf(s)
  }

  lemma AddressFieldReadsBack(v: Version, d: Direction)
    ensures FieldOf(FieldText(AddressField(v, d))) == Some(AddressField(v, d))
  {
    match v
    case V4 => assert FieldText(AddressField(v, d)) == if d == Ingress then "ip4.src" else "ip4.dst";
    case V6 => assert FieldText(AddressField(v, d)) == if d == Ingress then "ip6.src" else "ip6.dst";
    case NoVersion => assert FieldText(AddressField(v, d)) == if d == Ingress then "None.src" else "None.dst";
  }

  lemma IcmpTypeReadsBack(v: Version)
    ensures FieldOf(FieldText(IcmpFieldOf(v, Type))) == Some(IcmpFieldOf(v, Type))
  {
    match v
    case V4 => assert FieldText(IcmpFieldOf(v, Type)) == "icmp4.type";
    case V6 => assert FieldText(IcmpFieldOf(v, Type)) == "icmp6.type";
    case NoVersion => assert FieldText(IcmpFieldOf(v, Type)) == "None.type";
  }

  lemma IcmpCodeReadsBack(v: Version)
    ensures FieldOf(FieldText(IcmpFieldOf(v, Code))) == Some(IcmpFieldOf(v, Code))
  {
    match v
    case V4 => assert FieldText(IcmpFieldOf(v, Code)) == "icmp4.code";
    case V6 => assert FieldText(IcmpFieldOf(v, Code)) == "icmp6.code";
    case NoVersion => assert FieldText(IcmpFieldOf(v, Code)) == "None.code";
  }

  lemma FieldReadsBack(f: Field)
    ensures FieldOf(FieldText(f)) == Some(f)
  {
    match f
    case AddressField(v, d) => AddressFieldReadsBack(v, d);
    case IcmpFieldOf(v, Type) => IcmpTypeReadsBack(v);
    case IcmpFieldOf(v, Code) => IcmpCodeReadsBack(v);
    case TransportField(t) =>
      assert FieldText(f) == match t case TCP => "tcp.dst" case UDP => "udp.dst" case SCTP => "sctp.dst";
    case _ =>
  }

  lemma IcmpFieldIsPlain(v: Version, k: IcmpField)
    ensures ' ' !in FieldText(IcmpFieldOf(v, k)) && '&' !in FieldText(IcmpFieldOf(v, k))
  {
    assert ' ' !in IcmpText(v) && '&' !in IcmpText(v);
  }

  lemma AddressFieldIsPlain(v: Version, d: Direction)
    ensures ' ' !in FieldText(AddressField(v, d)) && '&' !in FieldText(AddressField(v, d))
  {
    assert ' ' !in VersionText(v) && '&' !in VersionText(v);
  }

  lemma FieldIsPlain(f: Field)
    ensures ' ' !in FieldText(f) && '&' !in FieldText(f)
  {
    match f
    case AddressField(v, d) => AddressFieldIsPlain(v, d);
    case IcmpFieldOf(v, k) => IcmpFieldIsPlain(v, k);
    case _ =>
  }

  function BareOf(s: string): Option<Atom> {
    if |s| < 2 then None
    else if s[0] == 't' then Only(s, "tcp", TransportOf(TCP))
    else if s[0] == 'u' then Only(s, "udp", TransportOf(UDP))
    else if s[0] == 's' then Only(s, "sctp", TransportOf(SCTP))
    else if s[1] == 'c' then
      if s[|s| - 1] == '4' then Only(s, "icmp4", IcmpOf(V4)) else Only(s, "icmp6", IcmpOf(V6))
    else if s[|s| - 1] == '4' then Only(s, "ip4", IpOf(V4))
    else if s[|s| - 1] == '6' then Only(s, "ip6", IpOf(V6))
    else Only(s, "ip", AnyIp)
  }

  function CmpOf(s: string): Option<Cmp>
    requires |s| == 2
  {
    if s[0] == '=' then Only(s, "==", Equal)
    else if s[0] == '>' then Only(s, ">=", AtLeast)
    else Only(s, "<=", AtMost)
  }

  /** The group of an address set name, which ends in the version. */
  function GroupOf(text: string, v: Version): Option<string> {
    var suffix := "_" + VersionText(v);
    if |text| >= |suffix| && text[|text| - |suffix|..] == suffix then Some(text[..|text| - |suffix|]) else None
  }

  function ComparisonOf(f: Field, c: Cmp, value: string): Option<Atom> {
    match f
    case PortField(d) =>
      if c == Equal && value != "" && value[0] == '@' then Some(AtPort(d, value[1..])) else None
    case AddressField(v, d) =>
      if c != Equal then None
      else if value != "" && value[0] == '$' then
        if GroupOf(value[1..], v).Some? then Some(RemoteGroup(v, d, GroupOf(value[1..], v).value)) else None
      else Some(RemotePrefix(v, d, value))
    case TransportField(t) =>
      if ParseInt(value).Some? then Some(PortTest(t, c, ParseInt(value).value)) else None
    case IcmpFieldOf(v, k) =>
      if c == Equal && ParseInt(value).Some? then Some(IcmpTest(v, k, ParseInt(value).value)) else None
    case ProtoField =>
      if c == Equal then Some(ProtoTest(value)) else None
  }

  function ParseAtom(s: string): Option<Atom> {
    var i := Find(s, " ", 0);
    if i == |s| then BareOf(s)
    else
      var rest := s[i + 1..];
      if |rest| < 3 || rest[2] != ' ' || FieldOf(s[..i]) == None || CmpOf(rest[..2]) == None then None
      else ComparisonOf(FieldOf(s[..i]).value, CmpOf(rest[..2]).value, rest[3..])
  }

  function ParseAtoms(texts: seq<string>): Option<seq<Atom>> {
    if texts == [] then Some([])
    else if ParseAtom(texts[0]) == None || ParseAtoms(texts[1..]) == None then None
    else Some([ParseAtom(texts[0]).value] + ParseAtoms(texts[1..]).value)
  }

  function ParseMatch(s: string): Option<seq<Atom>> {
    ParseAtoms(Split(s, SEPARATOR))
  }

  // ---------------------------------------------------------------------------------------------
  // Printing and reading back
  // ---------------------------------------------------------------------------------------------

  /** Fragments that came from outside cannot be taken for something else: no '&' in them, and no
      '$' in front of a prefix.  Bare atoms without a version are never printed. */
  predicate Clean(a: Atom) {
    match a
    case AtPort(_, g) => '&' !in g
    case IpOf(v) => v != NoVersion
    case RemotePrefix(_, _, p) => '&' !in p && (p == "" || p[0] != '$')
    case RemoteGroup(_, _, g) => '&' !in g
    case IcmpOf(v) => v != NoVersion
    case ProtoTest(n) => '&' !in n
    case _ => true
  }

  ghost predicate AllClean(atoms: seq<Atom>) {
    forall i :: 0 <= i < |atoms| ==> Clean(atoms[i])
  }

  lemma ThreeParts(field: string, cmp: string, value: string)
    requires ' ' !in field && |cmp| == 2
    ensures var s := field + " " + cmp + " " + value;
            && Find(s, " ", 0) == |field| && |s| >= |field| + 4
            && s[..|field|] == field
            && s[|field| + 1..][..2] == cmp && s[|field| + 1..][2] == ' ' && s[|field| + 1..][3..] == value
  {
    var rest := cmp + " " + value;
    var s := field + " " + rest;
    assert s == field + " " + cmp + " " + value;
    FindAfter(field, " ", rest, 0);
    assert s[|field| + 1..] == rest && s[..|field|] == field;
    assert rest[..2] == cmp && rest[3..] == value;
  }

  lemma ComparisonReadsBack(f: Field, c: Cmp, value: string)
    ensures ParseAtom(Comparison(f, c, value)) == ComparisonOf(f, c, value)
  {
    FieldIsPlain(f);
    FieldReadsBack(f);
    ThreeParts(FieldText(f), CmpText(c), value);
    assert CmpOf(CmpText(c)) == Some(c);
  }

  lemma ComparisonIsPlain(f: Field, c: Cmp, value: string)
    requires '&' !in value
    ensures '&' !in Comparison(f, c, value)
  {
    FieldIsPlain(f);
  }

  lemma GroupReadsBack(group: string, v: Version)
    ensures AddressSetText(group, v)[0] == '$'
    ensures GroupOf(AddressSetText(group, v)[1..], v) == Some(group)
  {
    var suffix := "_" + VersionText(v);
    assert AddressSetText(group, v)[1..] == group + suffix;
    assert (group + suffix)[|group|..] == suffix && (group + suffix)[..|group|] == group;
  }

  lemma BareReadsBack(a: Atom)
    requires Clean(a) && (a.IpOf? || a.AnyIp? || a.TransportOf? || a.IcmpOf?)
    ensures ParseAtom(AtomText(a)) == Some(a)
  {
    var s := AtomText(a);
    assert BareOf(s) == Some(a);
    assert ' ' !in s;
    FindAfter(s, " ", "", 0);
  }

  lemma AtomReadsBack(a: Atom)
    requires Clean(a)
    ensures ParseAtom(AtomText(a)) == Some(a)
  {
    match a
    case AtPort(d, g) =>
      ComparisonReadsBack(PortField(d), Equal, "@" + g);
      assert ("@" + g)[1..] == g;
    case RemotePrefix(v, d, p) => ComparisonReadsBack(AddressField(v, d), Equal, p);
    case RemoteGroup(v, d, g) =>
      ComparisonReadsBack(AddressField(v, d), Equal, AddressSetText(g, v));
      GroupReadsBack(g, v);
    case PortTest(t, c, n) =>
      ComparisonReadsBack(TransportField(t), c, IntText(n));
      ParseIntText(n);
    case IcmpTest(v, k, n) =>
      ComparisonReadsBack(IcmpFieldOf(v, k), Equal, IntText(n));
      ParseIntText(n);
    case ProtoTest(n) => ComparisonReadsBack(ProtoField, Equal, n);
    case _ => BareReadsBack(a);
  }

  lemma TextHasNoAmpersand(a: Atom)
    requires Clean(a)
    ensures '&' !in AtomText(a)
  {
    match a
    case AtPort(d, g) => ComparisonIsPlain(PortField(d), Equal, "@" + g);
    case RemotePrefix(v, d, p) => ComparisonIsPlain(AddressField(v, d), Equal, p);
    case RemoteGroup(v, d, g) => ComparisonIsPlain(AddressField(v, d), Equal, AddressSetText(g, v));
    case PortTest(t, c, n) =>
      ParseIntText(n);
      ComparisonIsPlain(TransportField(t), c, IntText(n));
    case IcmpTest(v, k, n) =>
      ParseIntText(n);
      ComparisonIsPlain(IcmpFieldOf(v, k), Equal, IntText(n));
    case ProtoTest(n) => ComparisonIsPlain(ProtoField, Equal, n);
    case _ =>
  }

  lemma FirstParsed(text: string, rest: seq<string>)
    requires ParseAtom(text).Some? && ParseAtoms(rest).Some?
    ensures ParseAtoms([text] + rest) == Some([ParseAtom(text).value] + ParseAtoms(rest).value)
  {
    hide ParseAtom;
    assert ([text] + rest)[0] == text && ([text] + rest)[1..] == rest;
  }

  lemma {:induction false} AtomsReadBack(atoms: seq<Atom>)
    requires AllClean(atoms)
    ensures ParseAtoms(AtomTexts(atoms)) == Some(atoms)
    decreases |atoms|
  {
    if atoms != [] {
      hide Clean, AtomText, ParseAtom, AtomTexts;
      AtomReadsBack(atoms[0]);
      AtomsReadBack(atoms[1..]);
      assert atoms == [atoms[0]] + atoms[1..];
      AtomTextsAppend([atoms[0]], atoms[1..]);
      AtomTextsOne(atoms[0]);
      FirstParsed(AtomText(atoms[0]), AtomTexts(atoms[1..]));
    }
  }

  /** A match string of clean atoms reads back as exactly those atoms. */
  lemma MatchReadsBack(atoms: seq<Atom>)
    requires atoms != [] && AllClean(atoms)
    ensures ParseMatch(MatchText(atoms)) == Some(atoms)
  {
    MapAt(AtomText, atoms);
    forall i | 0 <= i < |atoms|
      ensures '&' !in AtomTexts(atoms)[i]
    {
      TextHasNoAmpersand(atoms[i]);
    }
    SplitJoin(AtomTexts(atoms), SEPARATOR, 1);
    AtomsReadBack(atoms);
  }

  /** So equal match strings come from equal conjunctions. */
  lemma PrintingIsInjective(a: seq<Atom>, b: seq<Atom>)
    requires a != [] && b != [] && AllClean(a) && AllClean(b)
    ensures MatchText(a) == MatchText(b) <==> a == b
  {
    MatchReadsBack(a);
    MatchReadsBack(b);
  }

  /** Without the restriction on fragments printing is not injective: a prefix can spell two atoms. */
  lemma SeparatorInPrefixConfuses()
    ensures MatchText([RemotePrefix(V4, Ingress, "1 && ip")]) == MatchText([RemotePrefix(V4, Ingress, "1"), AnyIp])
  {
    var a, b := RemotePrefix(V4, Ingress, "1 && ip"), RemotePrefix(V4, Ingress, "1");
    AtomTextsOne(a);
    AtomTextsOne(b);
    AtomTextsOne(AnyIp);
    AtomTextsAppend([b], [AnyIp]);
    assert [b, AnyIp] == [b] + [AnyIp];
    assert [AtomText(b), "ip"][1..] == ["ip"];
    assert AtomText(a) == AtomText(b) + SEPARATOR + "ip";
  }

  // ---------------------------------------------------------------------------------------------
  // Meaning
  // ---------------------------------------------------------------------------------------------

  /** A logical switch port, by its row. */
  type Port = nat

  type Port16 = n: nat | n < 65536

  /** An address together with the version it belongs to. */
  datatype Address = Address(version: Version, value: nat)

  /** `version` is `NoVersion` for a packet that is not IP. */
  datatype Packet = Packet(inport: Port, outport: Port, version: Version, src: Address, dst: Address,
                           proto: nat, dstPort: Port16, icmpType: nat, icmpCode: nat)

  /** What the match of an ACL can refer to: the ports of each port group, the addresses of each port,
      and which addresses a prefix covers. */
  datatype Network = Network(members: map<string, set<Port>>, addresses: map<Port, set<Address>>,
                             covers: (string, Address) -> bool)
  {
    predicate Member(group: string, port: Port) {
      group in members && port in members[group]
    }

    /** OVN keeps the address sets `<group>_ip4` and `<group>_ip6` for every port group. */
    ghost predicate InAddressSet(group: string, v: Version, a: Address) {
      a.version == v && exists port :: Member(group, port) && port in addresses && a in addresses[port]
    }
  }

  function LocalPort(d: Direction, p: Packet): Port {
    if d == Ingress then p.outport else p.inport
  }

  function RemoteAddress(d: Direction, p: Packet): Address {
    if d == Ingress then p.src else p.dst
  }

  function TransportNumber(t: Transport): nat {
    match t
    case TCP => 6
    case UDP => 17
    case SCTP => 132
  }

  /** The ICMP of an IP version: 1 for ICMP, 58 for ICMPv6. */
  function IcmpNumber(v: Version): nat {
    if v == V6 then 58 else 1
  }

  predicate Compares(c: Cmp, a: int, b: int) {
    match c
    case Equal => a == b
    case AtLeast => a >= b
    case AtMost => a <= b
  }

  predicate IsIp(p: Packet) {
    p.version != NoVersion
  }

  predicate IsIcmp(v: Version, p: Packet) {
    IsIp(p) && p.version == v && p.proto == IcmpNumber(v)
  }

  ghost predicate Holds(a: Atom, net: Network, p: Packet) {
    match a
    case AtPort(d, g) => net.Member(g, LocalPort(d, p))
    case IpOf(v) => IsIp(p) && p.version == v
    case AnyIp => IsIp(p)
    case RemotePrefix(v, d, prefix) => IsIp(p) && p.version == v && net.covers(prefix, RemoteAddress(d, p))
    case RemoteGroup(v, d, g) => IsIp(p) && p.version == v && net.InAddressSet(g, v, RemoteAddress(d, p))
    case TransportOf(t) => IsIp(p) && p.proto == TransportNumber(t)
    case PortTest(t, c, n) => IsIp(p) && p.proto == TransportNumber(t) && Compares(c, p.dstPort, n)
    case IcmpOf(v) => IsIcmp(v, p)
    case IcmpTest(v, k, n) => IsIcmp(v, p) && (if k == Type then p.icmpType else p.icmpCode) == n
    case ProtoTest(n) => IsIp(p) && AllDigits(n) && NatValue(n) == p.proto
  }

  ghost predicate AllHold(atoms: seq<Atom>, net: Network, p: Packet) {
    forall i :: 0 <= i < |atoms| ==> Holds(atoms[i], net, p)
  }

  /** A match string admits a packet when all the atoms it spells hold. */
  ghost predicate Selects(text: string, net: Network, p: Packet) {
    ParseMatch(text).Some? && AllHold(ParseMatch(text).value, net, p)
  }
}
