/** Subnets through the API and back: SubnetMapper in provider/neutron/neutron_api_mappers.py and
    add_subnet in provider/neutron/neutron_api.py.

    A DHCP_Options row holds a cidr and two string maps.  What goes into `options` depends on the
    version of the cidr, what goes into `external_ids` on the version the caller states, and what is
    read depends on the version stored. */
module Subnets {
  import opened Text

  /** A prefix with its text; parsing it belongs to netaddr. */
  datatype Cidr = Cidr(text: string, v6: bool, length: nat)

  datatype Address = Address(text: string, v6: bool)

  /** A POST body.  `version` and `mode` are absent when their key is missing. */
  datatype Body = Body(name: string, cidr: Cidr, network: string, gateway: Option<Address>, dnses: seq<string>,
                       version: Option<int>, mode: Option<string>, enableDhcp: Option<bool>)

  /** The configuration of the provider, and the MTU of the network. */
  datatype Config = Config(defaultMode: string, mtu: Option<string>, serverMac: string, leaseTime: string)

  datatype Row = Row(cidr: string, options: map<string, string>, externalIds: map<string, string>)

  /** What `get_subnet` returns of the row; `version` is a number again. */
  datatype Shown = Shown(cidr: string, network: string, version: int, gateway: Option<string>, dnses: seq<string>,
                         name: Option<string>, mode: Option<string>)

  const STATEFUL := "dhcpv6-stateful"
  const STATELESS := "dhcpv6-stateless"
  const OVN_STATEFUL := "dhcpv6_stateful"
  const OVN_STATELESS := "dhcpv6_stateless"

  const NETWORK_ID := "ovirt_network_id"
  const IP_VERSION := "ip_version"
  const NAME := "ovirt_name"
  const MODE := "ovirt_ipv6_address_mode"
  const ROUTER := "router"
  const DNS_SERVER := "dns_server"
  const MTU := "mtu"
  const SERVER_ID := "server_id"
  const SERVER_MAC := "server_mac"
  const LEASE_TIME := "lease_time"
  const OPTION_STATELESS := "dhcpv6_stateless"

  // ---------------------------------------------------------------------------------------------
  // Address modes
  // ---------------------------------------------------------------------------------------------

  /** `ovn_ipv6_address_mode`: both spellings are taken. */
  function OvnMode(mode: string): Option<string> {
    if mode == STATEFUL || mode == OVN_STATEFUL then Some(OVN_STATEFUL)
    else if mode == STATELESS || mode == OVN_STATELESS then Some(OVN_STATELESS)
    else None
  }

  /** `rest_ipv6_address_mode` */
  function RestMode(mode: string): Option<string> {
    if mode == OVN_STATEFUL then Some(STATEFUL)
    else if mode == OVN_STATELESS then Some(STATELESS)
    else None
  }

  /** The spelling of the API, whichever was used. */
  function Normalised(mode: string): Option<string> {
    if mode == STATEFUL || mode == OVN_STATEFUL then Some(STATEFUL)
    else if mode == STATELESS || mode == OVN_STATELESS then Some(STATELESS)
    else None
  }

  /** The mode in force: the given one, or the configured one for IPv6. */
  function ModeInForce(b: Body, config: Config): Option<string> {
    if b.mode.Some? then b.mode else if b.version == Some(6) then Some(config.defaultMode) else None
  }

  // ---------------------------------------------------------------------------------------------
  // Validation
  // ---------------------------------------------------------------------------------------------

  function VersionOf(v6: bool): int {
    if v6 then 6 else 4
  }

  /** `validate_add_rest_input` */
  predicate Validated(b: Body, config: Config) {
    && b.enableDhcp != Some(false)
    && (b.mode.Some? ==> OvnMode(b.mode.value).Some?)
    && b.version.Some?
    && (b.version.value != 6 ==> b.mode == None)
    && (b.version.value == 4 || b.version.value == 6)
    && b.version.value == VersionOf(b.cidr.v6)
    && (GatewayText(b).Some? ==> b.version.value == VersionOf(b.gateway.value.v6))
    && (b.version.value == 6 && ModeInForce(b, config) != Some(STATEFUL) ==> b.cidr.length == 64)
  }

  // ---------------------------------------------------------------------------------------------
  // Writing and reading
  // ---------------------------------------------------------------------------------------------

  function Put(m: map<string, string>, key: string, value: Option<string>): map<string, string> {
    if value.Some? then m[key := value.value] else m
  }

  function FirstDns(b: Body): Option<string> {
    if b.dnses != [] && b.dnses[0] != "" then Some(b.dnses[0]) else None
  }

  function GatewayText(b: Body): Option<string> {
    if b.gateway.Some? && b.gateway.value.text != "" then Some(b.gateway.value.text) else None
  }

  /** The text before the '/' of a cidr */
  function BeforeSlash(text: string): string {
    if text == "" || text[0] == '/' then "" else [text[0]] + BeforeSlash(text[1..])
  }

  /** `get_subnet_options`: it looks at the version of the cidr. */
  function SubnetOptions(b: Body, mode: Option<string>, config: Config): map<string, string> {
    var options :=
      if !b.cidr.v6 then
        Put(Put(map[SERVER_ID := BeforeSlash(b.cidr.text), SERVER_MAC := config.serverMac,
                    LEASE_TIME := config.leaseTime],
                ROUTER, GatewayText(b)), MTU, config.mtu)
      else if mode == Some(STATELESS) then map[SERVER_ID := config.serverMac, OPTION_STATELESS := "true"]
      else map[SERVER_ID := config.serverMac];
    Put(options, DNS_SERVER, FirstDns(b))
  }

  /** `get_subnet_external_ids`: it looks at the stated version.  A mode without an MTU cannot be stored. */
  function SubnetExternalIds(b: Body, version: int, mode: Option<string>, config: Config): Option<map<string, string>> {
    if mode.Some? && config.mtu == None then None
    else
      var named := Put(map[NETWORK_ID := b.network, IP_VERSION := IntText(version)], NAME,
                       if b.name != "" then Some(b.name) else None);
      var moded := if mode.Some? then Put(Put(named, MODE, mode), MTU, config.mtu) else named;
      Some(if version == 6 then Put(moded, ROUTER, GatewayText(b)) else moded)
  }

  /** `rest2row` and the row `add_subnet` makes, or none when it raises. */
  function Created(b: Body, config: Config): Option<Row>
    requires b.version.Some?
  {
    var mode := if ModeInForce(b, config) == None then None else OvnMode(ModeInForce(b, config).value);
    var ids := SubnetExternalIds(b, b.version.value, mode, config);
    if ids == None then None else Some(Row(b.cidr.text, SubnetOptions(b, mode, config), ids.value))
  }

  function Get(m: map<string, string>, key: string): Option<string> {
    if key in m then Some(m[key]) else None
  }

  /** `row2rest`; none when a stored value cannot be read. */
  function Read(row: Row): Option<Shown> {
    var version := if IP_VERSION in row.externalIds then ParseInt(row.externalIds[IP_VERSION]) else Some(4);
    var mode := Get(row.externalIds, MODE);
    if NETWORK_ID !in row.externalIds || version == None || (mode.Some? && RestMode(mode.value) == None) then None
    else Some(Shown(row.cidr, row.externalIds[NETWORK_ID], version.value,
                    Get(if version.value == 4 then row.options else row.externalIds, ROUTER),
                    if DNS_SERVER in row.options then [row.options[DNS_SERVER]] else [],
                    Get(row.externalIds, NAME),
                    if mode == None then None else RestMode(mode.value)))
  }

  // ---------------------------------------------------------------------------------------------
  // Round trip
  // ---------------------------------------------------------------------------------------------

  /** Reading back what a body made, whether or not it was validated. */
  lemma ReadsBack(b: Body, config: Config)
    requires b.version.Some? && Created(b, config).Some?
    ensures var shown := Read(Created(b, config).value);
            && shown.Some? && shown.value.cidr == b.cidr.text && shown.value.network == b.network
            && shown.value.version == b.version.value
            && shown.value.dnses == (if FirstDns(b) == None then [] else [FirstDns(b).value])
            && shown.value.name == (if b.name == "" then None else Some(b.name))
            && shown.value.mode ==
               (if ModeInForce(b, config) == None then None else Normalised(ModeInForce(b, config).value))
            && shown.value.gateway == (if b.version.value == 4 && b.cidr.v6 then None
                                       else if b.version.value == 4 || b.version.value == 6 then GatewayText(b)
                                       else None)
  {
    hide BeforeSlash, IntText, ParseInt;
    ParseIntText(b.version.value);
  }

  /** What a validated body says of a subnet is what is read of the subnet made from it. */
  lemma SubnetRoundTrip(b: Body, config: Config)
    requires Validated(b, config) && Created(b, config).Some?
    ensures Read(Created(b, config).value) ==
            Some(Shown(b.cidr.text, b.network, b.version.value, GatewayText(b),
                       if FirstDns(b) == None then [] else [FirstDns(b).value],
                       if b.name == "" then None else Some(b.name),
                       if ModeInForce(b, config) == None then None else Normalised(ModeInForce(b, config).value)))
  {
    hide Created, Read;
    ReadsBack(b, config);
  }

  /** For that the version check is needed: a gateway reads back unless an IPv6 prefix goes as version 4. */
  lemma GatewayReadsBackIff(b: Body, config: Config)
    requires b.version == Some(4) || b.version == Some(6)
    requires GatewayText(b).Some? && Created(b, config).Some?
    ensures Read(Created(b, config).value).Some?
    ensures Read(Created(b, config).value).value.gateway == GatewayText(b) <==> !(b.version == Some(4) && b.cidr.v6)
  {
    hide Created, Read;
    ReadsBack(b, config);
  }

  /** An IPv6 prefix with a gateway, posted as version 4 */
  const MISMATCHED: Body :=
    Body("", Cidr("fc00::/64", true, 64), "network", Some(Address("fc00::1", true)), [], Some(4), None, None)

  /** It is refused by validation; stored without it, the gateway is nowhere to be read. */
  lemma MismatchLosesGateway(config: Config)
    ensures !Validated(MISMATCHED, config) && GatewayText(MISMATCHED) == Some("fc00::1")
    ensures var row := Created(MISMATCHED, config);
            && row.Some? && ROUTER !in row.value.options && ROUTER !in row.value.externalIds
            && Read(row.value).Some? && Read(row.value).value.gateway == None
  {
    KeysDiffer();
    assert Created(MISMATCHED, config).Some? by {
      hide BeforeSlash, IntText;
    }
    GatewayReadsBackIff(MISMATCHED, config);
    ReadsBack(MISMATCHED, config);
    hide BeforeSlash, IntText, Read;
  }

  lemma KeysDiffer()
    ensures ROUTER !in {NETWORK_ID, IP_VERSION, NAME, MODE, MTU, SERVER_ID, DNS_SERVER, OPTION_STATELESS}
  {
    assert |ROUTER| == 6 && |NETWORK_ID| == 16 && |IP_VERSION| == 10 && |NAME| == 10 && |MODE| == 23 && |MTU| == 3;
    assert |SERVER_ID| == 9 && |DNS_SERVER| == 10 && |OPTION_STATELESS| == 16;
  }

  /** A validated body fails to be stored only for want of an MTU to store with an IPv6 mode. */
  lemma CreationFailsIff(b: Body, config: Config)
    requires Validated(b, config)
    ensures Created(b, config) == None <==>
            b.version == Some(6) && config.mtu == None && (b.mode.Some? || Normalised(config.defaultMode).Some?)
  {
    hide BeforeSlash, IntText;
  }

  // ---------------------------------------------------------------------------------------------
  // What OVN is told
  // ---------------------------------------------------------------------------------------------

  lemma {:induction false} BeforeSlashIs(address: string, rest: string)
    requires '/' !in address
    ensures BeforeSlash(address + "/" + rest) == address
    decreases |address|
  {
    var text := address + "/" + rest;
    if address == "" {
      assert text[0] == '/';
    } else {
      assert text[1..] == address[1..] + "/" + rest;
      BeforeSlashIs(address[1..], rest);
    }
  }

  function DnsAsked(b: Body): Option<string> {
    if b.dnses == [] || b.dnses[0] == "" then None else Some(b.dnses[0])
  }

  function GatewayAsked(b: Body): Option<string> {
    if b.gateway == None || b.gateway.value.text == "" then None else Some(b.gateway.value.text)
  }

  /** The options of an IPv4 subnet: the address of its prefix serves, under the configured MAC and lease
      time; gateway, MTU and name server are there when they are given. */
  lemma Ipv4OptionsAre(b: Body, config: Config, address: string, rest: string)
    requires b.version.Some? && Created(b, config).Some? && !b.cidr.v6
    requires b.cidr.text == address + "/" + rest && '/' !in address
    ensures var o := Created(b, config).value.options;
            && Get(o, "server_id") == Some(address) && Get(o, "server_mac") == Some(config.serverMac)
            && Get(o, "lease_time") == Some(config.leaseTime) && Get(o, "router") == GatewayAsked(b)
            && Get(o, "mtu") == config.mtu && Get(o, "dns_server") == DnsAsked(b)
            && o.Keys <= {"server_id", "server_mac", "lease_time", "router", "mtu", "dns_server"}
  {
    BeforeSlashIs(address, rest);
    OptionKeysDiffer();
    hide BeforeSlash, SubnetExternalIds, OvnMode, ModeInForce;
  }

  lemma OptionKeysDiffer()
    ensures SERVER_ID != SERVER_MAC && SERVER_ID != LEASE_TIME && SERVER_MAC != LEASE_TIME && SERVER_MAC != DNS_SERVER
    ensures ROUTER !in [SERVER_ID, SERVER_MAC, LEASE_TIME, MTU, DNS_SERVER]
    ensures MTU !in [SERVER_ID, SERVER_MAC, LEASE_TIME, DNS_SERVER]
    ensures DNS_SERVER !in [SERVER_ID, LEASE_TIME]
  {
    assert |SERVER_ID| == 9 && |SERVER_MAC| == 10 && |LEASE_TIME| == 10 && |ROUTER| == 6 && |MTU| == 3;
    assert |DNS_SERVER| == 10 && SERVER_MAC[0] == 's' && LEASE_TIME[0] == 'l' && DNS_SERVER[0] == 'd';
  }

  /** The options of an IPv6 subnet: the configured MAC serves, and there is a name server when one is given.
      Nothing says that the subnet is stateless, whichever mode it has: the code looks for the API's spelling
      where the database's is. */
  lemma Ipv6OptionsAre(b: Body, config: Config)
    requires b.version.Some? && Created(b, config).Some? && b.cidr.v6
    ensures var o := Created(b, config).value.options;
            && Get(o, "server_id") == Some(config.serverMac) && Get(o, "dns_server") == DnsAsked(b)
            && o.Keys <= {"server_id", "dns_server"} && "dhcpv6_stateless" !in o
  {
    OvnModesAreNotApi();
    assert |SERVER_ID| == 9 && |DNS_SERVER| == 10 && |OPTION_STATELESS| == 16;
    hide SubnetExternalIds, OvnMode;
  }

  lemma OvnModesAreNotApi()
    ensures forall mode :: OvnMode(mode) != Some(STATELESS)
  {
    assert STATELESS[6] == '-' && OVN_STATELESS[6] == '_' && OVN_STATEFUL[6] == '_';
  }

  /** The mode is stored in the database's spelling, and the MTU with it; a body without a mode stores neither. */
  lemma ModeIsStored(b: Body, config: Config)
    requires b.version.Some? && Created(b, config).Some?
    ensures var ids := Created(b, config).value.externalIds;
            var mode := if b.mode.Some? then b.mode
                        else if b.version.value == 6 then Some(config.defaultMode) else None;
            && Get(ids, "ovirt_ipv6_address_mode") ==
               (if mode in [Some("dhcpv6-stateful"), Some("dhcpv6_stateful")] then Some("dhcpv6_stateful")
                else if mode in [Some("dhcpv6-stateless"), Some("dhcpv6_stateless")] then Some("dhcpv6_stateless")
                else None)
            && Get(ids, "mtu") == (if Get(ids, "ovirt_ipv6_address_mode") == None then None else config.mtu)
  {
  }

  // ---------------------------------------------------------------------------------------------
  // What validation lets through
  // ---------------------------------------------------------------------------------------------

  /** A body is valid exactly when DHCP is not turned off, prefix and gateway are of the version stated, a mode
      goes with IPv6 only and is spelled in one of four ways, and an IPv6 prefix has length 64 unless the mode
      is stateful in the spelling of the API. */
  lemma ValidatedIff(b: Body, config: Config)
    ensures Validated(b, config) <==>
            && b.enableDhcp != Some(false) && b.version == Some(if b.cidr.v6 then 6 else 4)
            && (GatewayAsked(b).Some? ==> b.gateway.value.v6 == b.cidr.v6)
            && (b.mode.Some? ==>
                  && b.cidr.v6
                  && b.mode.value in ["dhcpv6-stateful", "dhcpv6_stateful", "dhcpv6-stateless", "dhcpv6_stateless"])
            && (b.cidr.v6 && b.cidr.length != 64 ==>
                  "dhcpv6-stateful" == if b.mode.Some? then b.mode.value else config.defaultMode)
  {
  }

  /** The two spellings of the stateful mode are stored alike, but one of them is refused for a prefix that is
      not of length 64. */
  lemma SpellingDecides(b: Body, config: Config)
    requires b.enableDhcp != Some(false) && b.version == Some(6) && b.cidr.v6
    requires GatewayAsked(b).Some? ==> b.gateway.value.v6
    ensures var api, own := b.(mode := Some("dhcpv6-stateful")), b.(mode := Some("dhcpv6_stateful"));
            && Created(api, config) == Created(own, config)
            && Validated(api, config) && (Validated(own, config) <==> b.cidr.length == 64)
  {
    assert OVN_STATEFUL[6] == '_' && STATEFUL[6] == '-';
    hide BeforeSlash;
  }
}
