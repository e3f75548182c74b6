/** The Logical_Switch, Logical_Switch_Port, Logical_Router, Logical_Router_Port and DHCP_Options tables
    of the OVN northbound database, as far as routers, gateways and fixed addresses use them.

    A switch port is found by its row id or by its name; the two are never confused.  A router port is
    tied to its switch port by name only.  Addresses are canonical values. */
module RouterTables {
  import opened Text
  import opened Routes

  type LsId = nat
  type LspRow = nat
  type LrpRow = nat
  type LrId = nat
  type SubnetId = nat
  type PortName = string
  type Ip = Hop

  datatype Kind = PlainPort | LocalnetPort | RouterPort

  /** `ovirt_device_owner`; the last two are those of a router interface and a router gateway. */
  datatype Owner = NoOwner | OtherOwner | InterfaceOwner | GatewayOwner

  /** The `addresses` column: none, a MAC alone, a MAC with `dynamic` or with an address, `unknown` of a
      localnet port, `router` of a router's. */
  datatype Addresses = NoAddresses | MacOnly | DynamicIp | StaticIp(ip: Ip) | UnknownAddress | RouterAddress

  datatype Lsp = Lsp(name: PortName, ls: LsId, kind: Kind, routerPort: Option<string>, owner: Owner,
                     addresses: Addresses)

  datatype Lrp = Lrp(name: string, lr: LrId, ip: Ip)

  datatype Lr = Lr(gatewayPort: Option<PortName>, routes: map<Prefix, Hop>)

  /** A subnet and the switch it is for; `gatewayRouter` is the router it is attached to by subnet. */
  datatype Subnet = Subnet(ls: LsId, v6: bool, gateway: Option<Ip>, gatewayRouter: Option<LrId>)

  /** `switches` holds the `exclude_ips` of each switch. */
  datatype Db = Db(switches: map<LsId, seq<Ip>>, lsps: map<LspRow, Lsp>, lrps: map<LrpRow, Lrp>,
                   routers: map<LrId, Lr>, subnets: map<SubnetId, Subnet>)

  datatype PortRef = ByRow(row: LspRow) | ByName(name: PortName)

  // ---------------------------------------------------------------------------------------------
  // Lookups
  // ---------------------------------------------------------------------------------------------

  /** `_create_router_port_name` */
  function RouterPortName(n: PortName): string {
    "lrp" + n
  }

  ghost predicate Named(s: Db, row: LspRow, n: PortName) {
    row in s.lsps && s.lsps[row].name == n
  }

  ghost predicate LrpNamed(s: Db, l: LrpRow, n: string) {
    l in s.lrps && s.lrps[l].name == n
  }

  ghost predicate SubnetIsOn(s: Db, d: SubnetId, ls: LsId) {
    d in s.subnets && s.subnets[d].ls == ls
  }

  /** `lsp_get` */
  ghost function LspAt(s: Db, ref: PortRef): Option<LspRow> {
    match ref
    case ByRow(row) => if row in s.lsps then Some(row) else None
    case ByName(n) => if exists row :: Named(s, row, n) then var row :| Named(s, row, n); Some(row) else None
  }

  /** The lookup of a router port by name */
  ghost function LrpAt(s: Db, n: string): Option<LrpRow> {
    if exists l :: LrpNamed(s, l, n) then var l :| LrpNamed(s, l, n); Some(l) else None
  }

  /** `get_dhcp(ls_id=...)` */
  ghost function SubnetOn(s: Db, ls: LsId): Option<SubnetId> {
    if exists d :: SubnetIsOn(s, d, ls) then var d :| SubnetIsOn(s, d, ls); Some(d) else None
  }

  /** `get_lsp(lrp=...)`: the name of the router port without its prefix. */
  ghost function LspOf(s: Db, l: LrpRow): Option<LspRow>
    requires l in s.lrps
  {
    if |s.lrps[l].name| < 3 then None else LspAt(s, ByName(s.lrps[l].name[3..]))
  }

  // ---------------------------------------------------------------------------------------------
  // Pairing
  // ---------------------------------------------------------------------------------------------

  /** The router port `l` and the router switch port `row` belong together. */
  ghost predicate Pair(s: Db, l: LrpRow, row: LspRow) {
    && l in s.lrps && row in s.lsps && s.lsps[row].kind == RouterPort
    && s.lrps[l].name == RouterPortName(s.lsps[row].name) && s.lsps[row].routerPort == Some(s.lrps[l].name)
  }

  ghost predicate HasLsp(s: Db, l: LrpRow) {
    exists row :: Pair(s, l, row)
  }

  ghost predicate HasLrp(s: Db, row: LspRow) {
    exists l :: Pair(s, l, row)
  }

  ghost predicate Unique(s: Db) {
    && (forall a, b :: a in s.lsps && b in s.lsps && s.lsps[a].name == s.lsps[b].name ==> a == b)
    && (forall a, b :: a in s.lrps && b in s.lrps && s.lrps[a].name == s.lrps[b].name ==> a == b)
    && (forall a, b :: a in s.subnets && b in s.subnets && s.subnets[a].ls == s.subnets[b].ls ==> a == b)
  }

  ghost predicate Refers(s: Db) {
    && (forall row :: row in s.lsps ==> s.lsps[row].ls in s.switches)
    && (forall l :: l in s.lrps ==> s.lrps[l].lr in s.routers)
    && (forall d :: d in s.subnets ==> s.subnets[d].ls in s.switches)
  }

  /** Every router port has its switch port, and the other way round; what is not a router's carries
      no router port. */
  ghost predicate Paired(s: Db) {
    && (forall l :: l in s.lrps ==> HasLsp(s, l))
    && (forall row :: row in s.lsps && s.lsps[row].kind == RouterPort ==>
          HasLrp(s, row) && s.lsps[row].owner in [InterfaceOwner, GatewayOwner])
    && (forall row :: row in s.lsps && s.lsps[row].kind != RouterPort ==> s.lsps[row].routerPort == None)
  }

  ghost predicate Sound(s: Db) {
    Unique(s) && Refers(s) && Paired(s)
  }

  // ---------------------------------------------------------------------------------------------
  // Lookups agree
  // ---------------------------------------------------------------------------------------------

  lemma NameReadsBack(n: PortName)
    ensures |RouterPortName(n)| >= 3 && RouterPortName(n)[3..] == n
  {
  }

  lemma NamesAreInjective(m: PortName, n: PortName)
    ensures RouterPortName(m) == RouterPortName(n) ==> m == n
  {
    NameReadsBack(m);
    NameReadsBack(n);
  }

  lemma FoundByName(s: Db, row: LspRow)
    requires Unique(s) && row in s.lsps
    ensures LspAt(s, ByName(s.lsps[row].name)) == Some(row)
  {
    assert Named(s, row, s.lsps[row].name);
  }

  lemma FoundLrp(s: Db, l: LrpRow)
    requires Unique(s) && l in s.lrps
    ensures LrpAt(s, s.lrps[l].name) == Some(l)
  {
    assert LrpNamed(s, l, s.lrps[l].name);
  }

  lemma FoundSubnet(s: Db, d: SubnetId)
    requires Unique(s) && d in s.subnets
    ensures SubnetOn(s, s.subnets[d].ls) == Some(d)
  {
    assert SubnetIsOn(s, d, s.subnets[d].ls);
  }

  /** From a router port to its switch port and back, by name. */
  lemma PairFound(s: Db, l: LrpRow, row: LspRow)
    requires Unique(s) && Pair(s, l, row)
    ensures LspOf(s, l) == Some(row) && LrpAt(s, s.lsps[row].routerPort.value) == Some(l)
  {
    hide RouterPortName;
    NameReadsBack(s.lsps[row].name);
    FoundByName(s, row);
    FoundLrp(s, l);
  }

  /** A switch port has one router port, and a router port one switch port. */
  lemma PairIsUnique(s: Db, l: LrpRow, row: LspRow, k: LrpRow, other: LspRow)
    requires Unique(s) && Pair(s, l, row) && Pair(s, k, other)
    ensures l == k <==> row == other
  {
    NamesAreInjective(s.lsps[row].name, s.lsps[other].name);
  }
}
