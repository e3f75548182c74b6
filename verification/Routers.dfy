/** Routers, external gateways and fixed addresses: what the network, subnet, port and router calls of
    provider/neutron/neutron_api.py do to the tables, each as one step.  The second result is false when
    the call raises; what it had written by then stays.

    Row ids and generated names are parameters, and so are the addresses OVN has assigned to dynamic
    ports and the order in which a router's ports are listed. */
module Routers {
  import opened Text
  import opened Routes
  import opened RouterTables

  datatype NewPort = NewPort(row: LspRow, name: PortName)

  /** The first of the `fixed_ips` of a port. */
  datatype Fixed = Fixed(subnet: Option<SubnetId>, ip: Option<Ip>)

  /** `external_gateway_info` */
  datatype Gateway = Gateway(ls: LsId, subnet: SubnetId, ip: Ip)

  /** A requested list of routes with the two dictionaries `diff_routes` makes of it. */
  datatype RouteChange = RouteChange(requested: seq<Route>, removed: set<Prefix>, order: seq<Prefix>,
                                     added: map<Prefix, Hop>)

  /** The addresses OVN has assigned to ports with a dynamic address. */
  type Leases = map<LspRow, Ip>

  // ---------------------------------------------------------------------------------------------
  // Addresses
  // ---------------------------------------------------------------------------------------------

  /** `get_port_ip` without a router port */
  function PortIp(p: Lsp, row: LspRow, leases: Leases): Option<Ip> {
    match p.addresses
    case StaticIp(ip) => Some(ip)
    case DynamicIp => if row in leases then Some(leases[row]) else None
    case _ => None
  }

  ghost predicate HasIp(s: Db, row: LspRow, ls: LsId, ip: Ip, leases: Leases) {
    row in s.lsps && s.lsps[row].ls == ls && PortIp(s.lsps[row], row, leases) == Some(ip)
  }

  /** `is_ip_available_in_network` */
  ghost predicate Available(s: Db, ls: LsId, ip: Ip, leases: Leases)
    requires ls in s.switches
  {
    (forall row :: !HasIp(s, row, ls, ip, leases)) && ip !in s.switches[ls]
  }

  /** The addresses `get_update_port_addr_command` gives a port with a MAC, or none when it raises. */
  ghost function NewAddresses(s: Db, ls: LsId, fixed: Option<Fixed>, leases: Leases): Option<Addresses>
    requires ls in s.switches
  {
    var d := SubnetOn(s, ls);
    if fixed.Some? && (d == None || (fixed.value.subnet.Some? && fixed.value.subnet != d)) then None
    else if d == None then Some(MacOnly)
    else if fixed == None || fixed.value.ip == None then Some(DynamicIp)
    else if Available(s, ls, fixed.value.ip.value, leases) then Some(StaticIp(fixed.value.ip.value))
    else None
  }

  // ---------------------------------------------------------------------------------------------
  // Networks and subnets
  // ---------------------------------------------------------------------------------------------

  function WithLsp(s: Db, row: LspRow, p: Lsp): Db {
    s.(lsps := s.lsps[row := p])
  }

  /** `add_network` */
  function NetworkAdded(s: Db, ls: LsId, localnet: Option<NewPort>): (Db, bool) {
    var made := s.(switches := s.switches[ls := []]);
    (if localnet == None then made
     else WithLsp(made, localnet.value.row,
                  Lsp(localnet.value.name, ls, LocalnetPort, None, NoOwner, UnknownAddress)), true)
  }

  ghost predicate OnlyLocalnet(s: Db, ls: LsId) {
    && (forall row :: row in s.lsps && s.lsps[row].ls == ls ==> s.lsps[row].kind == LocalnetPort)
    && (forall a, b :: a in s.lsps && b in s.lsps && s.lsps[a].ls == ls && s.lsps[b].ls == ls ==> a == b)
  }

  /** `delete_network`: ports go with their switch. */
  ghost function NetworkDeleted(s: Db, ls: LsId): (Db, bool) {
    if ls !in s.switches || !OnlyLocalnet(s, ls) then (s, false)
    else (Db(s.switches - {ls}, map row | row in s.lsps && s.lsps[row].ls != ls :: s.lsps[row], s.lrps, s.routers,
             map d | d in s.subnets && s.subnets[d].ls != ls :: s.subnets[d]), true)
  }

  /** `add_subnet` */
  ghost function SubnetAdded(s: Db, d: SubnetId, ls: LsId, v6: bool, gateway: Option<Ip>): (Db, bool) {
    if ls !in s.switches || SubnetOn(s, ls).Some? then (s, false)
    else (s.(subnets := s.subnets[d := Subnet(ls, v6, gateway, None)]), true)
  }

  /** `delete_subnet` */
  function SubnetDeleted(s: Db, d: SubnetId): (Db, bool) {
    if d !in s.subnets || s.subnets[d].gatewayRouter.Some? then (s, false)
    else (s.(subnets := s.subnets - {d}), true)
  }

  // ---------------------------------------------------------------------------------------------
  // Ports
  // ---------------------------------------------------------------------------------------------

  /** `add_port` */
  ghost function PortAdded(s: Db, port: NewPort, ls: LsId, owner: Owner, fixed: Option<Fixed>, leases: Leases): (Db,
                           bool) {
    if ls !in s.switches then (s, false)
    else
      var addresses := NewAddresses(s, ls, fixed, leases);
      var shown := if addresses == None then NoAddresses else addresses.value;
      (WithLsp(s, port.row, Lsp(port.name, ls, PlainPort, None, owner, shown)), addresses.Some?)
  }

  /** The row `update_port` leaves: the owner is written even when the addresses raise. */
  ghost function UpdatedLsp(s: Db, p: Lsp, owner: Option<Owner>, mac: bool, fixed: Option<Fixed>,
                            leases: Leases): (Lsp, bool)
    requires p.ls in s.switches
  {
    var owned := if owner.Some? then p.(owner := owner.value) else p;
    var addresses := NewAddresses(s, p.ls, fixed, leases);
    var subnet := SubnetOn(s, p.ls);
    if !mac && p.addresses == NoAddresses then
      (owned, fixed.Some? ==> subnet.Some? && (fixed.value.subnet == None || fixed.value.subnet == subnet))
    else if addresses == None then (owned, false)
    else (owned.(addresses := addresses.value), true)
  }

  /** `update_port` of a port that is not a router's */
  ghost function PortUpdated(s: Db, ref: PortRef, ls: Option<LsId>, owner: Option<Owner>, mac: bool,
                             fixed: Option<Fixed>, leases: Leases): (Db, bool)
    requires Refers(s)
  {
    var row := LspAt(s, ref);
    if row == None || (ls.Some? && ls.value != s.lsps[row.value].ls) then (s, false)
    else
      var updated := UpdatedLsp(s, s.lsps[row.value], owner, mac, fixed, leases);
      (WithLsp(s, row.value, updated.0), updated.1)
  }

  /** `delete_port` */
  ghost function PortDeleted(s: Db, ref: PortRef): (Db, bool) {
    var row := LspAt(s, ref);
    if row == None || s.lsps[row.value].owner in [InterfaceOwner, GatewayOwner] then (s, false)
    else (s.(lsps := s.lsps - {row.value}), true)
  }

  // ---------------------------------------------------------------------------------------------
  // Attaching and detaching
  // ---------------------------------------------------------------------------------------------

  /** A switch port made a router's, and the router port that goes with it. */
  function Attached(s: Db, row: LspRow, name: PortName, ls: LsId, owner: Owner, l: LrpRow, r: LrId, ip: Ip): Db {
    s.(lsps := s.lsps[row := Lsp(name, ls, RouterPort, Some(RouterPortName(name)), owner, RouterAddress)],
       lrps := s.lrps[l := Lrp(RouterPortName(name), r, ip)])
  }

  function Detached(s: Db, row: LspRow, l: LrpRow): Db {
    s.(lsps := s.lsps - {row}, lrps := s.lrps - {l})
  }

  function WithGatewayRouter(s: Db, d: SubnetId, r: Option<LrId>): Db
    requires d in s.subnets
  {
    s.(subnets := s.subnets[d := s.subnets[d].(gatewayRouter := r)])
  }

  function WithRouter(s: Db, r: LrId, router: Lr): Db {
    s.(routers := s.routers[r := router])
  }

  function WithExclude(s: Db, ls: LsId, exclude: seq<Ip>): Db {
    s.(switches := s.switches[ls := exclude])
  }

  /** `values.remove(ip)`: the first occurrence goes. */
  function RemoveOne(values: seq<Ip>, ip: Ip): seq<Ip> {
    if values == [] then []
    else if values[0] == ip then values[1..]
    else [values[0]] + RemoveOne(values[1..], ip)
  }

  /** `_is_subnet_on_router`, over the ports as they are listed; none when a port has no subnet, which
      raises.  A row id given in place of a subnet's is never found. */
  ghost function Scan(s: Db, order: seq<LrpRow>, target: Option<SubnetId>): Option<bool>
    requires forall i :: 0 <= i < |order| ==> order[i] in s.lrps
    decreases |order|
  {
    if order == [] then Some(false)
    else
      var row := LspOf(s, order[0]);
      if row == None then None
      else
        var d := SubnetOn(s, s.lsps[row.value].ls);
        if d == None then None
        else if d == target then Some(true)
        else Scan(s, order[1..], target)
  }

  /** The ports of a router, as listed. */
  ghost predicate Lists(s: Db, r: LrId, order: seq<LrpRow>) {
    && (forall i :: 0 <= i < |order| ==> order[i] in s.lrps && s.lrps[order[i]].lr == r)
    && (forall l :: l in s.lrps && s.lrps[l].lr == r ==> l in order)
  }

  /** `add_router_interface` by subnet */
  ghost function AttachedBySubnet(s: Db, r: LrId, d: SubnetId, port: NewPort, l: LrpRow, order: seq<LrpRow>): (Db, bool)
    requires Lists(s, r, order)
  {
    if r !in s.routers || d !in s.subnets then (s, false)
    else
      var subnet := s.subnets[d];
      if SubnetOn(s, subnet.ls) != Some(d) || subnet.gatewayRouter.Some? then (s, false)
      else if Scan(s, order, Some(d)) != Some(false) || subnet.gateway == None then (s, false)
      else (WithGatewayRouter(Attached(s, port.row, port.name, subnet.ls, InterfaceOwner, l, r, subnet.gateway.value),
                              d, Some(r)), true)
  }

  /** `add_router_interface` by port */
  ghost function AttachedByPort(s: Db, r: LrId, ref: PortRef, l: LrpRow, order: seq<LrpRow>, leases: Leases): (Db, bool)
    requires Lists(s, r, order)
  {
    var row := LspAt(s, ref);
    if r !in s.routers || row == None then (s, false)
    else
      var p := s.lsps[row.value];
      var ip := PortIp(p, row.value, leases);
      if p.kind == RouterPort || SubnetOn(s, p.ls) == None then (s, false)
      else if Scan(s, order, None) == None || ip == None then (s, false)
      else (Attached(s, row.value, p.name, p.ls, InterfaceOwner, l, r, ip.value), true)
  }

  /** `_remove_lr_gw_port` */
  function GatewayRemoved(s: Db, r: LrId, ls: LsId, ip: Ip): (Db, bool)
    requires r in s.routers && ls in s.switches
  {
    var cleared := WithRouter(s, r, Lr(None, s.routers[r].routes - {DEFAULT_ROUTE4} - {DEFAULT_ROUTE6}));
    if ip in s.switches[ls] then (WithExclude(cleared, ls, RemoveOne(s.switches[ls], ip)), true) else (cleared, false)
  }

  /** What follows the deletion of an interface: the subnet forgets its gateway router, and the router
      its gateway. */
  function CleanedUp(s: Db, r: LrId, d: SubnetId, isGateway: bool, isExternal: bool, ls: LsId, ip: Ip): (Db, bool)
    requires r in s.routers && d in s.subnets && ls in s.switches
  {
    var cleared := if isGateway then WithGatewayRouter(s, d, None) else s;
    if isExternal then GatewayRemoved(cleared, r, ls, ip) else (cleared, true)
  }

  /** `_delete_router_interface_by_port` */
  ghost function DetachedByPort(s: Db, r: LrId, ref: PortRef, order: seq<LrpRow>): (Db, bool)
    requires Lists(s, r, order) && Refers(s)
  {
    var row := LspAt(s, ref);
    if row == None || s.lsps[row.value].routerPort == None then (s, false)
    else
      var p := s.lsps[row.value];
      var d := SubnetOn(s, p.ls);
      var l := LrpAt(s, p.routerPort.value);
      if d == None || l == None || r !in s.routers || Scan(s, order, d) == None ||
         s.lrps[l.value].lr != r then (s, false)
      else
        var ip := s.lrps[l.value].ip;
        var isGateway := Scan(s, order, d).value && s.subnets[d.value].gateway == Some(ip);
        var isExternal := s.routers[r].gatewayPort.Some? && ref == ByName(s.routers[r].gatewayPort.value);
        CleanedUp(Detached(s, row.value, l.value), r, d.value, isGateway, isExternal, p.ls, ip)
  }

  ghost predicate LegOn(s: Db, l: LrpRow, r: LrId, ls: LsId) {
    l in s.lrps && s.lrps[l].lr == r && LspOf(s, l).Some? && s.lsps[LspOf(s, l).value].ls == ls
  }

  ghost function LegPorts(s: Db, r: LrId, ls: LsId): set<LrpRow> {
    set l | l in s.lrps && LegOn(s, l, r, ls)
  }

  ghost function LegRows(s: Db, r: LrId, ls: LsId): set<LspRow> {
    set l | l in s.lrps && LegOn(s, l, r, ls) :: LspOf(s, l).value
  }

  /** `_delete_router_interface_by_subnet`.  The gateway of the router is not cleaned up: the code
      compares a row id with the name it has stored. */
  ghost function DetachedBySubnet(s: Db, r: LrId, d: SubnetId): (Db, bool)
    requires Refers(s)
  {
    if r !in s.routers || d !in s.subnets then (s, false)
    else
      var ls := s.subnets[d].ls;
      var gone := s.(lsps := s.lsps - LegRows(s, r, ls), lrps := s.lrps - LegPorts(s, r, ls));
      (CleanedUp(gone, r, d, s.subnets[d].gatewayRouter == Some(r), false, ls, 0).0, LegPorts(s, r, ls) != {})
  }

  /** `_delete_router_interface_by_subnet_and_port` */
  ghost function DetachedByBoth(s: Db, r: LrId, d: SubnetId, ref: PortRef, order: seq<LrpRow>): (Db, bool)
    requires Lists(s, r, order) && Refers(s)
  {
    var row := LspAt(s, ref);
    if d !in s.subnets || row == None || s.lsps[row.value].ls != s.subnets[d].ls then (s, false)
    else DetachedByPort(s, r, ref, order)
  }

  // ---------------------------------------------------------------------------------------------
  // Routers
  // ---------------------------------------------------------------------------------------------

  /** `_validate_external_gateway`; a network without a subnet raises too. */
  ghost predicate GatewayFits(s: Db, gw: Gateway, leases: Leases)
    requires Refers(s)
  {
    && SubnetOn(s, gw.ls) == Some(gw.subnet) && s.subnets[gw.subnet].gateway.Some?
    && Available(s, gw.ls, gw.ip, leases)
  }

  predicate HasDefault(routes: seq<Route>) {
    exists i :: 0 <= i < |routes| && (routes[i].prefix == DEFAULT_ROUTE4 || routes[i].prefix == DEFAULT_ROUTE6)
  }

  /** `get_default_route` */
  function DefaultRoute(v6: bool): Prefix {
    if v6 then DEFAULT_ROUTE6 else DEFAULT_ROUTE4
  }

  function RoutesAdded(routes: map<Prefix, Hop>, more: seq<Route>): (map<Prefix, Hop>, bool)
    decreases |more|
  {
    if more == [] then (routes, true)
    else if more[0].prefix in routes then (routes, false)
    else RoutesAdded(routes[more[0].prefix := more[0].hop], more[1..])
  }

  /** `_add_external_gateway_to_router`: interface, gateway port of the router, default route */
  ghost function GatewayPlaced(s: Db, r: LrId, gw: Gateway, port: NewPort, l: LrpRow): (Db, bool)
    requires r in s.routers && gw.subnet in s.subnets && s.subnets[gw.subnet].gateway.Some?
  {
    var subnet := s.subnets[gw.subnet];
    var routes := s.routers[r].routes;
    var (routed, ok) := RoutesAdded(routes, [Route(DefaultRoute(subnet.v6), subnet.gateway.value)]);
    (WithRouter(Attached(s, port.row, port.name, gw.ls, GatewayOwner, l, r, gw.ip), r, Lr(Some(port.name), routed)), ok)
  }

  /** The same, with the address reserved first by `_reserve_network_ip` */
  ghost function GatewayAdded(s: Db, r: LrId, gw: Gateway, port: NewPort, l: LrpRow): (Db, bool)
    requires r in s.routers && gw.ls in s.switches && gw.subnet in s.subnets && s.subnets[gw.subnet].gateway.Some?
  {
    GatewayPlaced(WithExclude(s, gw.ls, s.switches[gw.ls] + [gw.ip]), r, gw, port, l)
  }

  /** `add_router` */
  ghost function RouterAdded(s: Db, r: LrId, gw: Option<Gateway>, port: NewPort, l: LrpRow, routes: seq<Route>,
                             leases: Leases): (Db, bool)
    requires Refers(s)
  {
    if gw.Some? && (!GatewayFits(s, gw.value, leases) || HasDefault(routes)) then (s, false)
    else
      var made := WithRouter(s, r, Lr(None, map[]));
      var placed := if gw == None then made else GatewayAdded(made, r, gw.value, port, l).0;
      var (routed, ok) := RoutesAdded(placed.routers[r].routes, routes);
      (WithRouter(placed, r, placed.routers[r].(routes := routed)), ok)
  }

  predicate InAdded(change: RouteChange) {
    forall i :: 0 <= i < |change.order| ==> change.order[i] in change.added
  }

  /** The change is what `diff_routes` makes of the requested list and the routes there are, its additions
      walked in some order. */
  ghost predicate IsDiff(change: RouteChange, routes: map<Prefix, Hop>) {
    && DictOf(change.added, Wanted(change.requested) - Pairs(routes)) && IsOrder(change.order, change.added.Keys)
    && forall p :: p in change.removed <==> p in routes && Route(p, routes[p]) !in Wanted(change.requested)
  }

  function RoutesChanged(routes: map<Prefix, Hop>, change: Option<RouteChange>): (map<Prefix, Hop>, bool)
    requires change.Some? ==> InAdded(change.value)
  {
    if change == None then (routes, true)
    else Reconciled(routes, change.value.removed, change.value.order, change.value.added)
  }

  /** `update_router`.  A router that has a gateway cannot be given another one: the name of the gateway
      port is looked up as a row id, which raises after the routes have been changed. */
  ghost function RouterUpdated(s: Db, r: LrId, gw: Option<Gateway>, port: NewPort, l: LrpRow,
                               change: Option<RouteChange>, leases: Leases): (Db, bool)
    requires Refers(s) && (change.Some? ==> InAdded(change.value))
  {
    if (gw.Some? && !GatewayFits(s, gw.value, leases)) || r !in s.routers then (s, false)
    else if gw.Some? && change.Some? && HasDefault(change.value.requested) then (s, false)
    else
      var routed := RoutesChanged(s.routers[r].routes, change);
      var changed := WithRouter(s, r, s.routers[r].(routes := routed.0));
      if !routed.1 || gw == None then (changed, routed.1)
      else if s.routers[r].gatewayPort.Some? then (changed, false)
      else GatewayAdded(changed, r, gw.value, port, l)
  }

  ghost predicate HasNoPorts(s: Db, r: LrId) {
    forall l :: l in s.lrps ==> s.lrps[l].lr != r
  }

  /** `delete_router` */
  ghost function RouterDeleted(s: Db, r: LrId, order: seq<LrpRow>): (Db, bool)
    requires Lists(s, r, order) && Refers(s)
  {
    if r !in s.routers then (s, false)
    else
      var (freed, ok) :=
        if s.routers[r].gatewayPort == None then (s, true)
        else DetachedByPort(s, r, ByName(s.routers[r].gatewayPort.value), order);
      if !ok || !HasNoPorts(freed, r) then (freed, false)
      else (freed.(routers := freed.routers - {r}), true)
  }
}
