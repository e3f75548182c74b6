/** The network, subnet, port and router calls as provider/neutron/neutron_api.py makes them, write by
    write.  Every method is proved to do to the tables what Routers describes as one step. */
module RouterApi {
  import opened Text
  import opened Routes
  import opened RouterTables
  import opened Routers
  import opened RouterPairing
  import opened RouterRuns

  class RouterApi {
    var db: Db

    constructor (s: Db)
      ensures db == s
    {
      db := s;
    }

    // -------------------------------------------------------------------------------------------
    // Lookups
    // -------------------------------------------------------------------------------------------

    /** `get_lsp` */
    method GetLsp(ref: PortRef) returns (row: Option<LspRow>)
      requires Unique(db)
      ensures row == LspAt(db, ref)
    {
      match ref {
        case ByRow(r) => return if r in db.lsps then Some(r) else None;
        case ByName(n) =>
          if exists r :: r in db.lsps && db.lsps[r].name == n {
            var r :| r in db.lsps && db.lsps[r].name == n;
            FoundByName(db, r);
            return Some(r);
          }
          assert forall r :: !Named(db, r, n);
          return None;
      }
    }

    /** `get_lrp(lrp_name=...)` */
    method GetLrp(n: string) returns (l: Option<LrpRow>)
      requires Unique(db)
      ensures l == LrpAt(db, n)
    {
      if exists k :: k in db.lrps && db.lrps[k].name == n {
        var k :| k in db.lrps && db.lrps[k].name == n;
        FoundLrp(db, k);
        return Some(k);
      }
      assert forall k :: !LrpNamed(db, k, n);
      return None;
    }

    /** `get_dhcp(ls_id=...)`: the first subnet of the network in the list. */
    method GetDhcpOfNetwork(ls: LsId) returns (d: Option<SubnetId>)
      requires Unique(db)
      ensures d == SubnetOn(db, ls)
    {
      var todo := db.subnets.Keys;
      while todo != {}
        invariant todo <= db.subnets.Keys
        invariant forall e :: e in db.subnets && e !in todo ==> db.subnets[e].ls != ls
        decreases |todo|
      {
        var e :| e in todo;
        if db.subnets[e].ls == ls {
          FoundSubnet(db, e);
          return Some(e);
        }
        todo := todo - {e};
      }
      assert forall e :: !SubnetIsOn(db, e, ls);
      return None;
    }

    /** `get_dhcp(lsp_id=...)`: every subnet's network is looked through for the port. */
    method GetDhcpOfPort(row: LspRow) returns (d: Option<SubnetId>)
      requires Unique(db) && Refers(db) && row in db.lsps
      ensures d == SubnetOn(db, db.lsps[row].ls)
    {
      var todo := db.subnets.Keys;
      while todo != {}
        invariant todo <= db.subnets.Keys
        invariant forall e :: e in db.subnets && e !in todo ==> db.subnets[e].ls != db.lsps[row].ls
        decreases |todo|
      {
        var e :| e in todo;
        var ports := set o | o in db.lsps && db.lsps[o].ls == db.subnets[e].ls;
        if row in ports {
          FoundSubnet(db, e);
          return Some(e);
        }
        todo := todo - {e};
      }
      assert forall e :: !SubnetIsOn(db, e, db.lsps[row].ls);
      return None;
    }

    /** `get_lsp(lrp=...)` */
    method GetLspOfLrp(l: LrpRow) returns (row: Option<LspRow>)
      requires Unique(db) && l in db.lrps
      ensures row == LspOf(db, l)
    {
      var name := db.lrps[l].name;
      if |name| < 3 {
        return None;
      }
      row := GetLsp(ByName(name[3..]));
    }

    /** `is_ip_available_in_network`: the ports first, then the excluded addresses. */
    method IsIpAvailable(ls: LsId, ip: Ip, leases: Leases) returns (free: bool)
      requires ls in db.switches
      ensures free <==> Available(db, ls, ip, leases)
    {
      var todo: set<LspRow> := set row: LspRow | row in db.lsps && db.lsps[row].ls == ls;
      while todo != {}
        invariant forall row :: row in todo ==> row in db.lsps
        invariant forall row :: row !in todo ==> !HasIp(db, row, ls, ip, leases)
        decreases |todo|
      {
        var row :| row in todo;
        if PortIp(db.lsps[row], row, leases) == Some(ip) && db.lsps[row].ls == ls {
          assert HasIp(db, row, ls, ip, leases);
          return false;
        }
        todo := todo - {row};
      }
      return ip !in db.switches[ls];
    }

    /** `_is_subnet_on_router`; none when the subnet of a port is missing, which raises. */
    method IsSubnetOnRouter(order: seq<LrpRow>, target: Option<SubnetId>) returns (found: Option<bool>)
      requires Unique(db) && Refers(db) && forall i :: 0 <= i < |order| ==> order[i] in db.lrps
      ensures found == Scan(db, order, target)
    {
      hide SubnetOn, LspOf, Unique, Refers;
      var i := 0;
      assert order[0..] == order;
      while i < |order|
        invariant 0 <= i <= |order| && Scan(db, order, target) == Scan(db, order[i..], target)
      {
        assert order[i..][0] == order[i] && order[i..][1..] == order[i + 1..];
        var row := GetLspOfLrp(order[i]);
        if row == None {
          return None;
        }
        assert row.value in db.lsps by { LspOfIsThere(db, order[i]); }
        var d := GetDhcpOfPort(row.value);
        if d == None {
          return None;
        }
        if d == target {
          return Some(true);
        }
        i := i + 1;
      }
      return Some(false);
    }

    // -------------------------------------------------------------------------------------------
    // Subnets, ports
    // -------------------------------------------------------------------------------------------

    /** `add_network`, with a localnet port when there is a physical network */
    method AddNetwork(ls: LsId, localnet: Option<NewPort>) returns (ok: bool)
      modifies this
      ensures (db, ok) == NetworkAdded(old(db), ls, localnet)
    {
      db := db.(switches := db.switches[ls := []]);
      if localnet.Some? {
        var port := localnet.value;
        db := db.(lsps := db.lsps[port.row := Lsp(port.name, ls, PlainPort, None, NoOwner, NoAddresses)]);
        db := db.(lsps := db.lsps[port.row := db.lsps[port.row].(kind := LocalnetPort, addresses := UnknownAddress)]);
        assert db.lsps == old(db).lsps[port.row := db.lsps[port.row]];
      }
      return true;
    }

    /** `add_subnet` */
    method AddSubnet(d: SubnetId, ls: LsId, v6: bool, gateway: Option<Ip>) returns (ok: bool)
      requires Unique(db)
      modifies this
      ensures (db, ok) == SubnetAdded(old(db), d, ls, v6, gateway)
    {
      if ls !in db.switches {
        return false;
      }
      var existing := GetDhcpOfNetwork(ls);
      if existing.Some? {
        return false;
      }
      db := db.(subnets := db.subnets[d := Subnet(ls, v6, gateway, None)]);
      return true;
    }

    /** `delete_subnet` */
    method DeleteSubnet(d: SubnetId) returns (ok: bool)
      modifies this
      ensures (db, ok) == SubnetDeleted(old(db), d)
    {
      if d !in db.subnets || db.subnets[d].gatewayRouter.Some? {
        return false;
      }
      db := db.(subnets := db.subnets - {d});
      return true;
    }

    /** `delete_network`: refused while it has ports other than its one localnet port. */
    method DeleteNetwork(ls: LsId) returns (ok: bool)
      modifies this
      ensures (db, ok) == NetworkDeleted(old(db), ls)
    {
      if ls !in db.switches {
        return false;
      }
      var ports := set row | row in db.lsps && db.lsps[row].ls == ls;
      var others := ports;
      if exists row :: row in ports && db.lsps[row].kind == LocalnetPort {
        var localnet :| localnet in ports && db.lsps[localnet].kind == LocalnetPort;
        others := ports - {localnet};
        assert others == {} ==> ports == {localnet};
      }
      assert others == {} <==> OnlyLocalnet(db, ls) by {
        OthersEmpty(db, ls, ports, others);
      }
      if others != {} {
        return false;
      }
      RemoveSubnetsOf(ls);
      db := db.(switches := db.switches - {ls},
                lsps := map row | row in db.lsps && db.lsps[row].ls != ls :: db.lsps[row]);
      return true;
    }

    method RemoveSubnetsOf(ls: LsId)
      modifies this
      ensures db ==
              old(db).(subnets := map d | d in old(db).subnets && old(db).subnets[d].ls != ls :: old(db).subnets[d])
    {
      ghost var start := db;
      ghost var kept := map d | d in start.subnets && start.subnets[d].ls != ls :: start.subnets[d];
      var todo := db.subnets.Keys;
      while todo != {}
        invariant todo <= start.subnets.Keys && db == start.(subnets := db.subnets)
        invariant forall d :: d in db.subnets <==> d in kept || d in todo
        invariant forall d :: d in db.subnets ==> db.subnets[d] == start.subnets[d]
        decreases |todo|
      {
        var d :| d in todo;
        if db.subnets[d].ls == ls {
          db := db.(subnets := db.subnets - {d});
        }
        todo := todo - {d};
      }
      assert db.subnets == kept;
    }

    /** `get_update_port_addr_command` of a port with a MAC */
    method PortAddresses(ls: LsId, fixed: Option<Fixed>, leases: Leases) returns (addresses: Option<Addresses>)
      requires Unique(db) && ls in db.switches
      ensures addresses == NewAddresses(db, ls, fixed, leases)
    {
      hide SubnetOn, Available;
      var d := GetDhcpOfNetwork(ls);
      if fixed.Some? {
        if d == None {
          return None;
        }
        if fixed.value.subnet.Some? && fixed.value.subnet != d {
          return None;
        }
      }
      if d == None {
        return Some(MacOnly);
      }
      if fixed == None || fixed.value.ip == None {
        return Some(DynamicIp);
      }
      var free := IsIpAvailable(ls, fixed.value.ip.value, leases);
      return if free then Some(StaticIp(fixed.value.ip.value)) else None;
    }

    /** `add_port`: the port is made even when its addresses raise. */
    method AddPort(port: NewPort, ls: LsId, owner: Owner, fixed: Option<Fixed>, leases: Leases) returns (ok: bool)
      requires Unique(db)
      modifies this
      ensures (db, ok) == PortAdded(old(db), port, ls, owner, fixed, leases)
    {
      hide NewAddresses, Unique;
      if ls !in db.switches {
        return false;
      }
      var addresses := PortAddresses(ls, fixed, leases);
      db := db.(lsps := db.lsps[port.row := Lsp(port.name, ls, PlainPort, None, owner, NoAddresses)]);
      if addresses == None {
        return false;
      }
      db := db.(lsps := db.lsps[port.row := db.lsps[port.row].(addresses := addresses.value)]);
      assert db.lsps == old(db).lsps[port.row := db.lsps[port.row]];
      return true;
    }

    /** `update_port` of a port that is not a router's: the owner is queued before the addresses are
        worked out, and committed even when they raise. */
    method UpdatePort(ref: PortRef, ls: Option<LsId>, owner: Option<Owner>, mac: bool, fixed: Option<Fixed>,
                      leases: Leases)
      returns (ok: bool)
      requires Unique(db) && Refers(db)
      modifies this
      ensures (db, ok) == PortUpdated(old(db), ref, ls, owner, mac, fixed, leases)
    {
      FoundIsThere(db, ref);
      hide Unique, LspAt, NewAddresses, SubnetOn;
      var row := GetLsp(ref);
      if row == None || (ls.Some? && ls.value != db.lsps[row.value].ls) {
        return false;
      }
      var p := db.lsps[row.value];
      var owned := if owner.Some? then p.(owner := owner.value) else p;
      if mac || p.addresses != NoAddresses {
        var addresses := PortAddresses(p.ls, fixed, leases);
        db := WithLsp(db, row.value, if addresses == None then owned else owned.(addresses := addresses.value));
        return addresses.Some?;
      }
      var d := GetDhcpOfNetwork(p.ls);
      db := WithLsp(db, row.value, owned);
      return fixed.Some? ==> d.Some? && (fixed.value.subnet == None || fixed.value.subnet == d);
    }

    /** `delete_port` */
    method DeletePort(ref: PortRef) returns (ok: bool)
      requires Unique(db)
      modifies this
      ensures (db, ok) == PortDeleted(old(db), ref)
    {
      FoundIsThere(db, ref);
      hide LspAt;
      var row := GetLsp(ref);
      if row == None {
        return false;
      }
      if db.lsps[row.value].owner in [InterfaceOwner, GatewayOwner] {
        return false;
      }
      db := db.(lsps := db.lsps - {row.value});
      return true;
    }

    // -------------------------------------------------------------------------------------------
    // Interfaces
    // -------------------------------------------------------------------------------------------

    /** `_connect_port_to_router` */
    method ConnectPortToRouter(row: LspRow, lrpName: string, owner: Owner)
      requires row in db.lsps
      modifies this
      ensures db == old(db).(lsps := old(db).lsps[row := old(db).lsps[row].(
                  kind := RouterPort, routerPort := Some(lrpName), owner := owner, addresses := RouterAddress)])
    {
      db := db.(lsps := db.lsps[row := db.lsps[row].(owner := owner)]);
      db := db.(lsps := db.lsps[row := db.lsps[row].(kind := RouterPort, routerPort := Some(lrpName),
                                                     addresses := RouterAddress)]);
      assert db.lsps == old(db).lsps[row := db.lsps[row]];
    }

    /** `add_router_interface` by subnet */
    method AddInterfaceBySubnet(r: LrId, d: SubnetId, port: NewPort, l: LrpRow, order: seq<LrpRow>) returns (ok: bool)
      requires Unique(db) && Refers(db) && Lists(db, r, order)
      modifies this
      ensures (db, ok) == AttachedBySubnet(old(db), r, d, port, l, order)
    {
      hide Unique, SubnetOn, Scan;
      if r !in db.routers || d !in db.subnets {
        return false;
      }
      var subnet := db.subnets[d];
      var existing := GetDhcpOfNetwork(subnet.ls);
      if existing != Some(d) || subnet.gatewayRouter.Some? {
        return false;
      }
      var found := IsSubnetOnRouter(order, Some(d));
      if found != Some(false) || subnet.gateway == None {
        return false;
      }
      db := db.(lsps := db.lsps[port.row := Lsp(port.name, subnet.ls, PlainPort, None, NoOwner, NoAddresses)]);
      ConnectPortToRouter(port.row, RouterPortName(port.name), InterfaceOwner);
      assert db.lsps == old(db).lsps[port.row := db.lsps[port.row]];
      db := db.(subnets := db.subnets[d := subnet.(gatewayRouter := Some(r))]);
      db := db.(lrps := db.lrps[l := Lrp(RouterPortName(port.name), r, subnet.gateway.value)]);
      return true;
    }

    /** `add_router_interface` by port */
    method AddInterfaceByPort(r: LrId, ref: PortRef, l: LrpRow, order: seq<LrpRow>, leases: Leases) returns (ok: bool)
      requires Unique(db) && Refers(db) && Lists(db, r, order)
      modifies this
      ensures (db, ok) == AttachedByPort(old(db), r, ref, l, order, leases)
    {
      FoundIsThere(db, ref);
      hide Unique, SubnetOn, Scan, LspAt;
      if r !in db.routers {
        return false;
      }
      var row := GetLsp(ref);
      if row == None {
        return false;
      }
      var p := db.lsps[row.value];
      if p.kind == RouterPort {
        return false;
      }
      var subnet := GetDhcpOfPort(row.value);
      if subnet == None {
        return false;
      }
      var found := IsSubnetOnRouter(order, None);
      var ip := PortIp(p, row.value, leases);
      if found == None || ip == None {
        return false;
      }
      ConnectPortToRouter(row.value, RouterPortName(p.name), InterfaceOwner);
      db := db.(lrps := db.lrps[l := Lrp(RouterPortName(p.name), r, ip.value)]);
      return true;
    }

    /** `_remove_lr_gw_port` */
    method RemoveGatewayPort(r: LrId, ls: LsId, ip: Ip) returns (ok: bool)
      requires r in db.routers && ls in db.switches
      modifies this
      ensures (db, ok) == GatewayRemoved(old(db), r, ls, ip)
    {
      db := db.(routers := db.routers[r := db.routers[r].(gatewayPort := None)]);
      db := db.(routers := db.routers[r := db.routers[r].(routes := db.routers[r].routes - {DEFAULT_ROUTE4})]);
      db := db.(routers := db.routers[r := db.routers[r].(routes := db.routers[r].routes - {DEFAULT_ROUTE6})]);
      assert db.routers == old(db).routers[r := db.routers[r]];
      ok := ReleaseNetworkIp(ls, ip);
    }

    /** `_release_network_ip` */
    method ReleaseNetworkIp(ls: LsId, ip: Ip) returns (ok: bool)
      requires ls in db.switches
      modifies this
      ensures ok <==> ip in old(db).switches[ls]
      ensures db == if ok then WithExclude(old(db), ls, RemoveOne(old(db).switches[ls], ip)) else old(db)
    {
      var values := db.switches[ls];
      if ip !in values {
        return false;
      }
      db := WithExclude(db, ls, RemoveOne(values, ip));
      return true;
    }

    /** `_delete_router_interface_by_port` */
    method DeleteInterfaceByPort(r: LrId, ref: PortRef, order: seq<LrpRow>) returns (ok: bool)
      requires Unique(db) && Refers(db) && Lists(db, r, order)
      modifies this
      ensures (db, ok) == DetachedByPort(old(db), r, ref, order)
    {
      FoundIsThere(db, ref);
      hide Unique, SubnetOn, Scan, LspAt, LrpAt, RemoveOne;
      var row := GetLsp(ref);
      if row == None || db.lsps[row.value].routerPort == None {
        return false;
      }
      var p := db.lsps[row.value];
      var d := GetDhcpOfPort(row.value);
      if d == None {
        return false;
      }
      var l := GetLrp(p.routerPort.value);
      if l == None || r !in db.routers {
        return false;
      }
      assert l.value in db.lrps by { LrpIsThere(db, p.routerPort.value); }
      assert d.value in db.subnets by { SubnetIsThere(db, p.ls); }
      var onRouter := IsSubnetOnRouter(order, d);
      if onRouter == None {
        return false;
      }
      var ip := db.lrps[l.value].ip;
      var isGateway := onRouter.value && db.subnets[d.value].gateway == Some(ip);
      if db.lrps[l.value].lr != r {
        return false;
      }
      var gateway := db.routers[r].gatewayPort;
      db := db.(lrps := db.lrps - {l.value});
      db := db.(lsps := db.lsps - {row.value});
      if isGateway {
        db := WithGatewayRouter(db, d.value, None);
      }
      if gateway.Some? && ref == ByName(gateway.value) {
        ok := RemoveGatewayPort(r, p.ls, ip);
      } else {
        ok := true;
      }
    }

    /** One turn of the loop below */
    method DeletePortIfOn(l: LrpRow, ls: LsId, ghost row: LspRow) returns (gone: bool)
      requires Unique(db) && l in db.lrps && LspOf(db, l) == Some(row) && row in db.lsps
      modifies this
      ensures gone <==> old(db).lsps[row].ls == ls
      ensures db == if gone then Detached(old(db), row, l) else old(db)
    {
      hide Unique, LspOf;
      var lsp := GetLspOfLrp(l);
      gone := db.lsps[lsp.value].ls == ls;
      if gone {
        db := Detached(db, lsp.value, l);
      }
    }

    /** The loop of the next method: the ports of the router one after the other. */
    method DeletePortsOn(r: LrId, ls: LsId, order: seq<LrpRow>) returns (deleted: bool)
      requires Sound(db) && Lists(db, r, order) && EachOnce(order)
      modifies this
      ensures db ==
              old(db).(lsps := old(db).lsps - LegRows(old(db), r, ls), lrps := old(db).lrps - LegPorts(old(db), r, ls))
      ensures deleted <==> LegPorts(old(db), r, ls) != {}
    {
      ghost var start := db;
      deleted := false;
      var i := 0;
      StartAndEnd(start, order, r, ls);
      hide Sound, Lists, LegPorts, LegRows, LspOf, GoneAt, AnyGone, Unique, EachOnce;
      while i < |order|
        invariant 0 <= i <= |order| && db == GoneAt(start, order, i, r, ls)
        invariant deleted <==> AnyGone(start, order, i, r, ls)
      {
        ghost var row := StillThere(start, order, i, r, ls);
        var gone := DeletePortIfOn(order[i], ls, row);
        deleted := deleted || gone;
        i := i + 1;
      }
    }

    /** `_delete_router_interface_by_subnet` */
    method DeleteInterfaceBySubnet(r: LrId, d: SubnetId, order: seq<LrpRow>) returns (ok: bool)
      requires Sound(db) && Refers(db) && Lists(db, r, order) && EachOnce(order)
      modifies this
      ensures (db, ok) == DetachedBySubnet(old(db), r, d)
    {
      if r !in db.routers || d !in db.subnets {
        return false;
      }
      SubnetHasSwitch(db, d);
      hide Sound, Refers, Lists, LegPorts, LegRows;
      var subnet := db.subnets[d];
      var deleted := DeletePortsOn(r, subnet.ls, order);
      if subnet.gatewayRouter == Some(r) {
        db := WithGatewayRouter(db, d, None);
      }
      return deleted;
    }

    /** `_delete_router_interface_by_subnet_and_port` */
    method DeleteInterfaceByBoth(r: LrId, d: SubnetId, ref: PortRef, order: seq<LrpRow>) returns (ok: bool)
      requires Unique(db) && Refers(db) && Lists(db, r, order)
      modifies this
      ensures (db, ok) == DetachedByBoth(old(db), r, d, ref, order)
    {
      FoundIsThere(db, ref);
      hide Unique, LspAt, DetachedByPort;
      if d !in db.subnets {
        return false;
      }
      var row := GetLsp(ref);
      if row == None || db.lsps[row.value].ls != db.subnets[d].ls {
        return false;
      }
      ok := DeleteInterfaceByPort(r, ref, order);
    }

    // -------------------------------------------------------------------------------------------
    // Routers
    // -------------------------------------------------------------------------------------------

    /** `_reserve_network_ip` */
    method ReserveNetworkIp(ls: LsId, ip: Ip)
      requires ls in db.switches
      modifies this
      ensures db == WithExclude(old(db), ls, old(db).switches[ls] + [ip])
    {
      db := WithExclude(db, ls, db.switches[ls] + [ip]);
    }

    /** `_validate_external_gateway` */
    method ValidateExternalGateway(gw: Gateway, leases: Leases) returns (ok: bool)
      requires Unique(db) && Refers(db)
      ensures ok <==> GatewayFits(db, gw, leases)
    {
      SubnetIsThere(db, gw.ls);
      hide SubnetOn, Available, Unique;
      var existing := GetDhcpOfNetwork(gw.ls);
      if existing != Some(gw.subnet) || db.subnets[gw.subnet].gateway == None {
        return false;
      }
      ok := IsIpAvailable(gw.ls, gw.ip, leases);
    }

    /** `_add_routes_to_router`: stops at the first destination that is there already. */
    method AddRoutes(r: LrId, more: seq<Route>) returns (ok: bool)
      requires r in db.routers
      modifies this
      ensures r in db.routers
      ensures db ==
              WithRouter(old(db), r, old(db).routers[r].(routes := RoutesAdded(old(db).routers[r].routes, more).0))
      ensures ok == RoutesAdded(old(db).routers[r].routes, more).1
    {
      ghost var start := db;
      var i := 0;
      assert more[0..] == more;
      assert start.routers[r := start.routers[r]] == start.routers;
      while i < |more|
        invariant 0 <= i <= |more| && r in db.routers
        invariant db == WithRouter(start, r, start.routers[r].(routes := db.routers[r].routes))
        invariant RoutesAdded(db.routers[r].routes, more[i..]) == RoutesAdded(start.routers[r].routes, more)
      {
        assert more[i..][0] == more[i] && more[i..][1..] == more[i + 1..];
        var routes := db.routers[r].routes;
        if more[i].prefix in routes {
          return false;
        }
        db := db.(routers := db.routers[r := db.routers[r].(routes := routes[more[i].prefix := more[i].hop])]);
        assert db.routers == start.routers[r := db.routers[r]];
        i := i + 1;
      }
      return true;
    }

    /** `_add_external_gateway_to_router` */
    method AddExternalGateway(r: LrId, gw: Gateway, port: NewPort, l: LrpRow) returns (ok: bool)
      requires r in db.routers && gw.subnet in db.subnets && db.subnets[gw.subnet].gateway.Some?
      modifies this
      ensures (db, ok) == GatewayPlaced(old(db), r, gw, port, l)
    {
      hide RoutesAdded;
      ghost var start := db;
      var name := RouterPortName(port.name);
      db := db.(lsps := db.lsps[port.row := Lsp(port.name, gw.ls, PlainPort, None, NoOwner, NoAddresses)]);
      db := db.(lrps := db.lrps[l := Lrp(name, r, gw.ip)]);
      ConnectPortToRouter(port.row, name, GatewayOwner);
      assert db.lsps == start.lsps[port.row := db.lsps[port.row]];
      db := db.(routers := db.routers[r := db.routers[r].(gatewayPort := Some(port.name))]);
      var subnet := db.subnets[gw.subnet];
      ok := AddRoutes(r, [Route(DefaultRoute(subnet.v6), subnet.gateway.value)]);
      assert db.routers == start.routers[r := db.routers[r]];
    }

    /** `add_router` */
    method AddRouter(r: LrId, gw: Option<Gateway>, port: NewPort, l: LrpRow, routes: seq<Route>,
                     leases: Leases) returns (ok: bool)
      requires Unique(db) && Refers(db)
      modifies this
      ensures (db, ok) == RouterAdded(old(db), r, gw, port, l, routes, leases)
    {
      hide Unique, Refers, Available, RoutesAdded, SubnetOn;
      ghost var start := db;
      if gw.Some? {
        SubnetIsThere(db, gw.value.ls);
        var fits := ValidateExternalGateway(gw.value, leases);
        if !fits || HasDefault(routes) {
          return false;
        }
        ReserveNetworkIp(gw.value.ls, gw.value.ip);
      }
      db := db.(routers := db.routers[r := Lr(None, map[])]);
      if gw.Some? {
        var routed := AddExternalGateway(r, gw.value, port, l);
      }
      ok := AddRoutes(r, routes);
    }

    /** The keys of a dictionary, in the order it is walked. */
    method Walk(keys: set<Prefix>) returns (order: seq<Prefix>)
      ensures IsOrder(order, keys)
    {
      order := [];
      var todo := keys;
      while todo != {}
        invariant todo <= keys && IsOrder(order, keys - todo)
        decreases |todo|
      {
        var p :| p in todo;
        todo := todo - {p};
        order := order + [p];
        assert order[|order| - 1] == p;
      }
      assert keys - {} == keys;
    }

    method RemoveRoutes(r: LrId, removed: set<Prefix>)
      requires r in db.routers
      modifies this
      ensures r in old(db).routers
      ensures db == WithRouter(old(db), r, old(db).routers[r].(routes := old(db).routers[r].routes - removed))
    {
      ghost var start := db;
      ghost var routes := start.routers[r].routes;
      var todo := removed;
      assert start.routers[r := start.routers[r]] == start.routers && routes - (removed - todo) == routes;
      while todo != {}
        invariant todo <= removed && r in db.routers
        invariant db == WithRouter(start, r, start.routers[r].(routes := routes - (removed - todo)))
        decreases |todo|
      {
        var p :| p in todo;
        todo := todo - {p};
        db := WithRouter(db, r, db.routers[r].(routes := db.routers[r].routes - {p}));
        assert db.routers[r].routes == routes - (removed - todo);
      }
      assert removed - {} == removed;
    }

    /** Adding stops at the first destination that is there. */
    method AddRoutesOf(r: LrId, order: seq<Prefix>, added: map<Prefix, Hop>) returns (ok: bool)
      requires r in db.routers && forall i :: 0 <= i < |order| ==> order[i] in added
      modifies this
      ensures r in old(db).routers
      ensures db ==
              WithRouter(old(db), r,
                         old(db).routers[r].(routes := AddedInOrder(old(db).routers[r].routes, order, added).0))
      ensures ok == AddedInOrder(old(db).routers[r].routes, order, added).1
    {
      ghost var start := db;
      var i := 0;
      assert order[0..] == order;
      assert start.routers[r := start.routers[r]] == start.routers;
      while i < |order|
        invariant 0 <= i <= |order| && r in db.routers
        invariant db == WithRouter(start, r, start.routers[r].(routes := db.routers[r].routes))
        invariant AddedInOrder(db.routers[r].routes, order[i..], added) ==
                  AddedInOrder(start.routers[r].routes, order, added)
      {
        assert order[i..][0] == order[i] && order[i..][1..] == order[i + 1..];
        var routes := db.routers[r].routes;
        if order[i] in routes {
          return false;
        }
        db := WithRouter(db, r, db.routers[r].(routes := routes[order[i] := added[order[i]]]));
        assert db.routers == start.routers[r := db.routers[r]];
        i := i + 1;
      }
      return true;
    }

    /** The routes part of `update_router` */
    method UpdateRoutes(r: LrId, requested: seq<Route>) returns (ok: bool, ghost change: RouteChange)
      requires r in db.routers
      modifies this
      ensures r in old(db).routers && change.requested == requested && IsDiff(change, old(db).routers[r].routes)
      ensures var (final, fine) := RoutesChanged(old(db).routers[r].routes, Some(change));
              ok == fine && db == WithRouter(old(db), r, old(db).routers[r].(routes := final))
    {
      hide AddedInOrder;
      ghost var start := db;
      var added, removed := DiffRoutes(requested, db.routers[r].routes);
      var order := Walk(added.Keys);
      change := RouteChange(requested, removed.Keys, order, added);
      RemovedAre(start.routers[r].routes, requested, removed);
      RemoveRoutes(r, removed.Keys);
      assert start.routers[r := db.routers[r]] == db.routers;
      ok := AddRoutesOf(r, order, added);
      assert db.routers == start.routers[r := db.routers[r]];
    }

    /** `update_router`: what the routes have become stays when the rest raises. */
    method UpdateRouter(r: LrId, gw: Option<Gateway>, port: NewPort, l: LrpRow, requested: Option<seq<Route>>,
                        leases: Leases)
      returns (ok: bool, ghost change: Option<RouteChange>)
      requires Unique(db) && Refers(db)
      modifies this
      ensures requested.Some? <==> change.Some?
      ensures change.Some? ==> change.value.requested == requested.value && InAdded(change.value)
      ensures change.Some? && r in old(db).routers ==> IsDiff(change.value, old(db).routers[r].routes)
      ensures (db, ok) == RouterUpdated(old(db), r, gw, port, l, change, leases)
      ensures r in old(db).routers && requested.Some? && gw == None ==>
                r in db.routers &&
                ((ok && Pairs(db.routers[r].routes) == Wanted(requested.value)) <==> OneHop(Wanted(requested.value)))
    {
      hide Unique, Refers, Available, RoutesAdded, SubnetOn, IsDiff, RoutesChanged;
      ghost var start := db;
      change := AnyChange(db, r, requested);
      if gw.Some? {
        SubnetIsThere(db, gw.value.ls);
        var fits := ValidateExternalGateway(gw.value, leases);
        if !fits {
          return false, change;
        }
      }
      if r !in db.routers {
        return false, change;
      }
      SameRouterRow(db, r);
      if requested.Some? {
        if gw.Some? && HasDefault(requested.value) {
          return false, change;
        }
        ghost var made: RouteChange;
        ok, made := UpdateRoutes(r, requested.value);
        change := Some(made);
        DiffIsInAdded(made, start.routers[r].routes);
        if gw == None {
          RouterRoutesReconciled(start, r, port, l, made, leases);
        }
        if !ok {
          return;
        }
      }
      if gw == None {
        return true, change;
      }
      if db.routers[r].gatewayPort.Some? {
        return false, change;
      }
      ReserveNetworkIp(gw.value.ls, gw.value.ip);
      ok := AddExternalGateway(r, gw.value, port, l);
    }

    /** `delete_router`: its external gateway goes first. */
    method DeleteRouter(r: LrId, order: seq<LrpRow>) returns (ok: bool)
      requires Unique(db) && Refers(db) && Lists(db, r, order)
      modifies this
      ensures (db, ok) == RouterDeleted(old(db), r, order)
    {
      hide Unique, Refers, Lists, DetachedByPort;
      if r !in db.routers {
        return false;
      }
      if db.routers[r].gatewayPort.Some? {
        ok := DeleteInterfaceByPort(r, ByName(db.routers[r].gatewayPort.value), order);
        if !ok {
          return false;
        }
      }
      if exists k :: k in db.lrps && db.lrps[k].lr == r {
        assert !HasNoPorts(db, r);
        return false;
      }
      db := db.(routers := db.routers - {r});
      return true;
    }
  }

  // ---------------------------------------------------------------------------------------------
  // A change of routes
  // ---------------------------------------------------------------------------------------------

  lemma RemovedAre(routes: map<Prefix, Hop>, requested: seq<Route>, removed: map<Prefix, Hop>)
    requires DictOf(removed, Pairs(routes) - Wanted(requested))
    ensures forall p :: p in removed <==> p in routes && Route(p, routes[p]) !in Wanted(requested)
  {
    forall p | p in routes && Route(p, routes[p]) !in Wanted(requested)
      ensures p in removed
    {
      assert Route(p, routes[p]) in Pairs(routes) - Wanted(requested);
    }
  }

  lemma {:induction false} AnyDict(pairs: set<Route>) returns (d: map<Prefix, Hop>)
    ensures DictOf(d, pairs)
    decreases |pairs|
  {
    d := map[];
    if pairs != {} {
      var r :| r in pairs;
      d := AnyDict(pairs - {r});
      d := d[r.prefix := r.hop];
    }
  }

  lemma {:induction false} AnyOrder(keys: set<Prefix>) returns (order: seq<Prefix>)
    ensures IsOrder(order, keys)
    decreases |keys|
  {
    order := [];
    if keys != {} {
      var k :| k in keys;
      order := AnyOrder(keys - {k});
      order := order + [k];
      assert order[|order| - 1] == k;
    }
  }

  /** What `diff_routes` would make of the request. */
  lemma AnyChange(s: Db, r: LrId, requested: Option<seq<Route>>) returns (change: Option<RouteChange>)
    ensures requested.Some? <==> change.Some?
    ensures change.Some? ==> change.value.requested == requested.value && InAdded(change.value)
    ensures change.Some? && r in s.routers ==> IsDiff(change.value, s.routers[r].routes)
  {
    if requested == None {
      return None;
    }
    var routes := if r in s.routers then s.routers[r].routes else map[];
    var added := AnyDict(Wanted(requested.value) - Pairs(routes));
    var order := AnyOrder(added.Keys);
    var removed := set p | p in routes && Route(p, routes[p]) !in Wanted(requested.value);
    change := Some(RouteChange(requested.value, removed, order, added));
  }

  lemma DiffIsInAdded(change: RouteChange, routes: map<Prefix, Hop>)
    requires IsDiff(change, routes)
    ensures InAdded(change)
  {
    hide DictOf;
  }

  lemma SameRouterRow(s: Db, r: LrId)
    requires r in s.routers
    ensures WithRouter(s, r, s.routers[r].(routes := RoutesChanged(s.routers[r].routes, None).0)) == s
    ensures RoutesChanged(s.routers[r].routes, None).1
  {
    assert s.routers[r := s.routers[r]] == s.routers;
  }

  // ---------------------------------------------------------------------------------------------
  // A router's ports deleted one after the other
  // ---------------------------------------------------------------------------------------------

  ghost predicate EachOnce(ports: seq<LrpRow>) {
    forall i, j :: 0 <= i < j < |ports| ==> ports[i] != ports[j]
  }

  ghost function LegsAmong(s: Db, ports: seq<LrpRow>, r: LrId, ls: LsId): set<LrpRow> {
    set l | l in ports && l in LegPorts(s, r, ls)
  }

  ghost function RowsAmong(s: Db, ports: seq<LrpRow>, r: LrId, ls: LsId): set<LspRow> {
    set l | l in ports && l in LegPorts(s, r, ls) :: LspOf(s, l).value
  }

  /** The tables after the ports listed have been looked at. */
  ghost function GoneSoFar(s: Db, ports: seq<LrpRow>, r: LrId, ls: LsId): Db {
    s.(lsps := s.lsps - RowsAmong(s, ports, r, ls), lrps := s.lrps - LegsAmong(s, ports, r, ls))
  }

  lemma NoneGone(s: Db, order: seq<LrpRow>, r: LrId, ls: LsId)
    ensures GoneSoFar(s, order[..0], r, ls) == s && LegsAmong(s, order[..0], r, ls) == {}
  {
    assert LegsAmong(s, order[..0], r, ls) == {} && RowsAmong(s, order[..0], r, ls) == {};
    assert s.lsps - {} == s.lsps && s.lrps - {} == s.lrps;
  }

  lemma AllGone(s: Db, order: seq<LrpRow>, r: LrId, ls: LsId)
    requires Lists(s, r, order)
    ensures GoneSoFar(s, order, r, ls) == s.(lsps := s.lsps - LegRows(s, r, ls), lrps := s.lrps - LegPorts(s, r, ls))
    ensures LegsAmong(s, order, r, ls) == LegPorts(s, r, ls)
  {
    hide LspOf;
    assert LegsAmong(s, order, r, ls) == LegPorts(s, r, ls);
    assert RowsAmong(s, order, r, ls) == LegRows(s, r, ls);
  }

  ghost function GoneAt(s: Db, order: seq<LrpRow>, i: nat, r: LrId, ls: LsId): Db
    requires i <= |order|
  {
    GoneSoFar(s, order[..i], r, ls)
  }

  ghost predicate AnyGone(s: Db, order: seq<LrpRow>, i: nat, r: LrId, ls: LsId)
    requires i <= |order|
  {
    LegsAmong(s, order[..i], r, ls) != {}
  }

  lemma StartAndEnd(s: Db, order: seq<LrpRow>, r: LrId, ls: LsId)
    requires Lists(s, r, order)
    ensures GoneAt(s, order, 0, r, ls) == s && !AnyGone(s, order, 0, r, ls)
    ensures GoneAt(s, order, |order|, r, ls) ==
            s.(lsps := s.lsps - LegRows(s, r, ls), lrps := s.lrps - LegPorts(s, r, ls))
    ensures AnyGone(s, order, |order|, r, ls) <==> LegPorts(s, r, ls) != {}
  {
    NoneGone(s, order, r, ls);
    AllGone(s, order, r, ls);
    assert order[..|order|] == order;
  }

  /** The next port to look at is still in the tables, with its switch port. */
  lemma StillThere(s: Db, order: seq<LrpRow>, i: nat, r: LrId, ls: LsId) returns (row: LspRow)
    requires Sound(s) && Lists(s, r, order) && i < |order| && EachOnce(order)
    ensures var t := GoneAt(s, order, i, r, ls);
            && Unique(t) && order[i] in t.lrps && LspOf(t, order[i]) == Some(row) && row in t.lsps
            && GoneAt(s, order, i + 1, r, ls) == (if t.lsps[row].ls == ls then Detached(t, row, order[i]) else t)
            && (AnyGone(s, order, i + 1, r, ls) <==> AnyGone(s, order, i, r, ls) || t.lsps[row].ls == ls)
  {
    row := EveryLrpPairs(s, order[i]);
    hide Sound, Lists, Unique, LspOf, GoneSoFar, LegsAmong, LegPorts, Pair;
    NextIsPair(s, order, i, r, ls, row);
    NextGone(s, order, i, r, ls, row);
  }

  lemma NextIsPair(s: Db, order: seq<LrpRow>, i: nat, r: LrId, ls: LsId, row: LspRow)
    requires Sound(s) && Lists(s, r, order) && i < |order| && EachOnce(order)
    requires Pair(s, order[i], row)
    ensures var t := GoneSoFar(s, order[..i], r, ls);
            && Unique(t) && order[i] in t.lrps && row in t.lsps && LspOf(t, order[i]) == Some(row)
            && t.lsps[row] == s.lsps[row]
            && LspOf(s, order[i]) == Some(row) && (order[i] in LegPorts(s, r, ls) <==> s.lsps[row].ls == ls)
  {
    SoundUnique(s);
    LegOnIsPair(s, order[i], row, r, ls);
    OthersGone(s, order, i, r, ls, row);
    FewerUnique(s, order[..i], r, ls);
    var t := GoneSoFar(s, order[..i], r, ls);
    hide Sound, Unique, LspOf, RouterPortName, LegsAmong, RowsAmong, LegOn;
    assert Pair(t, order[i], row);
    PairFound(t, order[i], row);
  }

  lemma NextGone(s: Db, order: seq<LrpRow>, i: nat, r: LrId, ls: LsId, row: LspRow)
    requires i < |order| && order[i] in s.lrps && LspOf(s, order[i]) == Some(row)
    ensures var t := GoneSoFar(s, order[..i], r, ls);
            && GoneSoFar(s, order[..i + 1], r, ls) ==
               (if order[i] in LegPorts(s, r, ls) then Detached(t, row, order[i]) else t)
            && (LegsAmong(s, order[..i + 1], r, ls) != {} <==>
                LegsAmong(s, order[..i], r, ls) != {} || order[i] in LegPorts(s, r, ls))
  {
    var l := order[i];
    hide LspOf, LegPorts;
    assert order[..i + 1] == order[..i] + [l];
    var more := if l in LegPorts(s, r, ls) then {l} else {};
    assert LegsAmong(s, order[..i + 1], r, ls) == LegsAmong(s, order[..i], r, ls) + more;
    RowsMore(s, order, i, r, ls, row);
    hide LegsAmong, RowsAmong;
    Subtracted(s, GoneSoFar(s, order[..i], r, ls), LegsAmong(s, order[..i], r, ls), RowsAmong(s, order[..i], r, ls), l,
               row);
    assert l in more || more == {};
  }

  lemma Subtracted(s: Db, t: Db, legs: set<LrpRow>, rows: set<LspRow>, l: LrpRow, row: LspRow)
    requires t == s.(lsps := s.lsps - rows, lrps := s.lrps - legs)
    ensures s.(lsps := s.lsps - (rows + {row}), lrps := s.lrps - (legs + {l})) == Detached(t, row, l)
    ensures s.(lsps := s.lsps - (rows + {}), lrps := s.lrps - (legs + {})) == t
  {
    assert s.lsps - (rows + {row}) == s.lsps - rows - {row} && s.lrps - (legs + {l}) == s.lrps - legs - {l};
    assert rows + {} == rows && legs + {} == legs;
  }

  lemma RowsMore(s: Db, order: seq<LrpRow>, i: nat, r: LrId, ls: LsId, row: LspRow)
    requires i < |order| && order[..i + 1] == order[..i] + [order[i]]
    requires order[i] in LegPorts(s, r, ls) ==> LspOf(s, order[i]) == Some(row)
    ensures RowsAmong(s, order[..i + 1], r, ls) ==
            RowsAmong(s, order[..i], r, ls) + (if order[i] in LegPorts(s, r, ls) then {row} else {})
  {
    hide LspOf, LegOn;
  }

  lemma FewerUnique(s: Db, ports: seq<LrpRow>, r: LrId, ls: LsId)
    requires Unique(s)
    ensures Unique(GoneSoFar(s, ports, r, ls))
  {
    hide LegsAmong, RowsAmong;
  }

  /** No port looked at before shares the switch port of the next. */
  lemma OthersGone(s: Db, order: seq<LrpRow>, i: nat, r: LrId, ls: LsId, row: LspRow)
    requires Sound(s) && Lists(s, r, order) && i < |order| && EachOnce(order)
    requires Pair(s, order[i], row)
    ensures row !in RowsAmong(s, order[..i], r, ls) && order[i] !in LegsAmong(s, order[..i], r, ls)
  {
    SoundUnique(s);
    forall l | l in order[..i] && l in LegPorts(s, r, ls)
      ensures LspOf(s, l) != Some(row)
    {
      var other := EveryLrpPairs(s, l);
      LegOnIsPair(s, l, other, r, ls);
      PairIsUnique(s, order[i], row, l, other);
    }
    hide LspOf, LegOn, Sound, Pair, Unique;
  }

  lemma LrpIsThere(s: Db, n: string)
    ensures LrpAt(s, n).Some? ==> LrpAt(s, n).value in s.lrps
  {
  }

  lemma OthersEmpty(s: Db, ls: LsId, ports: set<LspRow>, others: set<LspRow>)
    requires ports == set row | row in s.lsps && s.lsps[row].ls == ls
    requires (others == ports && forall row :: row in ports ==> s.lsps[row].kind != LocalnetPort) ||
             (exists row :: row in ports && s.lsps[row].kind == LocalnetPort && others == ports - {row})
    ensures others == {} <==> OnlyLocalnet(s, ls)
  {
    assert forall row :: row in s.lsps && s.lsps[row].ls == ls ==> row in ports;
    if row :| row in ports && s.lsps[row].kind == LocalnetPort && others == ports - {row} {
      assert forall o :: o in ports ==> o == row || o in others;
      assert row in s.lsps && s.lsps[row].ls == ls;
      if o :| o in others {
        assert o in s.lsps && s.lsps[o].ls == ls && o != row;
      } else {
        assert forall o :: o in s.lsps && s.lsps[o].ls == ls ==> o in ports && o == row;
      }
    } else if row :| row in others {
      assert row in s.lsps && s.lsps[row].ls == ls;
    }
  }

  lemma LspOfIsThere(s: Db, l: LrpRow)
    requires l in s.lrps
    ensures LspOf(s, l).Some? ==> LspOf(s, l).value in s.lsps
  {
  }
}
