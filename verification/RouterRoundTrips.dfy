/** What one router call undoes of another. */
module RouterRoundTrips {
  import opened Text
  import opened Routes
  import opened RouterTables
  import opened Routers
  import opened RouterPairing
  import opened RouterRuns

  // ---------------------------------------------------------------------------------------------
  // An interface by subnet
  // ---------------------------------------------------------------------------------------------

  /** The interface attached is the only leg of the router on the network. */
  lemma OnlyLeg(s: Db, t: Db, r: LrId, ls: LsId, ip: Ip, row: LspRow, l: LrpRow)
    requires Sound(t) && OneMoreLeg(s, t, l, row, r, ls, ip) && l in t.lrps && row in t.lsps
    requires forall k, o, a :: !Leg(s, k, o, r, ls, a)
    ensures LegPorts(t, r, ls) == {l} && LegRows(t, r, ls) == {row}
  {
    assert Leg(t, l, row, r, ls, ip);
    LegOnIsPair(t, l, row, r, ls);
    forall k | k in t.lrps
      ensures LegOn(t, k, r, ls) <==> k == l
    {
      var o := EveryLrpPairs(t, k);
      LegOnIsPair(t, k, o, r, ls);
      if LegOn(t, k, r, ls) {
        assert Leg(t, k, o, r, ls, t.lrps[k].ip);
      }
    }
    hide LegOn, LspOf, Sound, Pair, OneMoreLeg;
    assert LegPorts(t, r, ls) == {l};
    assert LegRows(t, r, ls) == {row};
  }

  lemma AttachedTables(s: Db, r: LrId, d: SubnetId, port: NewPort, l: LrpRow, order: seq<LrpRow>)
    requires Lists(s, r, order) && AttachedBySubnet(s, r, d, port, l, order).1
    ensures var t := AttachedBySubnet(s, r, d, port, l, order).0;
            && r in s.routers && d in s.subnets && s.subnets[d].gatewayRouter == None
            && SubnetOn(s, s.subnets[d].ls) == Some(d) && Scan(s, order, Some(d)) == Some(false)
            && port.row in t.lsps && t.lsps == s.lsps[port.row := t.lsps[port.row]]
            && l in t.lrps && t.lrps == s.lrps[l := t.lrps[l]]
            && t.switches == s.switches && t.routers == s.routers
            && t.subnets == s.subnets[d := s.subnets[d].(gatewayRouter := Some(r))]
  {
    hide SubnetOn, Scan, Lists, RouterPortName;
  }

  lemma DetachedOnly(t: Db, r: LrId, d: SubnetId, row: LspRow, l: LrpRow)
    requires Refers(t) && r in t.routers && d in t.subnets && t.subnets[d].gatewayRouter == Some(r)
    requires LegPorts(t, r, t.subnets[d].ls) == {l} && LegRows(t, r, t.subnets[d].ls) == {row}
    ensures DetachedBySubnet(t, r, d) ==
            (t.(lsps := t.lsps - {row}, lrps := t.lrps - {l},
                subnets := t.subnets[d := t.subnets[d].(gatewayRouter := None)]), true)
  {
    hide LegPorts, LegRows;
    SubnetHasSwitch(t, d);
    hide Refers;
  }

  /** Attaching a subnet to a router and detaching it by subnet leaves the tables as they were. */
  lemma DetachUndoesAttach(s: Db, r: LrId, d: SubnetId, port: NewPort, l: LrpRow, order: seq<LrpRow>)
    requires Sound(s) && Refers(s) && NewLsp(s, port) && l !in s.lrps && Lists(s, r, order)
    requires AttachedBySubnet(s, r, d, port, l, order).1
    ensures var t := AttachedBySubnet(s, r, d, port, l, order).0; Refers(t) && DetachedBySubnet(t, r, d) == (s, true)
  {
    hide Sound, Lists, Scan, SubnetOn, LegPorts, LegRows, Refers, OneMoreLeg, AttachedBySubnet, DetachedBySubnet;
    var t := AttachedBySubnet(s, r, d, port, l, order).0;
    AttachedBySubnetKeeps(s, r, d, port, l, order);
    AttachedTables(s, r, d, port, l, order);
    KeptRefersTo(t);
    NoLegBefore(s, r, d, order);
    OnlyLeg(s, t, r, s.subnets[d].ls, s.subnets[d].gateway.value, port.row, l);
    DetachedOnly(t, r, d, port.row, l);
    assert t.lsps - {port.row} == s.lsps && t.lrps - {l} == s.lrps;
    assert t.subnets[d := s.subnets[d]] == s.subnets;
  }

  // ---------------------------------------------------------------------------------------------
  // A router with an external gateway
  // ---------------------------------------------------------------------------------------------

  lemma {:induction false} ReservedThenReleased(values: seq<Ip>, ip: Ip)
    requires ip !in values
    ensures RemoveOne(values + [ip], ip) == values
    decreases |values|
  {
    if values == [] {
      assert [ip][1..] == [];
    } else {
      assert (values + [ip])[1..] == values[1..] + [ip];
      ReservedThenReleased(values[1..], ip);
    }
  }

  /** The tables after a router with a gateway is made, in terms of those before. */
  ghost predicate MadeFrom(s: Db, t: Db, r: LrId, gw: Gateway, port: NewPort, l: LrpRow) {
    && gw.ls in s.switches && gw.subnet in s.subnets
    && t.lsps ==
       s.lsps[port.row := Lsp(port.name, gw.ls, RouterPort, Some(RouterPortName(port.name)), GatewayOwner,
                              RouterAddress)]
    && t.lrps == s.lrps[l := Lrp(RouterPortName(port.name), r, gw.ip)] && t.subnets == s.subnets
    && t.switches == s.switches[gw.ls := s.switches[gw.ls] + [gw.ip]]
    && r in t.routers && t.routers[r].gatewayPort == Some(port.name) && t.routers == s.routers[r := t.routers[r]]
  }

  lemma GatewayRouterMade(s: Db, r: LrId, gw: Gateway, port: NewPort, l: LrpRow, routes: seq<Route>, leases: Leases)
    requires Refers(s) && RouterAdded(s, r, Some(gw), port, l, routes, leases).1
    ensures GatewayFits(s, gw, leases)
    ensures MadeFrom(s, RouterAdded(s, r, Some(gw), port, l, routes, leases).0, r, gw, port, l)
  {
    SubnetIsThere(s, gw.ls);
    hide RouterPortName, RoutesAdded, HasDefault, Available, SubnetOn, Refers;
  }

  /** The tables, with the subnet of a gateway at the subnet's own gateway address naming no router. */
  ghost function Forgetting(s: Db, gw: Gateway): Db
    requires gw.subnet in s.subnets
  {
    if s.subnets[gw.subnet].gateway != Some(gw.ip) then s
    else s.(subnets := s.subnets[gw.subnet := s.subnets[gw.subnet].(gatewayRouter := None)])
  }

  /** What is forgotten is the name of a router, and nothing where no router is named. */
  lemma ForgettingIsNothing(s: Db, gw: Gateway)
    requires gw.subnet in s.subnets
    ensures Forgetting(s, gw) == s <==>
            !(s.subnets[gw.subnet].gateway == Some(gw.ip) && s.subnets[gw.subnet].gatewayRouter.Some?)
  {
    if s.subnets[gw.subnet].gatewayRouter == None {
      assert s.subnets[gw.subnet := s.subnets[gw.subnet].(gatewayRouter := None)] == s.subnets;
    }
  }

  /** Deleting a router that was just made with an external gateway leaves the tables as they were, the
      address released, except that a subnet whose gateway address the router took forgets its gateway
      router. So they are as they were if and only if the gateway's address is not that of a subnet on
      another router. */
  lemma DeleteUndoesAddIff(s: Db, r: LrId, gw: Gateway, port: NewPort, l: LrpRow, routes: seq<Route>, leases: Leases)
    requires Sound(s) && Refers(s) && r !in s.routers && NewLsp(s, port) && l !in s.lrps
    requires RouterAdded(s, r, Some(gw), port, l, routes, leases).1
    ensures var t := RouterAdded(s, r, Some(gw), port, l, routes, leases).0;
            && Refers(t) && Lists(t, r, [l])
            && gw.subnet in s.subnets && RouterDeleted(t, r, [l]) == (Forgetting(s, gw), true)
            && (RouterDeleted(t, r, [l]).0 == s <==>
                !(s.subnets[gw.subnet].gateway == Some(gw.ip) && s.subnets[gw.subnet].gatewayRouter.Some?))
  {
    hide RouterAdded, RouterDeleted, Sound, Refers, Lists, NewLsp, GatewayLeg, GatewayFits, MadeFrom, Forgetting;
    var t := RouterAdded(s, r, Some(gw), port, l, routes, leases).0;
    RouterAddedKeeps(s, r, Some(gw), port, l, routes, leases);
    GatewayRouterMade(s, r, gw, port, l, routes, leases);
    KeptRefersTo(t);
    GatewayFree(s, gw, leases);
    MadeIsUndone(s, t, r, gw, port, l);
    ForgettingIsNothing(s, gw);
  }

  lemma MadeIsUndone(s: Db, t: Db, r: LrId, gw: Gateway, port: NewPort, l: LrpRow)
    requires Refers(s) && Sound(t) && Refers(t) && r !in s.routers && NewLsp(s, port) && l !in s.lrps
    requires MadeFrom(s, t, r, gw, port, l)
    requires gw.ip !in s.switches[gw.ls] && s.subnets[gw.subnet].ls == gw.ls
    ensures Lists(t, r, [l]) && RouterDeleted(t, r, [l]) == (Forgetting(s, gw), true)
  {
    OnlyPortListed(s, t, r, l);
    assert Pair(t, l, port.row) by { MadePair(t, r, gw, port, l); }
    hide RouterDeleted, Sound, Refers, Lists, Pair, PortGone, DetachedByPort;
    assert Scan(t, [l], Some(gw.subnet)) == Some(true) by {
      SoundUnique(t);
      FoundSubnet(t, gw.subnet);
      OneScanned(t, l, port.row, gw.subnet);
    }
    GatewayPortDetached(t, r, gw, port, l, [l]);
    FreedOfPort(s, t, DetachedByPort(t, r, ByName(port.name), [l]).0, r, gw, port, l);
    hide MadeFrom, NewLsp, Freed, Forgetting;
    Undone(s, t, r, gw, port, l);
  }

  /** After the port of the gateway is gone, only the router itself is left of what was made. */
  ghost predicate Freed(s: Db, u: Db, r: LrId, gw: Gateway)
    requires gw.subnet in s.subnets
  {
    r in u.routers && u.(routers := u.routers - {r}) == Forgetting(s, gw)
  }

  lemma FreedOfPort(s: Db, t: Db, u: Db, r: LrId, gw: Gateway, port: NewPort, l: LrpRow)
    requires r !in s.routers && port.row !in s.lsps && l !in s.lrps && MadeFrom(s, t, r, gw, port, l)
    requires gw.ip !in s.switches[gw.ls] && PortGone(t, u, r, gw, port, l)
    ensures Freed(s, u, r, gw)
  {
    hide RouterPortName, RemoveOne;
    ReservedThenReleased(s.switches[gw.ls], gw.ip);
    assert t.lsps - {port.row} == s.lsps && t.lrps - {l} == s.lrps && t.routers - {r} == s.routers;
    assert t.switches[gw.ls := s.switches[gw.ls]] == s.switches;
  }

  lemma MadePair(t: Db, r: LrId, gw: Gateway, port: NewPort, l: LrpRow)
    requires port.row in t.lsps
    requires t.lsps[port.row] ==
             Lsp(port.name, gw.ls, RouterPort, Some(RouterPortName(port.name)), GatewayOwner, RouterAddress)
    requires l in t.lrps && t.lrps[l] == Lrp(RouterPortName(port.name), r, gw.ip)
    ensures Pair(t, l, port.row)
  {
  }

  lemma GatewayFree(s: Db, gw: Gateway, leases: Leases)
    requires Refers(s) && GatewayFits(s, gw, leases)
    ensures gw.ls in s.switches && gw.ip !in s.switches[gw.ls] && gw.subnet in s.subnets
    ensures s.subnets[gw.subnet].ls == gw.ls && s.subnets[gw.subnet].gateway.Some?
  {
    SubnetIsThere(s, gw.ls);
  }

  lemma Undone(s: Db, t: Db, r: LrId, gw: Gateway, port: NewPort, l: LrpRow)
    requires Refers(t) && Lists(t, r, [l]) && HasNoPorts(s, r) && gw.subnet in s.subnets
    requires r in t.routers && t.routers[r].gatewayPort == Some(port.name)
    requires DetachedByPort(t, r, ByName(port.name), [l]).1
    requires Freed(s, DetachedByPort(t, r, ByName(port.name), [l]).0, r, gw)
    ensures RouterDeleted(t, r, [l]) == (Forgetting(s, gw), true)
  {
    hide DetachedByPort, Refers, Lists;
    var freed := DetachedByPort(t, r, ByName(port.name), [l]).0;
    assert HasNoPorts(freed, r);
  }

  /** The new router has the one port. */
  lemma OnlyPortListed(s: Db, t: Db, r: LrId, l: LrpRow)
    requires Refers(s) && r !in s.routers && l in t.lrps && t.lrps[l].lr == r && t.lrps == s.lrps[l := t.lrps[l]]
    ensures Lists(t, r, [l]) && HasNoPorts(s, r)
  {
    assert [l][0] == l;
  }

  /** A router that has lost its gateway: the port, and the default route of either version. */
  function WithoutGateway(router: Lr): Lr {
    Lr(None, map p | p in router.routes && p != "0.0.0.0/0" && p != "::/0" :: router.routes[p])
  }

  /** The tables after the gateway port of a router is gone, in terms of those before. */
  ghost predicate PortGone(t: Db, u: Db, r: LrId, gw: Gateway, port: NewPort, l: LrpRow) {
    && gw.subnet in t.subnets && gw.ls in t.switches
    && u.lsps == t.lsps - {port.row} && u.lrps == t.lrps - {l}
    && u.switches == t.switches[gw.ls := RemoveOne(t.switches[gw.ls], gw.ip)]
    && r in t.routers && u.routers == t.routers[r := WithoutGateway(t.routers[r])]
    && u.subnets == if t.subnets[gw.subnet].gateway == Some(gw.ip)
                    then t.subnets[gw.subnet := t.subnets[gw.subnet].(gatewayRouter := None)] else t.subnets
  }

  lemma GatewayPortFound(t: Db, gw: Gateway, port: NewPort, l: LrpRow)
    requires Sound(t) && Pair(t, l, port.row) && t.lsps[port.row].name == port.name
    requires gw.subnet in t.subnets && t.subnets[gw.subnet].ls == gw.ls
    ensures LspAt(t, ByName(port.name)) == Some(port.row) && t.lsps[port.row].routerPort.Some?
    ensures LrpAt(t, t.lsps[port.row].routerPort.value) == Some(l) && SubnetOn(t, gw.ls) == Some(gw.subnet)
  {
    SoundUnique(t);
    hide Sound, Unique, RouterPortName, LspAt, LrpAt, SubnetOn;
    FoundByName(t, port.row);
    PairFound(t, l, port.row);
    FoundSubnet(t, gw.subnet);
  }

  /** Detaching the gateway port of a router by its name. */
  lemma GatewayPortDetached(t: Db, r: LrId, gw: Gateway, port: NewPort, l: LrpRow, order: seq<LrpRow>)
    requires Sound(t) && Refers(t) && Pair(t, l, port.row) && Lists(t, r, order) && r in t.routers && t.lrps[l].lr == r
    requires Scan(t, order, Some(gw.subnet)) == Some(true)
    requires t.lrps[l].ip == gw.ip
    requires t.lsps[port.row].name == port.name && t.lsps[port.row].ls == gw.ls
    requires t.routers[r].gatewayPort == Some(port.name)
    requires gw.subnet in t.subnets && t.subnets[gw.subnet].ls == gw.ls && gw.ls in t.switches
    requires gw.ip in t.switches[gw.ls]
    ensures var (u, ok) := DetachedByPort(t, r, ByName(port.name), order); ok && PortGone(t, u, r, gw, port, l)
  {
    hide Sound, Unique, RouterPortName, Scan, LspAt, LrpAt, SubnetOn, RemoveOne, Refers, Lists, CleanedUp;
    hide WithoutGateway;
    GatewayPortFound(t, gw, port, l);
    CleanedUpIs(Detached(t, port.row, l), r, gw.subnet, t.subnets[gw.subnet].gateway == Some(gw.ip), gw.ls, gw.ip);
  }

  /** Where the address of the gateway is not among the exclusions, releasing it raises once all the rest is
      done. */
  lemma UnreservedGatewayRaises(t: Db, r: LrId, gw: Gateway, port: NewPort, l: LrpRow, order: seq<LrpRow>)
    requires Sound(t) && Refers(t) && Pair(t, l, port.row) && Lists(t, r, order) && r in t.routers && t.lrps[l].lr == r
    requires Scan(t, order, Some(gw.subnet)) == Some(true)
    requires t.lrps[l].ip == gw.ip
    requires t.lsps[port.row].name == port.name && t.lsps[port.row].ls == gw.ls
    requires t.routers[r].gatewayPort == Some(port.name)
    requires gw.subnet in t.subnets && t.subnets[gw.subnet].ls == gw.ls && gw.ls in t.switches
    requires gw.ip !in t.switches[gw.ls]
    ensures var (u, ok) := DetachedByPort(t, r, ByName(port.name), order);
            && !ok && u.lsps == t.lsps - {port.row} && u.lrps == t.lrps - {l} && u.switches == t.switches
            && u.routers == t.routers[r := WithoutGateway(t.routers[r])]
  {
    hide Sound, Unique, RouterPortName, Scan, LspAt, LrpAt, SubnetOn, Refers, Lists;
    GatewayPortFound(t, gw, port, l);
    assert t.routers[r].routes - {DEFAULT_ROUTE4} - {DEFAULT_ROUTE6} == WithoutGateway(t.routers[r]).routes;
  }

  lemma OneScanned(t: Db, l: LrpRow, row: LspRow, d: SubnetId)
    requires Unique(t) && Pair(t, l, row) && SubnetOn(t, t.lsps[row].ls) == Some(d)
    ensures Scan(t, [l], Some(d)) == Some(true)
  {
    PairFound(t, l, row);
    hide SubnetOn, LspOf, RouterPortName;
    assert [l][0] == l;
  }

  lemma CleanedUpIs(s: Db, r: LrId, d: SubnetId, isGateway: bool, ls: LsId, ip: Ip)
    requires r in s.routers && d in s.subnets && ls in s.switches && ip in s.switches[ls]
    ensures var (u, ok) := CleanedUp(s, r, d, isGateway, true, ls, ip);
            && ok && u.lsps == s.lsps && u.lrps == s.lrps
            && u.switches == s.switches[ls := RemoveOne(s.switches[ls], ip)]
            && u.routers == s.routers[r := WithoutGateway(s.routers[r])]
            && u.subnets == if isGateway then s.subnets[d := s.subnets[d].(gatewayRouter := None)] else s.subnets
  {
    hide RemoveOne;
    assert s.routers[r].routes - {DEFAULT_ROUTE4} - {DEFAULT_ROUTE6} == WithoutGateway(s.routers[r]).routes;
  }

  // ---------------------------------------------------------------------------------------------
  // A first gateway on a router that is there
  // ---------------------------------------------------------------------------------------------

  ghost predicate NoDefaultRoute(routes: map<Prefix, Hop>) {
    "0.0.0.0/0" !in routes && "::/0" !in routes
  }

  /** A router without gateway and default route takes any gateway that fits, with the default route of its
      version. */
  lemma FirstGatewayIff(s: Db, r: LrId, gw: Gateway, port: NewPort, l: LrpRow, leases: Leases)
    requires Refers(s) && r in s.routers && s.routers[r].gatewayPort == None && NoDefaultRoute(s.routers[r].routes)
    ensures RouterUpdated(s, r, Some(gw), port, l, None, leases).1 <==> GatewayFits(s, gw, leases)
    ensures GatewayFits(s, gw, leases) ==>
              var t := RouterUpdated(s, r, Some(gw), port, l, None, leases).0;
              && MadeFrom(s, t, r, gw, port, l)
              && t.routers[r].routes ==
                 s.routers[r].routes[(if s.subnets[gw.subnet].v6 then "::/0" else "0.0.0.0/0") :=
                                     s.subnets[gw.subnet].gateway.value]
  {
    if GatewayFits(s, gw, leases) {
      SubnetIsThere(s, gw.ls);
      hide Refers, GatewayFits, RouterPortName;
      var routes, subnet := s.routers[r].routes, s.subnets[gw.subnet];
      OneMoreRoute(routes, DefaultRoute(subnet.v6), subnet.gateway.value);
      assert s.routers[r := s.routers[r]] == s.routers;
    }
  }

  /** Deleting the port of that gateway by its name gives everything back, the routes of the router as they
      were, except that a subnet whose own gateway address was taken forgets its gateway router. */
  lemma DetachUndoesFirstGateway(s: Db, r: LrId, gw: Gateway, port: NewPort, l: LrpRow, leases: Leases,
                                 order: seq<LrpRow>)
    requires Sound(s) && Refers(s) && NewLsp(s, port) && l !in s.lrps
    requires r in s.routers && s.routers[r].gatewayPort == None && NoDefaultRoute(s.routers[r].routes)
    requires GatewayFits(s, gw, leases)
    requires var t := RouterUpdated(s, r, Some(gw), port, l, None, leases).0;
             Lists(t, r, order) && Scan(t, order, Some(gw.subnet)) != None
    ensures var t := RouterUpdated(s, r, Some(gw), port, l, None, leases).0;
            && Refers(t) && gw.subnet in s.subnets
            && DetachedByPort(t, r, ByName(port.name), order) == (Forgetting(s, gw), true)
            && Forgetting(s, gw).routers == s.routers
  {
    hide RouterUpdated, Sound, Refers, Lists, GatewayFits, MadeFrom, DetachedByPort, PortGone, Scan, Pair;
    hide NoDefaultRoute;
    var t := RouterUpdated(s, r, Some(gw), port, l, None, leases).0;
    FirstGatewayIff(s, r, gw, port, l, leases);
    assert Sound(t) by { RouterUpdatedKeeps(s, r, Some(gw), port, l, None, leases); }
    KeptRefersTo(t);
    GatewayFree(s, gw, leases);
    FirstGatewayScanned(s, t, r, gw, port, l, order);
    FirstGatewayListed(s, t, r, gw, port, l);
    GatewayPortDetached(t, r, gw, port, l, order);
    var hop := s.subnets[gw.subnet].gateway.value;
    PortRestored(s, t, DetachedByPort(t, r, ByName(port.name), order).0, r, gw, port, l, hop);
  }

  lemma FirstGatewayListed(s: Db, t: Db, r: LrId, gw: Gateway, port: NewPort, l: LrpRow)
    requires MadeFrom(s, t, r, gw, port, l)
    ensures Pair(t, l, port.row) && t.lrps[l].lr == r && t.lrps[l].ip == gw.ip
    ensures t.lsps[port.row].name == port.name && t.lsps[port.row].ls == gw.ls
    ensures r in t.routers && t.routers[r].gatewayPort == Some(port.name) && t.subnets == s.subnets
    ensures gw.ls in t.switches && gw.ip in t.switches[gw.ls]
  {
    hide RouterPortName;
  }

  lemma FirstGatewayScanned(s: Db, t: Db, r: LrId, gw: Gateway, port: NewPort, l: LrpRow, order: seq<LrpRow>)
    requires MadeFrom(s, t, r, gw, port, l) && Sound(t) && Lists(t, r, order) && s.subnets[gw.subnet].ls == gw.ls
    requires Scan(t, order, Some(gw.subnet)) != None
    ensures Scan(t, order, Some(gw.subnet)) == Some(true)
  {
    FirstGatewayListed(s, t, r, gw, port, l);
    hide Sound, Pair, MadeFrom;
    GatewayPortFound(t, gw, port, l);
    assert l in order;
    hide SubnetOn, Scan, Lists;
    ScanFinds(t, order, l, port.row, gw.subnet);
    var found := Scan(t, order, Some(gw.subnet));
    assert found.Some? && found.value != false;
  }

  lemma PortRestored(s: Db, t: Db, u: Db, r: LrId, gw: Gateway, port: NewPort, l: LrpRow, hop: Hop)
    requires r in s.routers && s.routers[r].gatewayPort == None && NoDefaultRoute(s.routers[r].routes)
    requires port.row !in s.lsps && l !in s.lrps && MadeFrom(s, t, r, gw, port, l)
    requires t.routers[r].routes ==
             s.routers[r].routes[(if s.subnets[gw.subnet].v6 then "::/0" else "0.0.0.0/0") := hop]
    requires gw.ip !in s.switches[gw.ls] && PortGone(t, u, r, gw, port, l)
    ensures u == Forgetting(s, gw)
  {
    hide RouterPortName, RemoveOne;
    ReservedThenReleased(s.switches[gw.ls], gw.ip);
    assert t.lsps - {port.row} == s.lsps && t.lrps - {l} == s.lrps;
    assert t.switches[gw.ls := s.switches[gw.ls]] == s.switches;
    assert WithoutGateway(t.routers[r]).routes == s.routers[r].routes;
    assert u.routers == s.routers;
  }

  /** So the router takes the next gateway exactly when that one fits. */
  lemma NextGatewayIff(s: Db, r: LrId, gw: Gateway, port: NewPort, l: LrpRow, leases: Leases, order: seq<LrpRow>,
                       next: Gateway, nextPort: NewPort, k: LrpRow, later: Leases)
    requires Sound(s) && Refers(s) && NewLsp(s, port) && l !in s.lrps
    requires r in s.routers && s.routers[r].gatewayPort == None && NoDefaultRoute(s.routers[r].routes)
    requires GatewayFits(s, gw, leases)
    requires var t := RouterUpdated(s, r, Some(gw), port, l, None, leases).0;
             Lists(t, r, order) && Scan(t, order, Some(gw.subnet)) != None
    ensures var t := RouterUpdated(s, r, Some(gw), port, l, None, leases).0;
            && Refers(t)
            && var u := DetachedByPort(t, r, ByName(port.name), order).0;
               && Refers(u)
               && (RouterUpdated(u, r, Some(next), nextPort, k, None, later).1 <==> GatewayFits(u, next, later))
  {
    hide RouterUpdated, Sound, Lists, GatewayFits, DetachedByPort, Scan, NewLsp, NoDefaultRoute;
    DetachUndoesFirstGateway(s, r, gw, port, l, leases, order);
    FirstGatewayIff(Forgetting(s, gw), r, next, nextPort, k, later);
  }
}
